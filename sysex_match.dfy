/** System-exclusive signature matching of midiParser: the inner `arrayCompare`
    and the reset and Yamaha XG part signatures it is used with. */
module SysExMatch {
  import opened MidiTypes

  /** A slot of the `small` pattern of arrayCompare: a number, NaN, or undefined. */
  datatype Slot = Num(n: int) | NaN | Undefined

  /** JavaScript `===` on numbers and undefined: NaN equals nothing, not even NaN. */
  predicate StrictEq(a: Slot, b: Slot) {
    match (a, b)
    case (Num(x), Num(y)) => x == y
    case (Undefined, Undefined) => true
    case _ => false
  }

  /** What arrayCompare answers for one slot, as written: an undefined slot is
      skipped, every other slot must be `===` to the byte. */
  predicate SlotPasses(v: Slot, b: int) {
    v.Undefined? || (v.Num? && v.n == b)
  }

  /** arrayCompare(large, small) as written: both present, `large` at least as long,
      and every slot of `small` passes against the byte of `large` at its position. */
  predicate PrefixMatch(large: Option<seq<int>>, small: Option<seq<Slot>>) {
    large.Some? && small.Some? && |large.value| >= |small.value| &&
    forall i :: 0 <= i < |small.value| ==> SlotPasses(small.value[i], large.value[i])
  }

  /** arrayCompare: a loop over the pattern with early return. */
  method ArrayCompare(large: Option<seq<int>>, small: Option<seq<Slot>>) returns (r: bool)
    ensures r <==> PrefixMatch(large, small)
  {
    if large.None? || small.None? {
      return false;
    }
    var l, s := large.value, small.value;
    if |l| < |s| {
      return false;
    }
    var i := 0;
    while i < |s|
      invariant 0 <= i <= |s|
      invariant forall j :: 0 <= j < i ==> SlotPasses(s[j], l[j])
    {
      var v := s[i];
      if StrictEq(v, Undefined) || StrictEq(v, NaN) {
        i := i + 1;
        continue;
      }
      if !StrictEq(Num(l[i]), v) {
        return false;
      }
      i := i + 1;
    }
    return true;
  }

  /** The intended reading of arrayCompare, stated in its doc comment: NaN and
      undefined slots are both "do not compare". */
  predicate WildcardPrefix(large: Option<seq<int>>, small: Option<seq<Slot>>) {
    large.Some? && small.Some? && |large.value| >= |small.value| &&
    forall i :: 0 <= i < |small.value| ==> small.value[i].Num? ==> small.value[i].n == large.value[i]
  }

  /** As written, a NaN slot never matches, whatever byte it stands against. */
  lemma NaNSlotNeverMatches(large: seq<int>, small: seq<Slot>, i: nat)
    requires i < |small| && small[i] == NaN
    ensures !PrefixMatch(Some(large), Some(small))
  {
    if |large| >= |small| {
      assert !SlotPasses(small[i], large[i]);
    }
  }

  /** The smallest input that shows it: `[NaN]` against `[0x7E]`. */
  lemma NaNSlotCounterexample()
    ensures !PrefixMatch(Some([0x7E]), Some([NaN]))
    ensures WildcardPrefix(Some([0x7E]), Some([NaN]))
  {
    NaNSlotNeverMatches([0x7E], [NaN], 0);
  }

  /** In the intended reading, a NaN slot and an undefined slot mean the same. */
  lemma WildcardNaNIsSkip(large: seq<int>, small: seq<Slot>, i: nat)
    requires i < |small|
    ensures WildcardPrefix(Some(large), Some(small[i := NaN])) == WildcardPrefix(Some(large), Some(small[i := Undefined]))
  {
  }

  /** On a pattern of plain bytes the two readings agree, so the reset tests below,
      whose signatures hold no NaN, behave as intended. */
  lemma PlainPatternsAgree(large: Option<seq<int>>, small: Option<seq<Slot>>)
    requires small.Some? ==> forall i :: 0 <= i < |small.value| ==> small.value[i].Num?
    ensures PrefixMatch(large, small) <==> WildcardPrefix(large, small)
  {
  }

  // The reset signatures, without the leading F0 the decoder strips.
  const GM_RESET: seq<Slot> := [Num(0x7E), Num(0x7F), Num(0x09), Num(0x01), Num(0xF7)]
  const GM2_RESET: seq<Slot> := [Num(0x7E), Num(0x7F), Num(0x09), Num(0x03), Num(0xF7)]
  const GS_RESET: seq<Slot> :=
    [Num(0x41), Num(0x10), Num(0x42), Num(0x12), Num(0x40), Num(0x00), Num(0x7F), Num(0x00), Num(0x41), Num(0xF7)]
  const XG_RESET: seq<Slot> := [Num(0x43), Num(0x10), Num(0x4C), Num(0x00), Num(0x00), Num(0x7E), Num(0x00), Num(0xF7)]

  predicate Matches(data: seq<int>, signature: seq<Slot>) {
    PrefixMatch(Some(data), Some(signature))
  }

  /** The reset kind a sysEx payload announces: GM, GM2, GS and XG are tried in that order. */
  function ResetOf(data: seq<int>): Option<ResetKind>
  {
    if Matches(data, GM_RESET) then Some(GM)
    else if Matches(data, GM2_RESET) then Some(GM2)
    else if Matches(data, GS_RESET) then Some(GS)
    else if Matches(data, XG_RESET) then Some(XG)
    else None
  }

  /** A pattern of plain bytes matches exactly the payloads that start with those bytes. */
  lemma {:induction false} MatchesIsPrefix(data: seq<int>, signature: seq<Slot>)
    requires forall i :: 0 <= i < |signature| ==> signature[i].Num?
    ensures Matches(data, signature) <==>
      |data| >= |signature| && forall i :: 0 <= i < |signature| ==> data[i] == signature[i].n
  {
    if |data| >= |signature| && forall i :: 0 <= i < |signature| ==> data[i] == signature[i].n {
      forall i | 0 <= i < |signature| ensures SlotPasses(signature[i], data[i]) {
      }
    }
  }

  /** The four reset signatures exclude one another, so the order of the tests
      only matters for payloads that match none. */
  lemma ResetSignaturesDisjoint(data: seq<int>)
    ensures !(Matches(data, GM_RESET) && Matches(data, GM2_RESET))
    ensures !(Matches(data, GS_RESET) && (Matches(data, GM_RESET) || Matches(data, GM2_RESET) || Matches(data, XG_RESET)))
    ensures !(Matches(data, XG_RESET) && (Matches(data, GM_RESET) || Matches(data, GM2_RESET)))
  {
    if Matches(data, GM_RESET) { assert SlotPasses(GM_RESET[0], data[0]) && SlotPasses(GM_RESET[3], data[3]); }
    if Matches(data, GM2_RESET) { assert SlotPasses(GM2_RESET[0], data[0]) && SlotPasses(GM2_RESET[3], data[3]); }
    if Matches(data, GS_RESET) { assert SlotPasses(GS_RESET[0], data[0]); }
    if Matches(data, XG_RESET) { assert SlotPasses(XG_RESET[0], data[0]); }
  }

  /** A payload is classified as a reset kind exactly when it carries that
      kind's signature, and as none when it carries none of them. */
  lemma ResetOfSignature(data: seq<int>)
    ensures ResetOf(data) == Some(GM) <==> Matches(data, GM_RESET)
    ensures ResetOf(data) == Some(GM2) <==> Matches(data, GM2_RESET)
    ensures ResetOf(data) == Some(GS) <==> Matches(data, GS_RESET)
    ensures ResetOf(data) == Some(XG) <==> Matches(data, XG_RESET)
    ensures ResetOf(data).None? <==>
      !Matches(data, GM_RESET) && !Matches(data, GM2_RESET) && !Matches(data, GS_RESET) && !Matches(data, XG_RESET)
  {
    ResetSignaturesDisjoint(data);
  }

  /** The Roland GS reset payload is recognised as GS. */
  lemma GsResetRecognised()
    ensures ResetOf([0x41, 0x10, 0x42, 0x12, 0x40, 0x00, 0x7F, 0x00, 0x41, 0xF7]) == Some(GS)
  {
    var data := [0x41, 0x10, 0x42, 0x12, 0x40, 0x00, 0x7F, 0x00, 0x41, 0xF7];
    MatchesIsPrefix(data, GS_RESET);
    ResetOfSignature(data);
  }

  /** `data[i] === v`, false when `data[i]` is undefined. */
  predicate ByteIs(data: seq<int>, i: nat, v: int) {
    i < |data| && data[i] == v
  }

  /** The Yamaha XG part-parameter frame `43 10 4C 08 ch sub val F7`. */
  predicate IsXgPart(data: seq<int>) {
    ByteIs(data, 0, 0x43) && ByteIs(data, 1, 0x10) && ByteIs(data, 2, 0x4C) &&
    ByteIs(data, 3, 0x08) && ByteIs(data, 7, 0xF7)
  }
}

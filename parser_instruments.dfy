/** What midiParser promises about instruments: every routed event is held by
    exactly one instrument of its channel, or waits in its channel's pending buffer
    when no instrument was ever selected on that channel; `instrument` is
    back-filled to match. Proved of the functions in ParserSpec through an
    invariant of the scan state. */
module ParserInstruments {
  import opened MidiTypes
  import opened SysExMatch
  import opened StableSort
  import opened ParserSpec
  import opened ParserOrder

  predicate NoDup<T(==)>(s: seq<T>) {
    forall i, j :: 0 <= i < j < |s| ==> s[i] != s[j]
  }

  /** The uids of the events of `s` routed on channel `c`, in order. */
  function RoutedOn(s: seq<MidiEvent>, c: int): seq<nat> {
    if s == [] then []
    else
      var last := s[|s| - 1];
      RoutedOn(s[..|s| - 1], c) + (if Routed(last.event) && last.event.channel == c then [last.uid] else [])
  }

  /** The event lists of the instruments of channel `c`, in dictionary order. */
  function Placed(order: seq<InsKey>, dict: map<InsKey, seq<nat>>, c: int): seq<nat> {
    if order == [] then []
    else
      var last := order[|order| - 1];
      Placed(order[..|order| - 1], dict, c) + (if last.channel == c then Lookup(dict, last) else [])
  }

  /** The dictionary order lists each key of the dictionary once. */
  ghost predicate DictOk(st: ScanState) {
    NoDup(st.order) && forall k :: k in st.dict <==> k in st.order
  }

  /** Every active instrument exists and belongs to its channel, every channel with
      an instrument has an active one, and an active channel has no pending buffer. */
  ghost predicate ActiveOk(st: ScanState) {
    (forall c :: c in st.active ==> st.active[c] in st.dict && st.active[c].channel == c) &&
    (forall k :: k in st.dict ==> k.channel in st.active) &&
    (forall c :: c in st.active ==> c !in st.pending)
  }

  /** On every channel the routed events are exactly those held by its instruments
      plus those pending. */
  ghost predicate Accounted(st: ScanState) {
    forall c :: multiset(Placed(st.order, st.dict, c)) + multiset(Lookup(st.pending, c)) ==
                multiset(RoutedOn(st.sequence, c))
  }

  /** The scan-state invariant. */
  ghost predicate Valid(st: ScanState) {
    Fresh(st.sequence) && DictOk(st) && ActiveOk(st) && Accounted(st)
  }

  lemma EmptyValid()
    ensures Valid(EmptyState)
  {
  }

  // ---------------- Placed and RoutedOn ----------------

  lemma PlacedSnoc(order: seq<InsKey>, dict: map<InsKey, seq<nat>>, k: InsKey, c: int)
    ensures Placed(order + [k], dict, c) == Placed(order, dict, c) + (if k.channel == c then Lookup(dict, k) else [])
  {
    assert (order + [k])[..|order|] == order;
  }

  lemma {:induction false} PlacedFrame(order: seq<InsKey>, d1: map<InsKey, seq<nat>>, d2: map<InsKey, seq<nat>>, c: int)
    requires forall k :: k in order ==> Lookup(d1, k) == Lookup(d2, k)
    ensures Placed(order, d1, c) == Placed(order, d2, c)
  {
    if order != [] {
      PlacedFrame(order[..|order| - 1], d1, d2, c);
    }
  }

  /** Appending `u` to instrument `k` adds `u` to the placed events of `k`'s channel only. */
  lemma {:induction false} PlacedAppend(order: seq<InsKey>, dict: map<InsKey, seq<nat>>, k: InsKey, u: nat, c: int)
    requires NoDup(order) && k in order
    ensures multiset(Placed(order, dict[k := Lookup(dict, k) + [u]], c)) ==
            multiset(Placed(order, dict, c)) + (if k.channel == c then multiset{u} else multiset{})
  {
    var d2 := dict[k := Lookup(dict, k) + [u]];
    var init, last := order[..|order| - 1], order[|order| - 1];
    var added: multiset<nat> := if k.channel == c then multiset{u} else multiset{};
    var tail: seq<nat> := if last.channel == c then Lookup(dict, last) else [];
    var tail2: seq<nat> := if last.channel == c then Lookup(d2, last) else [];
    if last == k {
      LastNotInInit(order);
      PlacedFrame(init, dict, d2, c);
      assert tail2 == tail + (if k.channel == c then [u] else []);
    } else {
      InInit(order, k);
      PlacedAppend(init, dict, k, u, c);
    }
    AddedToOnePart(Placed(init, dict, c), tail, Placed(init, d2, c), tail2, added);
  }

  lemma AddedToOnePart(a: seq<nat>, b: seq<nat>, a': seq<nat>, b': seq<nat>, added: multiset<nat>)
    requires (multiset(a') == multiset(a) + added && b' == b) || (a' == a && multiset(b') == multiset(b) + added)
    ensures multiset(a' + b') == multiset(a + b) + added
  {
  }

  lemma LastNotInInit(order: seq<InsKey>)
    requires NoDup(order) && order != []
    ensures order[|order| - 1] !in order[..|order| - 1]
  {
    var init := order[..|order| - 1];
    forall i | 0 <= i < |init| ensures init[i] != order[|order| - 1] {
      assert init[i] == order[i];
    }
  }

  lemma InInit(order: seq<InsKey>, k: InsKey)
    requires NoDup(order) && k in order && order[|order| - 1] != k
    ensures k in order[..|order| - 1] && NoDup(order[..|order| - 1])
  {
    var i :| 0 <= i < |order| && order[i] == k;
    assert order[..|order| - 1][i] == k;
  }

  lemma RoutedOnPush(s: seq<MidiEvent>, ev: MidiEvent, c: int)
    ensures RoutedOn(s + [ev], c) == RoutedOn(s, c) + (if Routed(ev.event) && ev.event.channel == c then [ev.uid] else [])
  {
    assert (s + [ev])[..|s|] == s;
  }

  /** The routed uids of a fresh sequence name routed events of the channel, each once,
      and every routed event of the channel is among them. */
  lemma {:induction false} RoutedOnFacts(s: seq<MidiEvent>, c: int)
    requires Fresh(s)
    ensures forall u :: u in RoutedOn(s, c) ==> u < |s| && Routed(s[u].event) && s[u].event.channel == c
    ensures forall u :: multiset(RoutedOn(s, c))[u] <= 1
    ensures forall u :: 0 <= u < |s| && Routed(s[u].event) && s[u].event.channel == c ==> u in RoutedOn(s, c)
  {
    if s != [] {
      var init := s[..|s| - 1];
      assert Fresh(init);
      RoutedOnFacts(init, c);
      var last := s[|s| - 1];
      assert last.uid == |s| - 1;
      assert |s| - 1 !in RoutedOn(init, c);
      forall u | 0 <= u < |s| && Routed(s[u].event) && s[u].event.channel == c ensures u in RoutedOn(s, c) {
        if u < |s| - 1 {
          assert s[u] == init[u];
        }
      }
    }
  }

  /** An event placed on channel `c` is held by some instrument of channel `c`. */
  lemma {:induction false} PlacedHolder(order: seq<InsKey>, dict: map<InsKey, seq<nat>>, c: int, u: nat)
    requires u in Placed(order, dict, c)
    ensures exists i :: 0 <= i < |order| && order[i].channel == c && u in Lookup(dict, order[i])
  {
    var init := order[..|order| - 1];
    var last := order[|order| - 1];
    if u in Placed(init, dict, c) {
      PlacedHolder(init, dict, c, u);
      var i :| 0 <= i < |init| && init[i].channel == c && u in Lookup(dict, init[i]);
      assert order[i] == init[i];
    } else {
      assert last.channel == c && u in Lookup(dict, last);
    }
  }

  /** The events of an instrument of channel `c` are among those placed on channel `c`. */
  lemma {:induction false} PlacedCountOne(order: seq<InsKey>, dict: map<InsKey, seq<nat>>, c: int, i: nat, u: nat)
    requires i < |order| && order[i].channel == c
    ensures multiset(Placed(order, dict, c))[u] >= multiset(Lookup(dict, order[i]))[u]
  {
    var n := |order| - 1;
    var init := order[..n];
    var tail: seq<nat> := if order[n].channel == c then Lookup(dict, order[n]) else [];
    assert Placed(order, dict, c) == Placed(init, dict, c) + tail;
    if i < n {
      assert init[i] == order[i];
      PlacedCountOne(init, dict, c, i, u);
    }
  }

  /** Those of two different instruments of channel `c` are counted separately. */
  lemma {:induction false} PlacedCountTwo(order: seq<InsKey>, dict: map<InsKey, seq<nat>>, c: int, i: nat, j: nat, u: nat)
    requires i < j < |order| && order[i].channel == c && order[j].channel == c
    ensures multiset(Placed(order, dict, c))[u] >= multiset(Lookup(dict, order[i]))[u] + multiset(Lookup(dict, order[j]))[u]
  {
    var n := |order| - 1;
    var init := order[..n];
    var tail: seq<nat> := if order[n].channel == c then Lookup(dict, order[n]) else [];
    assert Placed(order, dict, c) == Placed(init, dict, c) + tail;
    assert init[i] == order[i];
    if j < n {
      assert init[j] == order[j];
      PlacedCountTwo(init, dict, c, i, j, u);
    } else {
      PlacedCountOne(init, dict, c, i, u);
    }
  }

  // ---------------- preservation ----------------

  lemma SetInstrumentDictOk(st: ScanState, k: InsKey)
    requires DictOk(st)
    ensures DictOk(SetInstrument(st, k))
  {
    var r := SetInstrument(st, k);
    if k !in st.dict {
      forall i, j | 0 <= i < j < |r.order| ensures r.order[i] != r.order[j] {
        assert r.order[i] == st.order[i];
        if j < |st.order| { assert r.order[j] == st.order[j]; }
      }
    }
  }

  lemma SetInstrumentActiveOk(st: ScanState, k: InsKey)
    requires ActiveOk(st)
    ensures ActiveOk(SetInstrument(st, k))
  {
  }

  lemma SetInstrumentAccounted(st: ScanState, k: InsKey)
    requires DictOk(st) && Accounted(st)
    ensures Accounted(SetInstrument(st, k))
  {
    var r := SetInstrument(st, k);
    forall c ensures multiset(Placed(r.order, r.dict, c)) + multiset(Lookup(r.pending, c)) ==
                     multiset(RoutedOn(r.sequence, c))
    {
      SetInstrumentAccountedOn(st, k, c);
    }
  }

  lemma SetInstrumentAccountedOn(st: ScanState, k: InsKey, c: int)
    requires DictOk(st)
    requires multiset(Placed(st.order, st.dict, c)) + multiset(Lookup(st.pending, c)) == multiset(RoutedOn(st.sequence, c))
    ensures var r := SetInstrument(st, k);
      multiset(Placed(r.order, r.dict, c)) + multiset(Lookup(r.pending, c)) == multiset(RoutedOn(r.sequence, c))
  {
    var r := SetInstrument(st, k);
    if k !in st.dict {
      PlacedSnoc(st.order, r.dict, k, c);
      PlacedFrame(st.order, st.dict, r.dict, c);
    }
  }

  /** setInstrument keeps the invariant. */
  lemma SetInstrumentValid(st: ScanState, k: InsKey)
    requires Valid(st)
    ensures Valid(SetInstrument(st, k))
  {
    SetInstrumentDictOk(st, k);
    SetInstrumentActiveOk(st, k);
    SetInstrumentAccounted(st, k);
  }

  /** Pushing an event the switch does not route keeps the invariant. */
  lemma PushValid(st: ScanState, ev: MidiEvent)
    requires Valid(st) && ev.uid == |st.sequence| && ev.index.None? && ev.instrument.None? && !Routed(ev.event)
    ensures Valid(Push(st, ev))
  {
    var r := Push(st, ev);
    assert Accounted(r) by {
      forall c ensures multiset(Placed(r.order, r.dict, c)) + multiset(Lookup(r.pending, c)) ==
                       multiset(RoutedOn(r.sequence, c))
      {
        RoutedOnPush(st.sequence, ev, c);
        assert multiset(Placed(st.order, st.dict, c)) + multiset(Lookup(st.pending, c)) ==
               multiset(RoutedOn(st.sequence, c));
      }
    }
  }

  lemma PushRouteAccounted(st: ScanState, ev: MidiEvent)
    requires DictOk(st) && ActiveOk(st) && Accounted(st) && Routed(ev.event)
    ensures Accounted(Route(Push(st, ev), ev.event.channel, ev.uid))
  {
    var r := Route(Push(st, ev), ev.event.channel, ev.uid);
    forall c' ensures multiset(Placed(r.order, r.dict, c')) + multiset(Lookup(r.pending, c')) ==
                      multiset(RoutedOn(r.sequence, c'))
    {
      PushRouteAccountedOn(st, ev, c');
    }
  }

  lemma PushRouteAccountedOn(st: ScanState, ev: MidiEvent, c': int)
    requires DictOk(st) && ActiveOk(st) && Routed(ev.event)
    requires multiset(Placed(st.order, st.dict, c')) + multiset(Lookup(st.pending, c')) == multiset(RoutedOn(st.sequence, c'))
    ensures var r := Route(Push(st, ev), ev.event.channel, ev.uid);
      multiset(Placed(r.order, r.dict, c')) + multiset(Lookup(r.pending, c')) == multiset(RoutedOn(r.sequence, c'))
  {
    var c, u := ev.event.channel, ev.uid;
    var r := Route(Push(st, ev), c, u);
    var added: multiset<nat> := if c == c' then multiset{u} else multiset{};
    RoutedOnPush(st.sequence, ev, c');
    assert multiset(RoutedOn(r.sequence, c')) == multiset(RoutedOn(st.sequence, c')) + added;
    if c in st.active {
      RouteActiveOn(st, c, u, c');
    } else {
      RoutePendingOn(st, c, u, c');
    }
    AddedOnOneSide(multiset(Placed(st.order, st.dict, c')), multiset(Lookup(st.pending, c')), multiset(RoutedOn(st.sequence, c')),
                   multiset(Placed(r.order, r.dict, c')), multiset(Lookup(r.pending, c')), multiset(RoutedOn(r.sequence, c')), added);
  }

  lemma AddedOnOneSide(p: multiset<nat>, l: multiset<nat>, q: multiset<nat>, p': multiset<nat>, l': multiset<nat>, q': multiset<nat>, a: multiset<nat>)
    requires p + l == q && q' == q + a
    requires (p' == p + a && l' == l) || (p' == p && l' == l + a)
    ensures p' + l' == q'
  {
  }

  /** Routing to the channel's active instrument adds `u` to that channel's placed events. */
  lemma RouteActiveOn(st: ScanState, c: int, u: nat, c': int)
    requires DictOk(st) && ActiveOk(st) && c in st.active
    ensures var r := Route(st, c, u);
      r.pending == st.pending && r.sequence == st.sequence &&
      multiset(Placed(r.order, r.dict, c')) == multiset(Placed(st.order, st.dict, c')) + (if c == c' then multiset{u} else multiset{})
  {
    var k := st.active[c];
    PlacedAppend(st.order, st.dict, k, u, c');
  }

  /** Routing to a channel without an active instrument adds `u` to its pending buffer. */
  lemma RoutePendingOn(st: ScanState, c: int, u: nat, c': int)
    requires c !in st.active
    ensures var r := Route(st, c, u);
      r.dict == st.dict && r.order == st.order && r.sequence == st.sequence &&
      multiset(Lookup(r.pending, c')) == multiset(Lookup(st.pending, c')) + (if c == c' then multiset{u} else multiset{})
  {
    var r := Route(st, c, u);
    assert Lookup(r.pending, c') == Lookup(st.pending, c') + (if c == c' then [u] else []);
  }

  /** Pushing a routed event and routing it keeps the invariant. */
  lemma PushRouteValid(st: ScanState, ev: MidiEvent)
    requires Valid(st) && ev.uid == |st.sequence| && ev.index.None? && ev.instrument.None? && Routed(ev.event)
    ensures Valid(Route(Push(st, ev), ev.event.channel, ev.uid))
  {
    PushRouteAccounted(st, ev);
    FreshPush(st.sequence, ev);
  }

  lemma FreshPush(s: seq<MidiEvent>, ev: MidiEvent)
    requires Fresh(s) && ev.uid == |s| && ev.index.None? && ev.instrument.None?
    ensures Fresh(s + [ev])
  {
    forall p | 0 <= p < |s| + 1 ensures (s + [ev])[p].uid == p && (s + [ev])[p].index.None? && (s + [ev])[p].instrument.None? {
      if p < |s| {
        assert (s + [ev])[p] == s[p];
      }
    }
  }

  /** The parts of the scan state the invariant speaks of. */
  ghost predicate SameBook(a: ScanState, b: ScanState) {
    a.sequence == b.sequence && a.dict == b.dict && a.order == b.order && a.pending == b.pending && a.active == b.active
  }

  lemma ValidBook(a: ScanState, b: ScanState)
    requires Valid(a) && SameBook(a, b)
    ensures Valid(b)
  {
    assert Accounted(b) by {
      forall c ensures multiset(Placed(b.order, b.dict, c)) + multiset(Lookup(b.pending, c)) ==
                       multiset(RoutedOn(b.sequence, c))
      {
        assert multiset(Placed(a.order, a.dict, c)) + multiset(Lookup(a.pending, c)) ==
               multiset(RoutedOn(a.sequence, c));
      }
    }
  }

  /** A routed event is appended to its channel's instrument or pending buffer. */
  lemma ApplyRouted(st: ScanState, bank: Bank, u: nat, e: RawEvent)
    requires Routed(e)
    ensures Apply(st, bank, u, e).0 == Route(st, e.channel, u)
  {
  }

  /** Every other event either selects an instrument or leaves the book alone. */
  lemma ApplyUnrouted(st: ScanState, bank: Bank, u: nat, e: RawEvent)
    requires !Routed(e)
    ensures SameBook(st, Apply(st, bank, u, e).0) || exists k :: Apply(st, bank, u, e).0 == SetInstrument(st, k)
  {
    var r := Apply(st, bank, u, e).0;
    match e
    case Meta(_, _, _, _, _) =>
    case SysEx(_, data) =>
      ApplySysEx(st, bank, u, e);
    case DividedSysEx(_, _) =>
    case Channel(_, kind, c, value, _, _) =>
      if kind == ProgramChange {
        assert r == SetInstrument(st, InsKey(c, bank.msb, bank.lsb, value));
      }
  }

  lemma ApplySysEx(st: ScanState, bank: Bank, u: nat, e: RawEvent)
    requires e.SysEx?
    ensures SameBook(st, Apply(st, bank, u, e).0) || exists k :: Apply(st, bank, u, e).0 == SetInstrument(st, k)
  {
    var data := e.data;
    if ResetOf(data).None? && IsXgPart(data) && data[5] == 3 {
      assert Apply(st, bank, u, e).0 == SetInstrument(st, InsKey(data[4], bank.msb, bank.lsb, data[6]));
    }
  }

  /** Each step of the scan keeps the invariant. */
  lemma ScanEventValid(st: ScanState, ti: nat, bank: Bank, lastTicks: int, e: RawEvent)
    requires Valid(st)
    ensures Valid(ScanEvent(st, ti, bank, lastTicks, e).0)
  {
    var ev := NewEvent(st, ti, lastTicks, e);
    var p := Push(st, ev);
    var u := |st.sequence|;
    var r := Apply(p, bank, u, e).0;
    assert ScanEvent(st, ti, bank, lastTicks, e).0 == r;
    if Routed(e) {
      PushRouteValid(st, ev);
      ApplyRouted(p, bank, u, e);
    } else {
      PushValid(st, ev);
      ApplyUnrouted(p, bank, u, e);
      if SameBook(p, r) {
        ValidBook(p, r);
      } else {
        var k :| r == SetInstrument(p, k);
        SetInstrumentValid(p, k);
      }
    }
  }

  lemma {:induction false} ScanTrackValid(st: ScanState, ti: nat, bank: Bank, lastTicks: int, track: seq<RawEvent>)
    requires Valid(st)
    ensures Valid(ScanTrackFrom(st, ti, bank, lastTicks, track))
    decreases |track|
  {
    if track != [] {
      var (st1, bank1) := ScanEvent(st, ti, bank, lastTicks, track[0]);
      ScanEventValid(st, ti, bank, lastTicks, track[0]);
      ScanTrackValid(st1, ti, bank1, lastTicks + track[0].deltaTime, track[1..]);
    }
  }

  lemma {:induction false} ScanTracksValid(st: ScanState, tracks: seq<seq<RawEvent>>, t0: nat)
    requires t0 <= |tracks| && Valid(st)
    ensures Valid(ScanTracksFrom(st, tracks, t0))
    decreases |tracks| - t0
  {
    if t0 < |tracks| {
      ScanTrackValid(st, t0, Bank(0, 0), 0, tracks[t0]);
      ScanTracksValid(ScanTrackFrom(st, t0, Bank(0, 0), 0, tracks[t0]), tracks, t0 + 1);
    }
  }

  /** Every scan state midiParser reaches satisfies the invariant. */
  lemma ScannedValid(f: MidiFile)
    ensures Valid(ScanTracksFrom(EmptyState, f.tracks, 0))
  {
    EmptyValid();
    ScanTracksValid(EmptyState, f.tracks, 0);
  }

  // ---------------- the instruments of a valid state ----------------
  // In a valid state the instruments, in dictionary order, partition the routed
  // events of the channels that have one.

  /** Each held uid names a routed event of the instrument's channel. */
  lemma HeldIsRouted(st: ScanState, i: nat, u: nat)
    requires Fresh(st.sequence) && Accounted(st) && i < |st.order| && u in Lookup(st.dict, st.order[i])
    ensures u < |st.sequence| && Routed(st.sequence[u].event) && st.sequence[u].event.channel == st.order[i].channel
  {
    var c := st.order[i].channel;
    PlacedCountOne(st.order, st.dict, c, i, u);
    assert multiset(Lookup(st.dict, st.order[i]))[u] >= 1;
    var m := multiset(RoutedOn(st.sequence, c));
    assert m == multiset(Placed(st.order, st.dict, c)) + multiset(Lookup(st.pending, c));
    assert m[u] >= 1;
    assert u in RoutedOn(st.sequence, c);
    RoutedOnFacts(st.sequence, c);
  }

  lemma AllHeldRouted(st: ScanState)
    requires Fresh(st.sequence) && Accounted(st)
    ensures forall i, u: nat {:trigger u in Lookup(st.dict, st.order[i])} :: 0 <= i < |st.order| && u in Lookup(st.dict, st.order[i]) ==>
      u < |st.sequence| && Routed(st.sequence[u].event) && st.sequence[u].event.channel == st.order[i].channel
  {
    forall i, u: nat {:trigger u in Lookup(st.dict, st.order[i])} | 0 <= i < |st.order| && u in Lookup(st.dict, st.order[i])
      ensures u < |st.sequence| && Routed(st.sequence[u].event) && st.sequence[u].event.channel == st.order[i].channel
    {
      HeldIsRouted(st, i, u);
    }
  }

  /** No instrument holds a uid twice. */
  lemma HeldOnce(st: ScanState, i: nat, u: nat)
    requires Fresh(st.sequence) && Accounted(st) && i < |st.order|
    ensures multiset(Lookup(st.dict, st.order[i]))[u] <= 1
  {
    var c := st.order[i].channel;
    PlacedCountOne(st.order, st.dict, c, i, u);
    var m := multiset(RoutedOn(st.sequence, c));
    assert m == multiset(Placed(st.order, st.dict, c)) + multiset(Lookup(st.pending, c));
    RoutedOnFacts(st.sequence, c);
    assert m[u] <= 1;
  }

  /** No two instruments hold the same uid. */
  lemma HeldByOne(st: ScanState, i: nat, j: nat, u: nat)
    requires Valid(st) && i < |st.order| && j < |st.order|
    requires u in Lookup(st.dict, st.order[i]) && u in Lookup(st.dict, st.order[j])
    ensures i == j
  {
    HeldIsRouted(st, i, u);
    HeldIsRouted(st, j, u);
    if i != j {
      var c := st.order[i].channel;
      if i < j { PlacedCountTwo(st.order, st.dict, c, i, j, u); } else { PlacedCountTwo(st.order, st.dict, c, j, i, u); }
      assert multiset(Placed(st.order, st.dict, c)) + multiset(Lookup(st.pending, c)) == multiset(RoutedOn(st.sequence, c));
      RoutedOnFacts(st.sequence, c);
      assert multiset(RoutedOn(st.sequence, c))[u] <= 1;
    }
  }

  /** A routed event that no instrument holds sits on a channel without instruments. */
  lemma UnheldChannelBare(st: ScanState, u: nat, i: nat)
    requires Valid(st) && u < |st.sequence| && Routed(st.sequence[u].event)
    requires forall i' :: 0 <= i' < |st.order| ==> u !in Lookup(st.dict, st.order[i'])
    requires i < |st.order|
    ensures st.order[i].channel != st.sequence[u].event.channel
  {
    var c := st.sequence[u].event.channel;
    RoutedOnFacts(st.sequence, c);
    if u in Placed(st.order, st.dict, c) {
      PlacedHolder(st.order, st.dict, c, u);
    }
    assert multiset(Placed(st.order, st.dict, c)) + multiset(Lookup(st.pending, c)) == multiset(RoutedOn(st.sequence, c));
    assert u in multiset(RoutedOn(st.sequence, c));
    assert u in Lookup(st.pending, c);
    assert st.order[i] in st.dict;
  }

  /** The back-fill gives an event the instrument that holds it, and none when no
      instrument does. */
  lemma LastHolderIsHolder(ins: seq<Instrument>, u: nat, i: nat)
    requires i < |ins| && u in ins[i].events
    requires forall i, j :: 0 <= i < |ins| && 0 <= j < |ins| && u in ins[i].events && u in ins[j].events ==> i == j
    ensures LastHolder(ins, u) == Some(i)
  {
  }

  /** Distinct instrument keys, each instrument's events routed on its channel and held once. */
  lemma FinishInstrumentKeys(st: ScanState, ticksPerBeat: int)
    requires Valid(st)
    ensures var ins := Finish(st, ticksPerBeat).instruments;
      forall i :: 0 <= i < |ins| ==> ins[i].index == Some(i)
    ensures var ins := Finish(st, ticksPerBeat).instruments;
      forall i, j :: 0 <= i < j < |ins| ==>
        (ins[i].channel, ins[i].bankMsb, ins[i].bankLsb, ins[i].program) != (ins[j].channel, ins[j].bankMsb, ins[j].bankLsb, ins[j].program)
    ensures var ins := Finish(st, ticksPerBeat).instruments;
      forall i, u {:trigger u in ins[i].events} :: 0 <= i < |ins| && u in ins[i].events ==>
        u < |st.sequence| && Routed(st.sequence[u].event) && st.sequence[u].event.channel == ins[i].channel
    ensures var ins := Finish(st, ticksPerBeat).instruments;
      forall i, u :: 0 <= i < |ins| ==> multiset(ins[i].events)[u] <= 1
  {
    var ins := Finish(st, ticksPerBeat).instruments;
    assert ins == Instruments(st.order, st.dict);
    forall i, j | 0 <= i < j < |ins|
      ensures (ins[i].channel, ins[i].bankMsb, ins[i].bankLsb, ins[i].program) != (ins[j].channel, ins[j].bankMsb, ins[j].bankLsb, ins[j].program)
    {
      assert st.order[i] != st.order[j];
    }
    AllHeldRouted(st);
    assert forall i :: 0 <= i < |ins| ==> ins[i].events == Lookup(st.dict, st.order[i]) && ins[i].channel == st.order[i].channel;
    forall i, u | 0 <= i < |ins| ensures multiset(ins[i].events)[u] <= 1 {
      assert ins[i].events == Lookup(st.dict, st.order[i]);
      HeldOnce(st, i, u);
    }
  }

  /** The back-fill names the instrument that holds `u`. */
  lemma HolderIff(st: ScanState, u: nat, i: nat)
    requires Valid(st) && i < |st.order|
    ensures LastHolder(Instruments(st.order, st.dict), u) == Some(i) <==> u in Lookup(st.dict, st.order[i])
  {
    var ins := Instruments(st.order, st.dict);
    assert ins[i].events == Lookup(st.dict, st.order[i]);
    if u in ins[i].events {
      forall i', j' | 0 <= i' < |ins| && 0 <= j' < |ins| && u in ins[i'].events && u in ins[j'].events
        ensures i' == j'
      {
        assert ins[i'].events == Lookup(st.dict, st.order[i']);
        assert ins[j'].events == Lookup(st.dict, st.order[j']);
        HeldByOne(st, i', j', u);
      }
      LastHolderIsHolder(ins, u, i);
    }
  }

  /** A routed event the back-fill leaves without an instrument is on a channel without any. */
  lemma HolderNone(st: ScanState, u: nat)
    requires Valid(st) && u < |st.sequence| && Routed(st.sequence[u].event)
    requires LastHolder(Instruments(st.order, st.dict), u).None?
    ensures forall i :: 0 <= i < |st.order| ==> st.order[i].channel != st.sequence[u].event.channel
  {
    var ins := Instruments(st.order, st.dict);
    assert forall i' :: 0 <= i' < |st.order| ==> u !in Lookup(st.dict, st.order[i']) by {
      forall i' | 0 <= i' < |st.order| ensures u !in Lookup(st.dict, st.order[i']) {
        assert ins[i'].events == Lookup(st.dict, st.order[i']);
      }
    }
    forall i | 0 <= i < |st.order| ensures st.order[i].channel != st.sequence[u].event.channel {
      UnheldChannelBare(st, u, i);
    }
  }

  /** The back-filled `instrument` of every event names exactly the instrument
      holding it; a routed event keeps none only when its channel never got one. */
  lemma FinishBackFill(st: ScanState, ticksPerBeat: int)
    requires Valid(st)
    ensures var sheet := Finish(st, ticksPerBeat); var ins := sheet.instruments;
      (forall p, i :: 0 <= p < |sheet.sequence| && 0 <= i < |ins| ==>
        (sheet.sequence[p].instrument == Some(i) <==> sheet.sequence[p].uid in ins[i].events)) &&
      (forall p :: 0 <= p < |sheet.sequence| && Routed(sheet.sequence[p].event) && sheet.sequence[p].instrument.None? ==>
        forall i :: 0 <= i < |ins| ==> ins[i].channel != sheet.sequence[p].event.channel)
  {
    FinishSequence(st, ticksPerBeat);
    var sheet := Finish(st, ticksPerBeat);
    var ins := sheet.instruments;
    assert ins == Instruments(st.order, st.dict);
    assert forall p :: 0 <= p < |sheet.sequence| ==> sheet.sequence[p].instrument == LastHolder(ins, sheet.sequence[p].uid);
    forall p, i | 0 <= p < |sheet.sequence| && 0 <= i < |ins|
      ensures sheet.sequence[p].instrument == Some(i) <==> sheet.sequence[p].uid in ins[i].events
    {
      HolderIff(st, sheet.sequence[p].uid, i);
    }
    forall p | 0 <= p < |sheet.sequence| && Routed(sheet.sequence[p].event) && sheet.sequence[p].instrument.None?
      ensures forall i :: 0 <= i < |ins| ==> ins[i].channel != sheet.sequence[p].event.channel
    {
      var u := sheet.sequence[p].uid;
      assert st.sequence[u].event == sheet.sequence[p].event;
      HolderNone(st, u);
    }
  }

  /** midiParser's instruments: in dictionary order with `index` equal to the position,
      distinct (channel, bank MSB, bank LSB, program) keys, each holding routed events
      of its own channel at most once, and `instrument` naming exactly the instrument
      that holds the event; a routed event is left without an instrument only when
      its channel never got one. */
  lemma ParseInstruments(f: MidiFile)
    ensures var sheet := Parse(f); var ins := sheet.instruments;
      (forall i :: 0 <= i < |ins| ==> ins[i].index == Some(i)) &&
      (forall i, j :: 0 <= i < j < |ins| ==>
        (ins[i].channel, ins[i].bankMsb, ins[i].bankLsb, ins[i].program) != (ins[j].channel, ins[j].bankMsb, ins[j].bankLsb, ins[j].program)) &&
      (forall i, u {:trigger u in ins[i].events} :: 0 <= i < |ins| && u in ins[i].events ==>
        u < |Scanned(f)| && Routed(Scanned(f)[u].event) && Scanned(f)[u].event.channel == ins[i].channel) &&
      (forall i, u :: 0 <= i < |ins| ==> multiset(ins[i].events)[u] <= 1) &&
      (forall p, i :: 0 <= p < |sheet.sequence| && 0 <= i < |ins| ==>
        (sheet.sequence[p].instrument == Some(i) <==> sheet.sequence[p].uid in ins[i].events)) &&
      (forall p :: 0 <= p < |sheet.sequence| && Routed(sheet.sequence[p].event) && sheet.sequence[p].instrument.None? ==>
        forall i :: 0 <= i < |ins| ==> ins[i].channel != sheet.sequence[p].event.channel)
  {
    ScannedValid(f);
    FinishInstrumentKeys(ScanTracksFrom(EmptyState, f.tracks, 0), f.ticksPerBeat);
    FinishBackFill(ScanTracksFrom(EmptyState, f.tracks, 0), f.ticksPerBeat);
  }
}

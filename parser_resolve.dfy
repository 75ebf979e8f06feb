/** Which instrument midiParser (src/test/lib/MidiParser.ts:137-276) gives each
    routed event, stated in decode order. A track's bank-select latches start at
    0/0 and follow the bank-select controllers and the XG part sub-ops 1 and 2. A
    program change or an XG sub-op 3 selects the instrument keyed by the latches.
    A routed event goes to the instrument selected last on its channel before it,
    else to the first one selected on that channel after it, else to none. */
module ParserResolve {
  import opened MidiTypes
  import opened SysExMatch
  import opened ParserSpec
  import opened ParserOrder
  import opened ParserInstruments

  // ---------------- the bank latches ----------------

  /** What an event does to `bankMsb`/`bankLsb`: MSB_BANK sets the MSB and clears
      the LSB, LSB_BANK sets the LSB, the XG part sub-ops 1 and 2 set one half. */
  function BankStep(bank: Bank, e: RawEvent): Bank {
    match e
    case SysEx(_, data) =>
      if ResetOf(data).Some? || !IsXgPart(data) then bank
      else if data[5] == 1 then bank.(msb := data[6])
      else if data[5] == 2 then bank.(lsb := data[6])
      else bank
    case Channel(_, kind, _, value, ct, _) =>
      if kind != Controller then bank
      else if ct == MSB_BANK then Bank(value, 0)
      else if ct == LSB_BANK then bank.(lsb := value)
      else bank
    case _ => bank
  }

  /** The latches after reading `es` from `bank`. */
  function Latch(bank: Bank, es: seq<RawEvent>): Bank
    decreases |es|
  {
    if es == [] then bank else Latch(BankStep(bank, es[0]), es[1..])
  }

  /** The latches in force when event `j` of a track is read: every track starts at 0/0. */
  function BankAt(track: seq<RawEvent>, j: nat): Bank
    requires j <= |track|
  {
    Latch(Bank(0, 0), track[..j])
  }

  lemma {:induction false} LatchSnoc(bank: Bank, es: seq<RawEvent>, e: RawEvent)
    ensures Latch(bank, es + [e]) == BankStep(Latch(bank, es), e)
    decreases |es|
  {
    if es == [] {
      assert [e][1..] == [];
    } else {
      assert (es + [e])[1..] == es[1..] + [e];
      LatchSnoc(BankStep(bank, es[0]), es[1..], e);
    }
  }

  /** The latches start every track at 0/0 and each event moves them by one BankStep. */
  lemma BankAtNext(track: seq<RawEvent>, j: nat)
    requires j < |track|
    ensures BankAt(track, 0) == Bank(0, 0)
    ensures BankAt(track, j + 1) == BankStep(BankAt(track, j), track[j])
  {
    assert track[..j + 1] == track[..j] + [track[j]];
    LatchSnoc(Bank(0, 0), track[..j], track[j]);
  }

  // ---------------- what each event does to the instrument book ----------------

  /** Select an instrument, be routed on a channel, or neither. */
  datatype Action = Select(key: InsKey) | Deliver(channel: int) | Pass

  /** The action of `e` read with latches `bank`: routed events are delivered on their
      channel; a program change or an XG sub-op 3 selects the instrument keyed by the
      channel, the latches and the program; nothing else touches the book. */
  function ActionOf(bank: Bank, e: RawEvent): (r: Action)
    ensures r.Deliver? <==> Routed(e)
    ensures r.Deliver? ==> r.channel == e.channel
  {
    if Routed(e) then Deliver(e.channel)
    else match e
      case Channel(_, kind, c, value, _, _) =>
        if kind == ProgramChange then Select(InsKey(c, bank.msb, bank.lsb, value)) else Pass
      case SysEx(_, data) =>
        if ResetOf(data).None? && IsXgPart(data) && data[5] == 3 then Select(InsKey(data[4], bank.msb, bank.lsb, data[6]))
        else Pass
      case _ => Pass
  }

  /** The actions of `track` read from latches `bank`. */
  function ActionsFrom(bank: Bank, track: seq<RawEvent>): (r: seq<Action>)
    ensures |r| == |track|
    decreases |track|
  {
    if track == [] then [] else [ActionOf(bank, track[0])] + ActionsFrom(BankStep(bank, track[0]), track[1..])
  }

  /** The actions of the tracks, in decode order, each track from latches 0/0. */
  function TracksActions(tracks: seq<seq<RawEvent>>): (r: seq<Action>)
    ensures |r| == |Flatten(tracks)|
  {
    if tracks == [] then [] else ActionsFrom(Bank(0, 0), tracks[0]) + TracksActions(tracks[1..])
  }

  function Actions(f: MidiFile): seq<Action> {
    TracksActions(f.tracks)
  }

  lemma {:induction false} ActionsFromAt(bank: Bank, track: seq<RawEvent>, j: nat)
    requires j < |track|
    ensures ActionsFrom(bank, track)[j] == ActionOf(Latch(bank, track[..j]), track[j])
    decreases j
  {
    if j > 0 {
      ActionsFromAt(BankStep(bank, track[0]), track[1..], j - 1);
      assert track[..j][1..] == track[1..][..j - 1];
    }
  }

  /** Event `j` of track `ti` acts at decode position |Flatten(tracks[..ti])| + j, read
      with the latches BankAt(tracks[ti], j). */
  lemma {:induction false} TracksActionsAt(tracks: seq<seq<RawEvent>>, ti: nat, j: nat)
    requires ti < |tracks| && j < |tracks[ti]|
    ensures |Flatten(tracks[..ti])| + j < |TracksActions(tracks)|
    ensures TracksActions(tracks)[|Flatten(tracks[..ti])| + j] == ActionOf(BankAt(tracks[ti], j), tracks[ti][j])
    decreases ti
  {
    if ti == 0 {
      assert tracks[..0] == [];
      ActionsFromAt(Bank(0, 0), tracks[0], j);
    } else {
      TracksActionsAt(tracks[1..], ti - 1, j);
      assert tracks[..ti][1..] == tracks[1..][..ti - 1];
      assert Flatten(tracks[..ti]) == tracks[0] + Flatten(tracks[1..][..ti - 1]);
    }
  }

  // ---------------- the instrument book in decode order ----------------

  predicate SelectsOn(a: Action, c: int) {
    a.Select? && a.key.channel == c
  }

  /** The instrument selected last on channel `c` in `acts`. */
  function LastSelect(acts: seq<Action>, c: int): (r: Option<InsKey>)
    ensures r.Some? ==> r.value.channel == c && Select(r.value) in acts
    ensures r.None? ==> forall k :: Select(k) in acts ==> k.channel != c
  {
    if acts == [] then None
    else
      assert acts == acts[..|acts| - 1] + [acts[|acts| - 1]];
      if SelectsOn(acts[|acts| - 1], c) then Some(acts[|acts| - 1].key)
      else LastSelect(acts[..|acts| - 1], c)
  }

  /** The instrument selected first on channel `c` in `acts`. */
  function FirstSelect(acts: seq<Action>, c: int): (r: Option<InsKey>)
    ensures r.Some? ==> r.value.channel == c && Select(r.value) in acts
    ensures r.None? ==> forall k :: Select(k) in acts ==> k.channel != c
  {
    if acts == [] then None
    else
      assert acts == [acts[0]] + acts[1..];
      if SelectsOn(acts[0], c) then Some(acts[0].key)
      else FirstSelect(acts[1..], c)
  }

  /** The instrument that ends up holding the event delivered at `u`: the last one
      selected on its channel before it, else the first one selected on it after. */
  function Holder(acts: seq<Action>, u: nat): (r: Option<InsKey>)
    requires u < |acts| && acts[u].Deliver?
    ensures r.Some? ==> r.value.channel == acts[u].channel && Select(r.value) in acts
    ensures r.None? ==> forall k :: Select(k) in acts ==> k.channel != acts[u].channel
  {
    assert acts == acts[..u] + [acts[u]] + acts[u + 1..];
    var before := LastSelect(acts[..u], acts[u].channel);
    if before.Some? then before else FirstSelect(acts[u + 1..], acts[u].channel)
  }

  /** Carrying out one action on the scan state. */
  function Perform(st: ScanState, u: nat, a: Action): ScanState {
    match a
    case Select(k) => SetInstrument(st, k)
    case Deliver(c) => Route(st, c, u)
    case Pass => st
  }

  ghost predicate HeldBy(acts: seq<Action>, u: nat, k: InsKey) {
    u < |acts| && acts[u].Deliver? && Holder(acts, u) == Some(k)
  }

  ghost predicate Waiting(acts: seq<Action>, u: nat, c: int) {
    u < |acts| && acts[u] == Deliver(c) && Holder(acts, u).None?
  }

  ghost predicate KeysSelected(st: ScanState, acts: seq<Action>) {
    forall k :: k in st.dict <==> Select(k) in acts
  }

  ghost predicate ActiveIsLast(st: ScanState, acts: seq<Action>) {
    forall c :: LastSelect(acts, c) == (if c in st.active then Some(st.active[c]) else None)
  }

  ghost predicate HeldIsHolder(st: ScanState, acts: seq<Action>) {
    forall k: InsKey, u: nat :: u in Lookup(st.dict, k) <==> HeldBy(acts, u, k)
  }

  ghost predicate PendingIsUnheld(st: ScanState, acts: seq<Action>) {
    forall c: int, u: nat :: u in Lookup(st.pending, c) <==> Waiting(acts, u, c)
  }

  /** The book after `acts`: the dictionary keys are the selected keys, each channel's
      active instrument is its last selection, every instrument lists exactly the
      events it is the Holder of, and every pending buffer exactly those with none. */
  ghost predicate Book(st: ScanState, acts: seq<Action>) {
    KeysSelected(st, acts) && ActiveIsLast(st, acts) && HeldIsHolder(st, acts) && PendingIsUnheld(st, acts)
  }

  lemma {:induction false} FirstSelectSnoc(acts: seq<Action>, a: Action, c: int)
    ensures FirstSelect(acts + [a], c) ==
      if FirstSelect(acts, c).Some? then FirstSelect(acts, c) else if SelectsOn(a, c) then Some(a.key) else None
  {
    if acts == [] {
      assert [a][1..] == [];
    } else {
      assert (acts + [a])[1..] == acts[1..] + [a];
      FirstSelectSnoc(acts[1..], a, c);
    }
  }

  lemma LastSelectSnoc(acts: seq<Action>, a: Action, c: int)
    ensures LastSelect(acts + [a], c) == if SelectsOn(a, c) then Some(a.key) else LastSelect(acts, c)
  {
    assert (acts + [a])[..|acts|] == acts;
  }

  /** A later action changes an earlier event's Holder only when the event had none
      and the action selects on its channel. */
  lemma HolderSnoc(acts: seq<Action>, a: Action, u: nat)
    requires u < |acts| && acts[u].Deliver?
    ensures (acts + [a])[u] == acts[u]
    ensures Holder(acts + [a], u) ==
      if Holder(acts, u).None? && SelectsOn(a, acts[u].channel) then Some(a.key) else Holder(acts, u)
  {
    assert (acts + [a])[..u] == acts[..u];
    assert (acts + [a])[u + 1..] == acts[u + 1..] + [a];
    FirstSelectSnoc(acts[u + 1..], a, acts[u].channel);
  }

  /** A newly delivered event is held by the last selection on its channel so far. */
  lemma HolderOfLast(acts: seq<Action>, c: int)
    ensures Holder(acts + [Deliver(c)], |acts|) == LastSelect(acts, c)
  {
    assert (acts + [Deliver(c)])[..|acts|] == acts;
    assert (acts + [Deliver(c)])[|acts| + 1..] == [];
  }

  lemma BookEmpty()
    ensures Book(EmptyState, [])
  {
  }

  lemma BookPass(st: ScanState, acts: seq<Action>)
    requires Book(st, acts)
    ensures Book(st, acts + [Pass])
  {
    var a := acts + [Pass];
    forall c ensures LastSelect(a, c) == LastSelect(acts, c) {
      LastSelectSnoc(acts, Pass, c);
    }
    forall k: InsKey, u: nat ensures HeldBy(a, u, k) <==> HeldBy(acts, u, k) {
      if u < |acts| && acts[u].Deliver? {
        HolderSnoc(acts, Pass, u);
      }
    }
    forall c: int, u: nat ensures Waiting(a, u, c) <==> Waiting(acts, u, c) {
      if u < |acts| && acts[u].Deliver? {
        HolderSnoc(acts, Pass, u);
      }
    }
  }

  lemma BookDeliver(st: ScanState, acts: seq<Action>, c: int)
    requires Book(st, acts)
    ensures Book(Route(st, c, |acts|), acts + [Deliver(c)])
  {
    var n := |acts|;
    var a := acts + [Deliver(c)];
    var r := Route(st, c, n);
    forall c' ensures LastSelect(a, c') == LastSelect(acts, c') {
      LastSelectSnoc(acts, Deliver(c), c');
    }
    HolderOfLast(acts, c);
    assert LastSelect(acts, c) == (if c in st.active then Some(st.active[c]) else None);
    forall k: InsKey, u: nat ensures u in Lookup(r.dict, k) <==> HeldBy(a, u, k) {
      assert u in Lookup(st.dict, k) <==> HeldBy(acts, u, k);
      if u < n && acts[u].Deliver? {
        HolderSnoc(acts, Deliver(c), u);
      }
    }
    forall c': int, u: nat ensures u in Lookup(r.pending, c') <==> Waiting(a, u, c') {
      assert u in Lookup(st.pending, c') <==> Waiting(acts, u, c');
      if u < n && acts[u].Deliver? {
        HolderSnoc(acts, Deliver(c), u);
      }
    }
  }

  /** Selecting a key already in the dictionary only makes it active. */
  lemma BookSelectKnown(st: ScanState, acts: seq<Action>, k0: InsKey)
    requires Book(st, acts) && k0 in st.dict
    ensures Book(SetInstrument(st, k0), acts + [Select(k0)])
  {
    var a := acts + [Select(k0)];
    var r := SetInstrument(st, k0);
    assert Select(k0) in acts;
    forall c ensures LastSelect(a, c) == (if c in r.active then Some(r.active[c]) else None) {
      LastSelectSnoc(acts, Select(k0), c);
    }
    forall k: InsKey, u: nat ensures u in Lookup(r.dict, k) <==> HeldBy(a, u, k) {
      assert u in Lookup(st.dict, k) <==> HeldBy(acts, u, k);
      if u < |acts| && acts[u].Deliver? {
        HolderSnoc(acts, Select(k0), u);
      }
    }
    forall c: int, u: nat ensures u in Lookup(r.pending, c) <==> Waiting(a, u, c) {
      assert u in Lookup(st.pending, c) <==> Waiting(acts, u, c);
      if u < |acts| && acts[u].Deliver? {
        HolderSnoc(acts, Select(k0), u);
      }
    }
  }

  /** Selecting a new key hands it the channel's pending events, which had no Holder
      and now have it. */
  lemma BookSelectNew(st: ScanState, acts: seq<Action>, k0: InsKey)
    requires Book(st, acts) && k0 !in st.dict
    ensures Book(SetInstrument(st, k0), acts + [Select(k0)])
  {
    var a := acts + [Select(k0)];
    var r := SetInstrument(st, k0);
    var c0 := k0.channel;
    assert Select(k0) !in acts;
    forall c ensures LastSelect(a, c) == (if c in r.active then Some(r.active[c]) else None) {
      LastSelectSnoc(acts, Select(k0), c);
    }
    forall k: InsKey, u: nat ensures u in Lookup(r.dict, k) <==> HeldBy(a, u, k) {
      if u < |acts| && acts[u].Deliver? {
        HolderSnoc(acts, Select(k0), u);
      }
      if k == k0 {
        assert u in Lookup(st.pending, c0) <==> Waiting(acts, u, c0);
      } else {
        assert u in Lookup(st.dict, k) <==> HeldBy(acts, u, k);
      }
    }
    forall c: int, u: nat ensures u in Lookup(r.pending, c) <==> Waiting(a, u, c) {
      if u < |acts| && acts[u].Deliver? {
        HolderSnoc(acts, Select(k0), u);
      }
      if c != c0 {
        assert u in Lookup(st.pending, c) <==> Waiting(acts, u, c);
      }
    }
  }

  lemma BookStep(st: ScanState, acts: seq<Action>, x: Action)
    requires Book(st, acts)
    ensures Book(Perform(st, |acts|, x), acts + [x])
  {
    match x
    case Pass => BookPass(st, acts);
    case Deliver(c) => BookDeliver(st, acts, c);
    case Select(k) =>
      if k in st.dict { BookSelectKnown(st, acts, k); } else { BookSelectNew(st, acts, k); }
  }

  // ---------------- the scan carries out the actions ----------------

  /** The parts of the scan state the instrument book consists of. */
  ghost predicate SameResolver(a: ScanState, b: ScanState) {
    a.dict == b.dict && a.order == b.order && a.pending == b.pending && a.active == b.active
  }

  predicate Tagged(a: Action, e: RawEvent) {
    (a.Deliver? <==> Routed(e)) && (a.Deliver? ==> a.channel == e.channel)
  }

  /** Position `p` of the scanned events carries action `p`. */
  ghost predicate TagsMatch(s: seq<MidiEvent>, acts: seq<Action>) {
    |s| == |acts| && forall p :: 0 <= p < |s| ==> Tagged(acts[p], s[p].event)
  }

  /** The book depends on the dictionary, its order, the pending buffers and the active map only. */
  lemma BookSame(st: ScanState, st': ScanState, acts: seq<Action>)
    requires Book(st, acts) && SameResolver(st, st')
    ensures Book(st', acts)
  {
  }

  /** The scan state `st` has carried out `acts`: its book is theirs and its events carry them. */
  ghost predicate Follows(st: ScanState, acts: seq<Action>) {
    Book(st, acts) && TagsMatch(st.sequence, acts)
  }

  /** On the book, one step of the switch carries out ActionOf and moves the latches by BankStep. */
  lemma ApplyPerforms(st: ScanState, st': ScanState, bank: Bank, u: nat, e: RawEvent)
    requires SameResolver(st, st')
    ensures SameResolver(Apply(st, bank, u, e).0, Perform(st', u, ActionOf(bank, e)))
    ensures Apply(st, bank, u, e).1 == BankStep(bank, e)
  {
    if Routed(e) {
      ApplyPerformsRouted(st, st', bank, u, e);
    } else if e.SysEx? {
      ApplyPerformsSysEx(st, st', bank, u, e);
    } else if e.Channel? {
      ApplyPerformsChannel(st, st', bank, u, e);
    }
  }

  lemma ApplyPerformsRouted(st: ScanState, st': ScanState, bank: Bank, u: nat, e: RawEvent)
    requires SameResolver(st, st') && Routed(e)
    ensures SameResolver(Apply(st, bank, u, e).0, Perform(st', u, ActionOf(bank, e)))
    ensures Apply(st, bank, u, e).1 == BankStep(bank, e)
  {
    ApplyRouted(st, bank, u, e);
    assert ActionOf(bank, e) == Deliver(e.channel);
  }

  lemma ApplyPerformsSysEx(st: ScanState, st': ScanState, bank: Bank, u: nat, e: RawEvent)
    requires SameResolver(st, st') && e.SysEx?
    ensures SameResolver(Apply(st, bank, u, e).0, Perform(st', u, ActionOf(bank, e)))
    ensures Apply(st, bank, u, e).1 == BankStep(bank, e)
  {
  }

  lemma ApplyPerformsChannel(st: ScanState, st': ScanState, bank: Bank, u: nat, e: RawEvent)
    requires SameResolver(st, st') && e.Channel? && !Routed(e)
    ensures SameResolver(Apply(st, bank, u, e).0, Perform(st', u, ActionOf(bank, e)))
    ensures Apply(st, bank, u, e).1 == BankStep(bank, e)
  {
  }

  /** One scan step carries out ActionOf on the book and moves the latches by BankStep. */
  lemma ScanEventFollows(st: ScanState, ti: nat, bank: Bank, lastTicks: int, e: RawEvent, acts: seq<Action>)
    requires Follows(st, acts)
    ensures Follows(ScanEvent(st, ti, bank, lastTicks, e).0, acts + [ActionOf(bank, e)])
    ensures ScanEvent(st, ti, bank, lastTicks, e).1 == BankStep(bank, e)
  {
    var x := ActionOf(bank, e);
    var ev := NewEvent(st, ti, lastTicks, e);
    var r := ScanEvent(st, ti, bank, lastTicks, e);
    ApplyPerforms(Push(st, ev), st, bank, |st.sequence|, e);
    BookStep(st, acts, x);
    BookSame(Perform(st, |acts|, x), r.0, acts + [x]);
    ScanEventAppends(st, ti, bank, lastTicks, e);
    assert r.0.sequence == st.sequence + [ev];
    forall p | 0 <= p < |r.0.sequence| ensures Tagged((acts + [x])[p], r.0.sequence[p].event) {
      if p < |st.sequence| {
        assert Tagged(acts[p], st.sequence[p].event);
      }
    }
  }

  lemma {:induction false} ScanTrackFollows(st: ScanState, ti: nat, bank: Bank, lastTicks: int, track: seq<RawEvent>, acts: seq<Action>)
    requires Follows(st, acts)
    ensures Follows(ScanTrackFrom(st, ti, bank, lastTicks, track), acts + ActionsFrom(bank, track))
    decreases |track|
  {
    if track == [] {
      assert acts + [] == acts;
    } else {
      var x := ActionOf(bank, track[0]);
      var (st1, bank1) := ScanEvent(st, ti, bank, lastTicks, track[0]);
      ScanEventFollows(st, ti, bank, lastTicks, track[0], acts);
      ScanTrackFollows(st1, ti, bank1, lastTicks + track[0].deltaTime, track[1..], acts + [x]);
      assert ScanTrackFrom(st, ti, bank, lastTicks, track) == ScanTrackFrom(st1, ti, bank1, lastTicks + track[0].deltaTime, track[1..]);
      ActionsFromCons(acts, bank, track);
    }
  }

  lemma ActionsFromCons(acts: seq<Action>, bank: Bank, track: seq<RawEvent>)
    requires track != []
    ensures acts + [ActionOf(bank, track[0])] + ActionsFrom(BankStep(bank, track[0]), track[1..]) == acts + ActionsFrom(bank, track)
  {
  }

  lemma {:induction false} ScanTracksFollows(st: ScanState, tracks: seq<seq<RawEvent>>, t0: nat, acts: seq<Action>)
    requires t0 <= |tracks| && Follows(st, acts)
    ensures Follows(ScanTracksFrom(st, tracks, t0), acts + TracksActions(tracks[t0..]))
    decreases |tracks| - t0
  {
    if t0 == |tracks| {
      assert tracks[t0..] == [];
      assert acts + [] == acts;
    } else {
      var a1 := ActionsFrom(Bank(0, 0), tracks[t0]);
      ScanTrackFollows(st, t0, Bank(0, 0), 0, tracks[t0], acts);
      ScanTracksFollows(ScanTrackFrom(st, t0, Bank(0, 0), 0, tracks[t0]), tracks, t0 + 1, acts + a1);
      TracksActionsCons(acts, tracks, t0);
    }
  }

  lemma TracksActionsCons(acts: seq<Action>, tracks: seq<seq<RawEvent>>, t0: nat)
    requires t0 < |tracks|
    ensures acts + ActionsFrom(Bank(0, 0), tracks[t0]) + TracksActions(tracks[t0 + 1..]) == acts + TracksActions(tracks[t0..])
  {
    assert tracks[t0..][1..] == tracks[t0 + 1..];
  }

  /** After the scan of a whole file, the book is that of the file's actions, and
      scanned event `u` carries action `u`. */
  lemma ScanFollows(f: MidiFile)
    ensures Follows(ScanTracksFrom(EmptyState, f.tracks, 0), Actions(f))
  {
    BookEmpty();
    ScanTracksFollows(EmptyState, f.tracks, 0, []);
    assert f.tracks[0..] == f.tracks;
    assert [] + Actions(f) == Actions(f);
  }

  // ---------------- the sheet's instruments and events ----------------

  /** A bank-select controller, or an XG part frame with sub-op 1 or 2. */
  predicate IsBankSelect(e: RawEvent) {
    (e.Channel? && e.channelKind == Controller && (e.controllerType == MSB_BANK || e.controllerType == LSB_BANK)) ||
    (e.SysEx? && ResetOf(e.data).None? && IsXgPart(e.data) && (e.data[5] == 1 || e.data[5] == 2))
  }

  /** A bank select only moves the latches: the scan state, hence the dictionary,
      its order, the pending buffers and the active instruments, stays as it was. */
  lemma BankSelectLatches(st: ScanState, bank: Bank, u: nat, e: RawEvent)
    requires IsBankSelect(e)
    ensures Apply(st, bank, u, e) == (st, BankStep(bank, e))
    ensures ActionOf(bank, e) == Pass
  {
  }

  /** The dictionary key an instrument was made for. */
  function KeyOf(ins: Instrument): InsKey {
    InsKey(ins.channel, ins.bankMsb, ins.bankLsb, ins.program)
  }

  /** Instrument `i` of the sheet is the `i`th key of the final dictionary order. */
  lemma ParseInstrumentKeys(f: MidiFile)
    ensures var st := ScanTracksFrom(EmptyState, f.tracks, 0); var ins := Parse(f).instruments;
      |ins| == |st.order| &&
      forall i :: 0 <= i < |ins| ==> KeyOf(ins[i]) == st.order[i] && ins[i].events == Lookup(st.dict, st.order[i])
  {
  }

  /** The sheet has one instrument per selected key and no other. */
  lemma InstrumentsAreSelections(f: MidiFile)
    ensures var ins := Parse(f).instruments;
      forall i :: 0 <= i < |ins| ==> Select(KeyOf(ins[i])) in Actions(f)
    ensures var ins := Parse(f).instruments;
      forall k :: Select(k) in Actions(f) ==> exists i :: 0 <= i < |ins| && KeyOf(ins[i]) == k
  {
    var st := ScanTracksFrom(EmptyState, f.tracks, 0);
    ScanFollows(f);
    ScannedValid(f);
    var ins := Parse(f).instruments;
    ParseInstrumentKeys(f);
    forall k | Select(k) in Actions(f) ensures exists i :: 0 <= i < |ins| && KeyOf(ins[i]) == k {
      assert k in st.order;
      var i :| 0 <= i < |st.order| && st.order[i] == k;
      assert KeyOf(ins[i]) == k;
    }
  }

  /** The key event `j` of track `ti` selects has an instrument on the sheet. */
  lemma SelectedInstrument(f: MidiFile, ti: nat, j: nat)
    requires ti < |f.tracks| && j < |f.tracks[ti]|
    requires ActionOf(BankAt(f.tracks[ti], j), f.tracks[ti][j]).Select?
    ensures var ins := Parse(f).instruments;
      exists i :: 0 <= i < |ins| && KeyOf(ins[i]) == ActionOf(BankAt(f.tracks[ti], j), f.tracks[ti][j]).key
  {
    TracksActionsAt(f.tracks, ti, j);
    var a := ActionOf(BankAt(f.tracks[ti], j), f.tracks[ti][j]);
    assert a == Actions(f)[|Flatten(f.tracks[..ti])| + j];
    assert Select(a.key) in Actions(f);
    InstrumentsAreSelections(f);
  }

  /** A program change gives the sheet the instrument keyed by its channel, the
      track's latches when it is read, and its program. */
  lemma ProgramChangeInstrument(f: MidiFile, ti: nat, j: nat)
    requires ti < |f.tracks| && j < |f.tracks[ti]|
    requires f.tracks[ti][j].Channel? && f.tracks[ti][j].channelKind == ProgramChange
    ensures var e := f.tracks[ti][j]; var b := BankAt(f.tracks[ti], j); var ins := Parse(f).instruments;
      exists i :: 0 <= i < |ins| && KeyOf(ins[i]) == InsKey(e.channel, b.msb, b.lsb, e.value)
  {
    SelectedInstrument(f, ti, j);
  }

  /** An XG part frame with sub-op 3 gives the sheet the instrument keyed by the
      frame's part, the track's latches when it is read, and the frame's program. */
  lemma XgProgramInstrument(f: MidiFile, ti: nat, j: nat)
    requires ti < |f.tracks| && j < |f.tracks[ti]|
    requires f.tracks[ti][j].SysEx? && ResetOf(f.tracks[ti][j].data).None? && IsXgPart(f.tracks[ti][j].data)
    requires f.tracks[ti][j].data[5] == 3
    ensures var e := f.tracks[ti][j]; var b := BankAt(f.tracks[ti], j); var ins := Parse(f).instruments;
      exists i :: 0 <= i < |ins| && KeyOf(ins[i]) == InsKey(e.data[4], b.msb, b.lsb, e.data[6])
  {
    SelectedInstrument(f, ti, j);
  }

  /** The routed event scanned at `u` is delivered on its channel, and the instruments
      listing it are exactly the one that is its Holder: the last selected on its
      channel before it, else the first selected after it; none when there is neither. */
  lemma RoutedEventHolder(f: MidiFile, u: nat)
    requires u < |Scanned(f)| && Routed(Scanned(f)[u].event)
    ensures u < |Actions(f)| && Actions(f)[u] == Deliver(Scanned(f)[u].event.channel)
    ensures var ins := Parse(f).instruments;
      forall i :: 0 <= i < |ins| ==> (u in ins[i].events <==> Holder(Actions(f), u) == Some(KeyOf(ins[i])))
  {
    var st := ScanTracksFrom(EmptyState, f.tracks, 0);
    ScanFollows(f);
    assert Tagged(Actions(f)[u], st.sequence[u].event);
    var ins := Parse(f).instruments;
    ParseInstrumentKeys(f);
    forall i | 0 <= i < |ins| ensures u in ins[i].events <==> Holder(Actions(f), u) == Some(KeyOf(ins[i])) {
      assert u in Lookup(st.dict, st.order[i]) <==> HeldBy(Actions(f), u, st.order[i]);
    }
  }

  /** On the sheet, a routed event's `instrument` is the number of its Holder's
      instrument, and none exactly when it has no Holder. */
  lemma InstrumentOfEvent(f: MidiFile, p: nat)
    requires p < |Parse(f).sequence| && Routed(Parse(f).sequence[p].event)
    ensures var ev := Parse(f).sequence[p];
      ev.uid < |Actions(f)| && Actions(f)[ev.uid] == Deliver(ev.event.channel)
    ensures var ev := Parse(f).sequence[p]; var ins := Parse(f).instruments;
      forall i :: 0 <= i < |ins| ==> (ev.instrument == Some(i) <==> Holder(Actions(f), ev.uid) == Some(KeyOf(ins[i])))
    ensures var ev := Parse(f).sequence[p];
      ev.instrument.None? <==> Holder(Actions(f), ev.uid).None?
  {
    var st := ScanTracksFrom(EmptyState, f.tracks, 0);
    var ev := Parse(f).sequence[p];
    var ins := Parse(f).instruments;
    ParseSequence(f);
    assert ev.(index := None, instrument := None) == Scanned(f)[ev.uid];
    assert ev.event == Scanned(f)[ev.uid].event;
    RoutedEventHolder(f, ev.uid);
    ScannedValid(f);
    FinishBackFill(st, f.ticksPerBeat);
    assert ev.instrument == LastHolder(ins, ev.uid);
    var h := Holder(Actions(f), ev.uid);
    if h.Some? {
      InstrumentsAreSelections(f);
      var i :| 0 <= i < |ins| && KeyOf(ins[i]) == h.value;
      assert ev.instrument == Some(i);
    }
  }
}

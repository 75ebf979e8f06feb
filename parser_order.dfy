/** What midiParser promises about the order and timing of `sequence` and about
    the document-level fields, proved of the functions in ParserSpec. */
module ParserOrder {
  import opened MidiTypes
  import opened SysExMatch
  import opened StableSort
  import opened ParserSpec

  /** The tracks' events in decode order: track 0 first, each in file order. */
  function Flatten(tracks: seq<seq<RawEvent>>): (r: seq<RawEvent>)
  {
    if tracks == [] then [] else tracks[0] + Flatten(tracks[1..])
  }

  /** The sum of the delta-times of `es`. */
  function DeltaSum(es: seq<RawEvent>): int {
    if es == [] then 0 else es[0].deltaTime + DeltaSum(es[1..])
  }

  /** The events of the sheet before sorting: one per decoded event, in decode order. */
  function Scanned(f: MidiFile): seq<MidiEvent> {
    ScanTracksFrom(EmptyState, f.tracks, 0).sequence
  }

  ghost predicate MadeFrom(ev: MidiEvent, uid: nat, ti: nat, ticks: int, e: RawEvent) {
    ev.uid == uid && ev.index.None? && ev.track == ti && ev.instrument.None? && ev.ticks == ticks && ev.event == e
  }

  /** Applying an event never touches `sequence`. */
  lemma ApplyKeepsSequence(st: ScanState, bank: Bank, u: nat, e: RawEvent)
    ensures Apply(st, bank, u, e).0.sequence == st.sequence
  {
  }

  /** Every step pushes exactly one event: the decoded one, at tick `lastTicks + deltaTime`. */
  lemma ScanEventPushes(st: ScanState, ti: nat, bank: Bank, lastTicks: int, e: RawEvent)
    ensures var r := ScanEvent(st, ti, bank, lastTicks, e).0;
      |r.sequence| == |st.sequence| + 1 && r.sequence[..|st.sequence|] == st.sequence &&
      MadeFrom(r.sequence[|st.sequence|], |st.sequence|, ti, lastTicks + e.deltaTime, e)
  {
    var ev := NewEvent(st, ti, lastTicks, e);
    ApplyKeepsSequence(Push(st, ev), bank, |st.sequence|, e);
    assert (st.sequence + [ev])[..|st.sequence|] == st.sequence;
  }

  lemma DeltaSumStep(track: seq<RawEvent>, j: nat)
    requires 0 < j < |track|
    ensures DeltaSum(track[..j + 1]) == track[0].deltaTime + DeltaSum(track[1..][..j])
  {
    assert track[..j + 1][1..] == track[1..][..j];
  }

  /** The events a track's scan pushes, the first with uid `n`. */
  function Pushed(n: nat, ti: nat, lastTicks: int, track: seq<RawEvent>): seq<MidiEvent>
    decreases |track|
  {
    if track == [] then []
    else
      var e := track[0];
      [MidiEvent(n, None, ti, None, SwitchOf(e), lastTicks + e.deltaTime, e)] + Pushed(n + 1, ti, lastTicks + e.deltaTime, track[1..])
  }

  lemma ScanEventAppends(st: ScanState, ti: nat, bank: Bank, lastTicks: int, e: RawEvent)
    ensures ScanEvent(st, ti, bank, lastTicks, e).0.sequence == st.sequence + [NewEvent(st, ti, lastTicks, e)]
  {
    ApplyKeepsSequence(Push(st, NewEvent(st, ti, lastTicks, e)), bank, |st.sequence|, e);
  }

  /** Scanning a track appends exactly the events Pushed lists. */
  lemma {:induction false} ScanTrackPushed(st: ScanState, ti: nat, bank: Bank, lastTicks: int, track: seq<RawEvent>)
    ensures ScanTrackFrom(st, ti, bank, lastTicks, track).sequence == st.sequence + Pushed(|st.sequence|, ti, lastTicks, track)
    decreases |track|
  {
    if track != [] {
      var (st1, bank1) := ScanEvent(st, ti, bank, lastTicks, track[0]);
      ScanEventAppends(st, ti, bank, lastTicks, track[0]);
      ScanTrackPushed(st1, ti, bank1, lastTicks + track[0].deltaTime, track[1..]);
      assert ScanTrackFrom(st, ti, bank, lastTicks, track) == ScanTrackFrom(st1, ti, bank1, lastTicks + track[0].deltaTime, track[1..]);
    }
  }

  /** Event `j` of Pushed is made from `track[j]`, at `lastTicks` plus the delta-times of events `0..j`. */
  lemma {:induction false} PushedShape(n: nat, ti: nat, lastTicks: int, track: seq<RawEvent>)
    ensures |Pushed(n, ti, lastTicks, track)| == |track|
    ensures forall j :: 0 <= j < |track| ==>
      MadeFrom(Pushed(n, ti, lastTicks, track)[j], n + j, ti, lastTicks + DeltaSum(track[..j + 1]), track[j])
    decreases |track|
  {
    if track != [] {
      var e := track[0];
      var p := Pushed(n, ti, lastTicks, track);
      var p' := Pushed(n + 1, ti, lastTicks + e.deltaTime, track[1..]);
      PushedShape(n + 1, ti, lastTicks + e.deltaTime, track[1..]);
      forall j | 0 <= j < |track|
        ensures MadeFrom(p[j], n + j, ti, lastTicks + DeltaSum(track[..j + 1]), track[j])
      {
        if j == 0 {
          assert track[..1][1..] == [];
        } else {
          DeltaSumStep(track, j);
          assert p[j] == p'[j - 1];
        }
      }
    }
  }

  /** The per-event facts about a sequence that extends `s0` by Pushed. */
  lemma AppendedShape(s0: seq<MidiEvent>, r: seq<MidiEvent>, ti: nat, lastTicks: int, track: seq<RawEvent>)
    requires r == s0 + Pushed(|s0|, ti, lastTicks, track)
    ensures |r| == |s0| + |track| && r[..|s0|] == s0 &&
      forall j :: 0 <= j < |track| ==>
        MadeFrom(r[|s0| + j], |s0| + j, ti, lastTicks + DeltaSum(track[..j + 1]), track[j])
  {
    var p := Pushed(|s0|, ti, lastTicks, track);
    PushedShape(|s0|, ti, lastTicks, track);
    assert r[..|s0|] == s0;
    forall j | 0 <= j < |track|
      ensures MadeFrom(r[|s0| + j], |s0| + j, ti, lastTicks + DeltaSum(track[..j + 1]), track[j])
    {
      assert r[|s0| + j] == p[j];
    }
  }

  /** Scanning a track appends its events in order; event `j` sits at tick
      `lastTicks` plus the delta-times of events `0..j`. */
  lemma ScanTrackShape(st: ScanState, ti: nat, bank: Bank, lastTicks: int, track: seq<RawEvent>)
    ensures var r := ScanTrackFrom(st, ti, bank, lastTicks, track);
      |r.sequence| == |st.sequence| + |track| && r.sequence[..|st.sequence|] == st.sequence &&
      forall j :: 0 <= j < |track| ==>
        MadeFrom(r.sequence[|st.sequence| + j], |st.sequence| + j, ti, lastTicks + DeltaSum(track[..j + 1]), track[j])
  {
    ScanTrackPushed(st, ti, bank, lastTicks, track);
    AppendedShape(st.sequence, ScanTrackFrom(st, ti, bank, lastTicks, track).sequence, ti, lastTicks, track);
  }

  lemma FlattenStep(tracks: seq<seq<RawEvent>>, t0: nat, ti: nat)
    requires t0 < ti <= |tracks|
    ensures Flatten(tracks[t0..ti]) == tracks[t0] + Flatten(tracks[t0 + 1..ti])
  {
    assert tracks[t0..ti][1..] == tracks[t0 + 1..ti];
  }

  /** The number of events in tracks `t0..ti`. */
  function Offset(tracks: seq<seq<RawEvent>>, t0: nat, ti: nat): nat
    requires t0 <= ti <= |tracks|
  {
    |Flatten(tracks[t0..ti])|
  }

  /** The tick of event `j` of a track: the sum of the delta-times up to and including it. */
  function TickAt(track: seq<RawEvent>, j: nat): int
    requires j < |track|
  {
    DeltaSum(track[..j + 1])
  }

  /** Event `j` of track `ti` sits in `r` after `base` events and the events of tracks `t0..ti`. */
  ghost predicate LaidAt(base: nat, r: seq<MidiEvent>, tracks: seq<seq<RawEvent>>, t0: nat, ti: nat, j: nat)
    requires t0 <= ti < |tracks| && j < |tracks[ti]|
  {
    var p := base + Offset(tracks, t0, ti) + j;
    p < |r| && MadeFrom(r[p], p, ti, TickAt(tracks[ti], j), tracks[ti][j])
  }

  /** Every event of tracks `t0..` is laid out in `r` after `base` events. */
  ghost predicate TracksLaid(base: nat, r: seq<MidiEvent>, tracks: seq<seq<RawEvent>>, t0: nat) {
    forall ti: nat, j: nat :: t0 <= ti < |tracks| && j < |tracks[ti]| ==> LaidAt(base, r, tracks, t0, ti, j)
  }

  /** Laying out track `t0` and then tracks `t0 + 1..` lays out tracks `t0..`. */
  lemma TracksLaidStep(s0: seq<MidiEvent>, s1: seq<MidiEvent>, r: seq<MidiEvent>, tracks: seq<seq<RawEvent>>, t0: nat)
    requires t0 < |tracks|
    requires |s1| == |s0| + |tracks[t0]| && s1[..|s0|] == s0
    requires forall j :: 0 <= j < |tracks[t0]| ==>
      MadeFrom(s1[|s0| + j], |s0| + j, t0, 0 + DeltaSum(tracks[t0][..j + 1]), tracks[t0][j])
    requires |r| >= |s1| && r[..|s1|] == s1
    requires TracksLaid(|s1|, r, tracks, t0 + 1)
    ensures r[..|s0|] == s0
    ensures TracksLaid(|s0|, r, tracks, t0)
  {
    assert r[..|s0|] == r[..|s1|][..|s0|];
    forall ti: nat, j: nat | t0 <= ti < |tracks| && j < |tracks[ti]| ensures LaidAt(|s0|, r, tracks, t0, ti, j) {
      TracksLaidStepAt(s0, s1, r, tracks, t0, ti, j);
    }
  }

  lemma TracksLaidStepAt(s0: seq<MidiEvent>, s1: seq<MidiEvent>, r: seq<MidiEvent>, tracks: seq<seq<RawEvent>>,
                         t0: nat, ti: nat, j: nat)
    requires t0 <= ti < |tracks| && j < |tracks[ti]|
    requires |s1| == |s0| + |tracks[t0]| && s1[..|s0|] == s0
    requires forall j :: 0 <= j < |tracks[t0]| ==>
      MadeFrom(s1[|s0| + j], |s0| + j, t0, 0 + DeltaSum(tracks[t0][..j + 1]), tracks[t0][j])
    requires |r| >= |s1| && r[..|s1|] == s1
    requires TracksLaid(|s1|, r, tracks, t0 + 1)
    ensures LaidAt(|s0|, r, tracks, t0, ti, j)
  {
    if ti == t0 {
      assert tracks[t0..ti] == [];
      assert r[|s0| + j] == r[..|s1|][|s0| + j];
    } else {
      FlattenStep(tracks, t0, ti);
      assert LaidAt(|s1|, r, tracks, t0 + 1, ti, j);
      assert |s0| + Offset(tracks, t0, ti) + j == |s1| + Offset(tracks, t0 + 1, ti) + j;
    }
  }

  /** Scanning the tracks appends all their events: event `j` of track `ti` lands
      after the events of the earlier tracks, stamped with track `ti` and the running
      sum of its own track's delta-times. */
  lemma {:induction false} ScanTracksShape(st: ScanState, tracks: seq<seq<RawEvent>>, t0: nat)
    requires t0 <= |tracks|
    ensures var r := ScanTracksFrom(st, tracks, t0);
      |r.sequence| == |st.sequence| + |Flatten(tracks[t0..])| && r.sequence[..|st.sequence|] == st.sequence &&
      TracksLaid(|st.sequence|, r.sequence, tracks, t0)
    decreases |tracks| - t0
  {
    if t0 < |tracks| {
      var st1 := ScanTrackFrom(st, t0, Bank(0, 0), 0, tracks[t0]);
      ScanTrackShape(st, t0, Bank(0, 0), 0, tracks[t0]);
      ScanTracksShape(st1, tracks, t0 + 1);
      var r := ScanTracksFrom(st1, tracks, t0 + 1);
      assert ScanTracksFrom(st, tracks, t0) == r;
      FlattenStep(tracks, t0, |tracks|);
      assert tracks[t0..|tracks|] == tracks[t0..];
      assert tracks[t0 + 1..|tracks|] == tracks[t0 + 1..];
      TracksLaidStep(st.sequence, st1.sequence, r.sequence, tracks, t0);
    } else {
      assert tracks[t0..] == [];
    }
  }

  /** The per-event facts for a whole file: event `j` of track `ti` is scanned at
      position |Flatten(tracks[..ti])| + j, which is also its uid. */
  lemma ScannedEvents(f: MidiFile, ti: nat, j: nat)
    requires ti < |f.tracks| && j < |f.tracks[ti]|
    ensures var p := |Flatten(f.tracks[..ti])| + j;
      p < |Scanned(f)| && MadeFrom(Scanned(f)[p], p, ti, DeltaSum(f.tracks[ti][..j + 1]), f.tracks[ti][j])
  {
    ScanTracksShape(EmptyState, f.tracks, 0);
    assert LaidAt(0, Scanned(f), f.tracks, 0, ti, j);
    assert f.tracks[0..ti] == f.tracks[..ti];
  }

  /** With the decoder's non-negative delta-times, ticks never decrease within a track. */
  lemma {:induction false} DeltaSumMonotone(track: seq<RawEvent>, i: nat, j: nat)
    requires i <= j <= |track|
    requires forall k :: 0 <= k < |track| ==> track[k].deltaTime >= 0
    ensures DeltaSum(track[..i]) <= DeltaSum(track[..j])
    decreases j
  {
    if i < j {
      DeltaSumMonotone(track, i, j - 1);
      DeltaSumSnoc(track[..j - 1], track[j - 1]);
      assert track[..j - 1] + [track[j - 1]] == track[..j];
    }
  }

  lemma {:induction false} DeltaSumSnoc(es: seq<RawEvent>, e: RawEvent)
    ensures DeltaSum(es + [e]) == DeltaSum(es) + e.deltaTime
  {
    if es != [] {
      assert (es + [e])[1..] == es[1..] + [e];
      DeltaSumSnoc(es[1..], e);
    }
  }

  lemma TrackTicksNonDecreasing(f: MidiFile, ti: nat, i: nat, j: nat)
    requires ti < |f.tracks| && i <= j < |f.tracks[ti]|
    requires forall k :: 0 <= k < |f.tracks[ti]| ==> f.tracks[ti][k].deltaTime >= 0
    ensures |Flatten(f.tracks[..ti])| + j < |Scanned(f)|
    ensures Scanned(f)[|Flatten(f.tracks[..ti])| + i].ticks <= Scanned(f)[|Flatten(f.tracks[..ti])| + j].ticks
  {
    ScannedEvents(f, ti, i);
    ScannedEvents(f, ti, j);
    DeltaSumMonotone(f.tracks[ti], i + 1, j + 1);
  }

  // ---------------- document-level fields ----------------

  /** The first non-zero tempo in `es`, or 0. */
  function FirstTempoOf(es: seq<RawEvent>): int {
    if es == [] then 0
    else if IsSetTempo(es[0]) && es[0].microsecondsPerBeat != 0 then es[0].microsecondsPerBeat
    else FirstTempoOf(es[1..])
  }

  /** The first non-empty track name in `es`. */
  function FirstTrackNameOf(es: seq<RawEvent>): Option<string> {
    if es == [] then None
    else if es[0].Meta? && es[0].metaKind == TrackName && es[0].text != "" then Some(es[0].text)
    else FirstTrackNameOf(es[1..])
  }

  /** The payload of the first sequencer-specific event in `es`. */
  function FirstSequencerSpecificOf(es: seq<RawEvent>): Option<seq<int>> {
    if es == [] then None
    else if es[0].Meta? && es[0].metaKind == SequencerSpecific then Some(es[0].data)
    else FirstSequencerSpecificOf(es[1..])
  }

  /** The reset kind of the last sysEx in `es` that matches a reset signature. */
  function LastResetOf(es: seq<RawEvent>): Option<ResetKind> {
    if es == [] then None
    else
      var later := LastResetOf(es[1..]);
      if later.Some? then later else if es[0].SysEx? then ResetOf(es[0].data) else None
  }

  ghost predicate MetaAfter(st: ScanState, r: ScanState, es: seq<RawEvent>) {
    r.firstTempo == (if st.firstTempo != 0 then st.firstTempo else FirstTempoOf(es)) &&
    r.trackName == (if st.trackName.Some? then st.trackName else FirstTrackNameOf(es)) &&
    r.sequencerSpecific == (if st.sequencerSpecific.Some? then st.sequencerSpecific else FirstSequencerSpecificOf(es)) &&
    r.reset == (if LastResetOf(es).Some? then LastResetOf(es) else st.reset)
  }

  lemma ScanEventMeta(st: ScanState, ti: nat, bank: Bank, lastTicks: int, e: RawEvent)
    ensures MetaAfter(st, ScanEvent(st, ti, bank, lastTicks, e).0, [e])
  {
    ApplyMeta(Push(st, NewEvent(st, ti, lastTicks, e)), bank, |st.sequence|, e);
  }

  lemma ApplyMeta(st: ScanState, bank: Bank, u: nat, e: RawEvent)
    ensures MetaAfter(st, Apply(st, bank, u, e).0, [e])
  {
    assert [e][1..] == [];
    if e.Meta? {
      ApplyMetaEvent(st, bank, u, e);
    } else if e.SysEx? {
      ApplySysExMeta(st, bank, u, e);
    } else {
      ApplyChannelMeta(st, bank, u, e);
    }
  }

  lemma ApplyMetaEvent(st: ScanState, bank: Bank, u: nat, e: RawEvent)
    requires e.Meta?
    ensures MetaAfter(st, Apply(st, bank, u, e).0, [e])
  {
    assert [e][1..] == [];
  }

  lemma ApplySysExMeta(st: ScanState, bank: Bank, u: nat, e: RawEvent)
    requires e.SysEx?
    ensures MetaAfter(st, Apply(st, bank, u, e).0, [e])
  {
    assert [e][1..] == [];
  }

  lemma ApplyChannelMeta(st: ScanState, bank: Bank, u: nat, e: RawEvent)
    requires !e.Meta? && !e.SysEx?
    ensures MetaAfter(st, Apply(st, bank, u, e).0, [e])
  {
    assert [e][1..] == [];
  }

  lemma {:induction false} MetaAfterChain(st: ScanState, mid: ScanState, r: ScanState, a: seq<RawEvent>, b: seq<RawEvent>)
    requires MetaAfter(st, mid, a) && MetaAfter(mid, r, b)
    ensures MetaAfter(st, r, a + b)
  {
    FirstOfConcat(a, b);
  }

  lemma {:induction false} FirstOfConcat(a: seq<RawEvent>, b: seq<RawEvent>)
    ensures FirstTempoOf(a + b) == if FirstTempoOf(a) != 0 then FirstTempoOf(a) else FirstTempoOf(b)
    ensures FirstTrackNameOf(a + b) == if FirstTrackNameOf(a).Some? then FirstTrackNameOf(a) else FirstTrackNameOf(b)
    ensures FirstSequencerSpecificOf(a + b) == if FirstSequencerSpecificOf(a).Some? then FirstSequencerSpecificOf(a) else FirstSequencerSpecificOf(b)
    ensures LastResetOf(a + b) == if LastResetOf(b).Some? then LastResetOf(b) else LastResetOf(a)
  {
    if a != [] {
      assert (a + b)[1..] == a[1..] + b;
      FirstOfConcat(a[1..], b);
    } else {
      assert a + b == b;
    }
  }

  lemma {:induction false} ScanTrackMeta(st: ScanState, ti: nat, bank: Bank, lastTicks: int, track: seq<RawEvent>)
    ensures MetaAfter(st, ScanTrackFrom(st, ti, bank, lastTicks, track), track)
    decreases |track|
  {
    if track == [] {
    } else {
      var (st1, bank1) := ScanEvent(st, ti, bank, lastTicks, track[0]);
      ScanEventMeta(st, ti, bank, lastTicks, track[0]);
      ScanTrackMeta(st1, ti, bank1, lastTicks + track[0].deltaTime, track[1..]);
      MetaAfterChain(st, st1, ScanTrackFrom(st, ti, bank, lastTicks, track), [track[0]], track[1..]);
      assert [track[0]] + track[1..] == track;
    }
  }

  lemma {:induction false} ScanTracksMeta(st: ScanState, tracks: seq<seq<RawEvent>>, t0: nat)
    requires t0 <= |tracks|
    ensures MetaAfter(st, ScanTracksFrom(st, tracks, t0), Flatten(tracks[t0..]))
    decreases |tracks| - t0
  {
    if t0 == |tracks| {
      assert tracks[t0..] == [];
    } else {
      var st1 := ScanTrackFrom(st, t0, Bank(0, 0), 0, tracks[t0]);
      ScanTrackMeta(st, t0, Bank(0, 0), 0, tracks[t0]);
      ScanTracksMeta(st1, tracks, t0 + 1);
      assert tracks[t0..][1..] == tracks[t0 + 1..];
      MetaAfterChain(st, st1, ScanTracksFrom(st, tracks, t0), tracks[t0], Flatten(tracks[t0 + 1..]));
    }
  }

  /** `firstTempo`, `trackName` and `sequencerSpecific` come from the first truthy
      event of their kind in decode order (later ones never overwrite); `reset`
      from the last sysEx in decode order that matches a reset signature. */
  lemma ParseMetadata(f: MidiFile)
    ensures Parse(f).firstTempo == FirstTempoOf(Flatten(f.tracks))
    ensures Parse(f).trackName == FirstTrackNameOf(Flatten(f.tracks))
    ensures Parse(f).sequencerSpecific == FirstSequencerSpecificOf(Flatten(f.tracks))
    ensures Parse(f).reset == LastResetOf(Flatten(f.tracks))
    ensures Parse(f).ticksPerBeat == f.ticksPerBeat
  {
    ScanTracksMeta(EmptyState, f.tracks, 0);
    assert f.tracks[0..] == f.tracks;
  }

  // ---------------- the stable sort ----------------

  /** Ticks first, decode order among equal ticks. */
  predicate KeyLt(a: MidiEvent, b: MidiEvent) {
    a.ticks < b.ticks || (a.ticks == b.ticks && a.uid < b.uid)
  }

  ghost predicate KeySorted(s: seq<MidiEvent>) {
    forall i, j :: 0 <= i < j < |s| ==> KeyLt(s[i], s[j])
  }

  lemma {:induction false} InsertKeySorted(x: MidiEvent, s: seq<MidiEvent>)
    requires KeySorted(s) && forall y :: y in s ==> x.uid < y.uid
    ensures KeySorted(Insert(x, s, TicksLe))
  {
    if s != [] && !TicksLe(x, s[0]) {
      var t := s[1..];
      InsertKeySorted(x, t);
      InsertPerm(x, t, TicksLe);
      var r := Insert(x, t, TicksLe);
      forall j | 0 <= j < |r| ensures KeyLt(s[0], r[j]) {
        assert r[j] in multiset(r);
        if r[j] != x {
          assert r[j] in multiset(t);
          var k :| 0 <= k < |t| && t[k] == r[j];
          assert s[k + 1] == r[j];
        }
      }
    }
  }

  /** The sort keeps decode order among equal ticks: sorting events whose uids
      increase yields ticks ascending, uids ascending within a tick. */
  lemma {:induction false} SortKeySorted(s: seq<MidiEvent>)
    requires forall i, j :: 0 <= i < j < |s| ==> s[i].uid < s[j].uid
    ensures KeySorted(SortWith(s, TicksLe))
  {
    if s != [] {
      SortKeySorted(s[1..]);
      SortPerm(s[1..], TicksLe);
      forall y | y in SortWith(s[1..], TicksLe) ensures s[0].uid < y.uid {
        assert y in multiset(SortWith(s[1..], TicksLe));
        var k :| 0 <= k < |s[1..]| && s[1..][k] == y;
        assert s[k + 1] == y;
      }
      InsertKeySorted(s[0], SortWith(s[1..], TicksLe));
    }
  }

  /** Events as the scan leaves them: position `p` holds the event with uid `p`,
      not yet indexed nor attached to an instrument. */
  ghost predicate Fresh(s: seq<MidiEvent>) {
    forall p :: 0 <= p < |s| ==> s[p].uid == p && s[p].index.None? && s[p].instrument.None?
  }

  lemma ScanEventFresh(st: ScanState, ti: nat, bank: Bank, lastTicks: int, e: RawEvent)
    requires Fresh(st.sequence)
    ensures Fresh(ScanEvent(st, ti, bank, lastTicks, e).0.sequence)
  {
    var r := ScanEvent(st, ti, bank, lastTicks, e).0;
    ScanEventPushes(st, ti, bank, lastTicks, e);
    forall p | 0 <= p < |st.sequence| ensures r.sequence[p] == st.sequence[p] {
      assert r.sequence[p] == r.sequence[..|st.sequence|][p];
    }
  }

  lemma {:induction false} ScanTrackFresh(st: ScanState, ti: nat, bank: Bank, lastTicks: int, track: seq<RawEvent>)
    requires Fresh(st.sequence)
    ensures Fresh(ScanTrackFrom(st, ti, bank, lastTicks, track).sequence)
    decreases |track|
  {
    if track != [] {
      var (st1, bank1) := ScanEvent(st, ti, bank, lastTicks, track[0]);
      ScanEventFresh(st, ti, bank, lastTicks, track[0]);
      ScanTrackFresh(st1, ti, bank1, lastTicks + track[0].deltaTime, track[1..]);
    }
  }

  lemma {:induction false} ScanTracksFresh(st: ScanState, tracks: seq<seq<RawEvent>>, t0: nat)
    requires t0 <= |tracks| && Fresh(st.sequence)
    ensures Fresh(ScanTracksFrom(st, tracks, t0).sequence)
    decreases |tracks| - t0
  {
    if t0 < |tracks| {
      ScanTrackFresh(st, t0, Bank(0, 0), 0, tracks[t0]);
      ScanTracksFresh(ScanTrackFrom(st, t0, Bank(0, 0), 0, tracks[t0]), tracks, t0 + 1);
    }
  }

  lemma ScannedFresh(f: MidiFile)
    ensures Fresh(Scanned(f))
  {
    ScanTracksFresh(EmptyState, f.tracks, 0);
  }

  /** Sorting the scanned events: a permutation in which each position holds the
      scanned event named by its uid, ordered by ticks and then by uid. */
  lemma SortScanned(sc: seq<MidiEvent>)
    requires Fresh(sc)
    ensures var sorted := SortWith(sc, TicksLe);
      (forall p :: 0 <= p < |sorted| ==> sorted[p].uid < |sc| && sorted[p] == sc[sorted[p].uid]) &&
      (forall u :: 0 <= u < |sc| ==> exists p :: 0 <= p < |sorted| && sorted[p] == sc[u]) &&
      (forall i, j :: 0 <= i < j < |sorted| ==> KeyLt(sorted[i], sorted[j]) && sorted[i].uid != sorted[j].uid)
  {
    var sorted := SortWith(sc, TicksLe);
    SortPerm(sc, TicksLe);
    SortKeySorted(sc);
    forall p | 0 <= p < |sorted| ensures sorted[p].uid < |sc| && sorted[p] == sc[sorted[p].uid] {
      assert sorted[p] in multiset(sc);
      var q :| 0 <= q < |sc| && sc[q] == sorted[p];
    }
    forall u | 0 <= u < |sc| ensures exists p :: 0 <= p < |sorted| && sorted[p] == sc[u] {
      assert sc[u] in multiset(sorted);
    }
    forall i, j | 0 <= i < j < |sorted| ensures sorted[i].uid != sorted[j].uid {
      assert KeyLt(sorted[i], sorted[j]);
    }
  }

  /** The final sort and indexing: each scanned event exactly once (plus its index
      and instrument), sorted by ticks with scan order kept among equal ticks, and
      `index` equal to the position. */
  lemma FinishSequence(st: ScanState, ticksPerBeat: int)
    requires Fresh(st.sequence)
    ensures var out := Finish(st, ticksPerBeat).sequence;
      |out| == |st.sequence| &&
      (forall p :: 0 <= p < |out| ==> out[p].index == Some(p)) &&
      (forall p :: 0 <= p < |out| ==>
        out[p].uid < |st.sequence| && out[p].(index := None, instrument := None) == st.sequence[out[p].uid]) &&
      (forall u :: 0 <= u < |st.sequence| ==>
        exists p :: 0 <= p < |out| && out[p].(index := None, instrument := None) == st.sequence[u]) &&
      (forall i, j :: 0 <= i < j < |out| ==> KeyLt(out[i], out[j]) && out[i].uid != out[j].uid)
  {
    var sc := st.sequence;
    var out := Finish(st, ticksPerBeat).sequence;
    var sorted := SortWith(sc, TicksLe);
    SortScanned(sc);
    assert |out| == |sorted|;
    forall p | 0 <= p < |out|
      ensures out[p].(index := None, instrument := None) == sorted[p] && out[p].uid == sorted[p].uid &&
              out[p].ticks == sorted[p].ticks && out[p].index == Some(p)
    {
    }
    forall u | 0 <= u < |sc|
      ensures exists p :: 0 <= p < |out| && out[p].(index := None, instrument := None) == sc[u]
    {
      var p :| 0 <= p < |sorted| && sorted[p] == sc[u];
      assert out[p].(index := None, instrument := None) == sc[u];
    }
  }

  /** The sheet's `sequence`, for a whole file: every decoded event once, sorted by
      ticks, decode order kept among equal ticks, `index` equal to the position. */
  lemma ParseSequence(f: MidiFile)
    ensures var out := Parse(f).sequence;
      |out| == |Scanned(f)| &&
      (forall p :: 0 <= p < |out| ==> out[p].index == Some(p)) &&
      (forall p :: 0 <= p < |out| ==>
        out[p].uid < |Scanned(f)| && out[p].(index := None, instrument := None) == Scanned(f)[out[p].uid]) &&
      (forall u :: 0 <= u < |Scanned(f)| ==>
        exists p :: 0 <= p < |out| && out[p].(index := None, instrument := None) == Scanned(f)[u]) &&
      (forall i, j :: 0 <= i < j < |out| ==> KeyLt(out[i], out[j]) && out[i].uid != out[j].uid)
  {
    ScannedFresh(f);
    FinishSequence(ScanTracksFrom(EmptyState, f.tracks, 0), f.ticksPerBeat);
  }
}

/** The format-0 export of MidiParser.ts (`toFormat0`): which sheet events go to the
    single track, the end-of-track event appended last, and the rewrite of `ticks`
    and `deltaTime` on the exported events. The byte encoding of the chunks is
    not part of this model: the export is stated as the header fields plus the
    event list handed to the encoder. */
module Format0 {
  import opened MidiTypes
  import ParserOrder

  /** The header chunk's three fields and the track's events, in order. */
  datatype Format0File = Format0File(format: int, trackCount: int, division: int, events: seq<RawEvent>)

  /** An event the filter remembers as a candidate end of track. The filter tests the
      `setInstrument` flag first, so a flagged event never reaches this test. */
  predicate IsEnd(v: MidiEvent) {
    !v.switch.setInstrument && v.switch.meta == Some(EndOfTrack)
  }

  /** The filter callback's verdict: flagged events follow the option, ends of track
      are dropped, tempo changes, channel events and system-exclusive events stay. */
  predicate Keep(v: MidiEvent, setInstrument: bool) {
    if v.switch.setInstrument then setInstrument
    else if v.switch.meta == Some(EndOfTrack) then false
    else v.switch.meta == Some(SetTempo) || v.switch.channel.Some? || v.switch.sysEx.Some?
  }

  /** The events the filter keeps, in sequence order. */
  function Kept(s: seq<MidiEvent>, setInstrument: bool): seq<MidiEvent> {
    if s == [] then []
    else Kept(s[..|s| - 1], setInstrument) + (if Keep(s[|s| - 1], setInstrument) then [s[|s| - 1]] else [])
  }

  /** The end of track the filter remembers: a later one replaces it only when its
      ticks are strictly greater. `None` is the source's `undefined`. */
  function LatestEnd(s: seq<MidiEvent>): Option<MidiEvent> {
    if s == [] then None
    else
      var prev := LatestEnd(s[..|s| - 1]);
      var v := s[|s| - 1];
      if IsEnd(v) && (prev.None? || v.ticks > prev.value.ticks) then Some(v) else prev
  }

  /** The filter pass: one loop that keeps events and tracks the end of track. */
  method FilterSequence(sequence: seq<MidiEvent>, setInstrument: bool)
    returns (filted: seq<MidiEvent>, endOfTrack: Option<MidiEvent>)
    ensures filted == Kept(sequence, setInstrument)
    ensures endOfTrack == LatestEnd(sequence)
  {
    filted := [];
    endOfTrack := None;
    for i := 0 to |sequence|
      invariant filted == Kept(sequence[..i], setInstrument)
      invariant endOfTrack == LatestEnd(sequence[..i])
    {
      assert sequence[..i + 1][..i] == sequence[..i];
      var v := sequence[i];
      if v.switch.setInstrument {
        if setInstrument {
          filted := filted + [v];
        }
      } else if v.switch.meta == Some(EndOfTrack) {
        if endOfTrack.None? || v.ticks > endOfTrack.value.ticks {
          endOfTrack := Some(v);
        }
      } else if v.switch.meta == Some(SetTempo) || v.switch.channel.Some? || v.switch.sysEx.Some? {
        filted := filted + [v];
      }
    }
    assert sequence[..|sequence|] == sequence;
  }

  /** Event `i` after the rewrite. The first event's ticks and delta time become 0.
      Every later event's delta time is its ticks minus the previous event's ticks as
      they stand when it is rewritten: for event 1 that is the already zeroed 0.
      Nothing else on the event changes. */
  function RewriteAt(a: seq<MidiEvent>, i: nat): (r: MidiEvent)
    requires i < |a|
    ensures r.(ticks := a[i].ticks, event := a[i].event) == a[i]
    ensures r.event.(deltaTime := a[i].event.deltaTime) == a[i].event
    ensures r.ticks == if i == 0 then 0 else a[i].ticks
  {
    if i == 0 then a[0].(ticks := 0, event := a[0].event.(deltaTime := 0))
    else a[i].(event := a[i].event.(deltaTime := a[i].ticks - (if i == 1 then 0 else a[i - 1].ticks)))
  }

  function Rewritten(a: seq<MidiEvent>): (r: seq<MidiEvent>)
    ensures |r| == |a|
  {
    seq(|a|, i requires 0 <= i < |a| => RewriteAt(a, i))
  }

  /** The decoded events behind a list of sheet events. */
  function Events(a: seq<MidiEvent>): (r: seq<RawEvent>)
    ensures |r| == |a| && forall i :: 0 <= i < |a| ==> r[i] == a[i].event
  {
    seq(|a|, i requires 0 <= i < |a| => a[i].event)
  }

  /** The map pass: rewrites each event in turn, reading the previous event as it is
      after its own rewrite, and collects the decoded events. */
  method RewriteDeltas(a: seq<MidiEvent>) returns (evts: seq<RawEvent>, out: seq<MidiEvent>)
    ensures out == Rewritten(a)
    ensures evts == Events(Rewritten(a))
  {
    out := [];
    evts := [];
    for i := 0 to |a|
      invariant out == Rewritten(a)[..i]
      invariant evts == Events(Rewritten(a))[..i]
    {
      var v := a[i];
      if i == 0 {
        v := v.(ticks := 0, event := v.event.(deltaTime := 0));
      } else {
        v := v.(event := v.event.(deltaTime := v.ticks - out[i - 1].ticks));
      }
      assert v == Rewritten(a)[i];
      out := out + [v];
      evts := evts + [v.event];
    }
  }

  /** toFormat0's result: `None` when the sequence has no end of track, where the
      source appends `undefined` and the rewrite fails on reading its ticks. */
  function Format0Of(sheet: MidiSheet, setInstrument: bool): Option<Format0File> {
    match LatestEnd(sheet.sequence)
    case None => None
    case Some(end) =>
      Some(Format0File(0, 1, sheet.ticksPerBeat, Events(Rewritten(Kept(sheet.sequence, setInstrument) + [end]))))
  }

  method ToFormat0(sheet: MidiSheet, setInstrument: bool) returns (r: Option<Format0File>)
    ensures r == Format0Of(sheet, setInstrument)
  {
    var filted, endOfTrack := FilterSequence(sheet.sequence, setInstrument);
    if endOfTrack.None? {
      return None;
    }
    var evts, _ := RewriteDeltas(filted + [endOfTrack.value]);
    r := Some(Format0File(0, 1, sheet.ticksPerBeat, evts));
  }

  // ---------------------------------------------------------------------------
  // Properties

  /** An event is exported (before the end of track is appended) iff it is in the
      sequence and the filter keeps it; no end of track is among them. */
  lemma {:induction false} KeptMembers(s: seq<MidiEvent>, setInstrument: bool)
    ensures forall v :: v in Kept(s, setInstrument) <==> v in s && Keep(v, setInstrument)
    ensures forall v :: v in Kept(s, setInstrument) ==> !IsEnd(v)
  {
    if s != [] {
      KeptMembers(s[..|s| - 1], setInstrument);
      assert s == s[..|s| - 1] + [s[|s| - 1]];
    }
  }

  /** The kept events keep their sequence order: they are `s` with the dropped ones removed. */
  lemma {:induction false} KeptSubsequence(s: seq<MidiEvent>, setInstrument: bool)
    ensures |Kept(s, setInstrument)| <= |s|
    ensures s != [] && Keep(s[|s| - 1], setInstrument) ==>
      Kept(s, setInstrument)[|Kept(s, setInstrument)| - 1] == s[|s| - 1]
    ensures (forall v :: v in s ==> Keep(v, setInstrument)) ==> Kept(s, setInstrument) == s
  {
    if s != [] {
      KeptSubsequence(s[..|s| - 1], setInstrument);
      assert s == s[..|s| - 1] + [s[|s| - 1]];
    }
  }

  /** `s[i]` is an end of track with the greatest ticks among them, and no earlier one
      reaches those ticks. */
  predicate FirstMaxEnd(s: seq<MidiEvent>, i: nat)
    requires i < |s|
  {
    IsEnd(s[i]) &&
    (forall j :: 0 <= j < |s| && IsEnd(s[j]) ==> s[j].ticks <= s[i].ticks) &&
    (forall j :: 0 <= j < i && IsEnd(s[j]) ==> s[j].ticks < s[i].ticks)
  }

  /** The remembered end of track exists iff the sequence has one, and it is the
      first of those with the greatest ticks. */
  lemma {:induction false} LatestEndIsFirstMax(s: seq<MidiEvent>)
    ensures LatestEnd(s).Some? <==> exists i :: 0 <= i < |s| && IsEnd(s[i])
    ensures LatestEnd(s).Some? ==>
      exists i :: 0 <= i < |s| && s[i] == LatestEnd(s).value && FirstMaxEnd(s, i)
  {
    if s != [] {
      var p := s[..|s| - 1];
      LatestEndIsFirstMax(p);
      var v := s[|s| - 1];
      if IsEnd(v) && (LatestEnd(p).None? || v.ticks > LatestEnd(p).value.ticks) {
        var n := |s| - 1;
        assert s[n] == v;
        forall j | 0 <= j < |s| && IsEnd(s[j]) ensures s[j].ticks <= v.ticks {
          if j < n {
            assert s[j] == p[j];
          }
        }
        forall j | 0 <= j < n && IsEnd(s[j]) ensures s[j].ticks < v.ticks {
          assert s[j] == p[j];
        }
      } else if LatestEnd(p).Some? {
        var i :| 0 <= i < |p| && p[i] == LatestEnd(p).value && FirstMaxEnd(p, i);
        assert s[i] == p[i];
        forall j | 0 <= j < |s| && IsEnd(s[j]) ensures s[j].ticks <= s[i].ticks {
          if j < |p| {
            assert s[j] == p[j];
          }
        }
        forall j | 0 <= j < i && IsEnd(s[j]) ensures s[j].ticks < s[i].ticks {
          assert s[j] == p[j];
        }
      } else {
        assert !IsEnd(v);
      }
    }
  }

  /** Round trip: summing the exported delta times up to an event, as a decoder
      does, gives back that event's ticks; the first event lands on tick 0 and every
      other event keeps its absolute ticks. */
  lemma {:induction false} RewriteRoundTrip(a: seq<MidiEvent>, j: nat)
    requires j < |a|
    ensures ParserOrder.DeltaSum(Events(Rewritten(a))[..j + 1]) == if j == 0 then 0 else a[j].ticks
  {
    var es := Events(Rewritten(a));
    if j == 0 {
      assert es[..1] == [es[0]];
      assert es[..1][1..] == [];
    } else {
      RewriteRoundTrip(a, j - 1);
      assert es[..j + 1] == es[..j] + [es[j]];
      ParserOrder.DeltaSumSnoc(es[..j], es[j]);
    }
  }

  /** The export exists iff the sheet has an end of track; its header says format 0,
      one track and the sheet's ticks per beat; the track holds the kept events and
      then the remembered end of track, whose delta time closes the track at its ticks. */
  lemma Format0Shape(sheet: MidiSheet, setInstrument: bool)
    ensures Format0Of(sheet, setInstrument).Some? <==> exists i :: 0 <= i < |sheet.sequence| && IsEnd(sheet.sequence[i])
    ensures Format0Of(sheet, setInstrument).Some? ==>
      var f := Format0Of(sheet, setInstrument).value;
      var k := Kept(sheet.sequence, setInstrument);
      var end := LatestEnd(sheet.sequence).value;
      f.format == 0 && f.trackCount == 1 && f.division == sheet.ticksPerBeat &&
      |f.events| == |k| + 1 &&
      f.events[|k|].(deltaTime := end.event.deltaTime) == end.event &&
      ParserOrder.DeltaSum(f.events) == (if k == [] then 0 else end.ticks) &&
      IsEnd(end) && end in sheet.sequence
  {
    LatestEndIsFirstMax(sheet.sequence);
    if LatestEnd(sheet.sequence).Some? {
      var k := Kept(sheet.sequence, setInstrument);
      var end := LatestEnd(sheet.sequence).value;
      var a := k + [end];
      assert a[|k|] == end;
      RewriteRoundTrip(a, |k|);
      var es := Events(Rewritten(a));
      assert es[..|k| + 1] == es;
    }
  }
}

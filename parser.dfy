/** midiParser (src/test/lib/MidiParser.ts:90-290) in the form the source writes
    it: the sheet under construction and the parser's dictionaries are fields
    updated in place, event by event, then sorted, indexed and back-filled. Each
    method is proved to compute the matching function of ParserSpec. */
module Parser {
  import opened MidiTypes
  import opened SysExMatch
  import opened StableSort
  import opened ParserSpec
  import ParserOrder
  import ParserInstruments

  class SheetBuilder {
    // midiSheet's fields
    var sequence: seq<MidiEvent>
    var reset: Option<ResetKind>
    var trackName: Option<string>
    var firstTempo: int
    var sequencerSpecific: Option<seq<int>>
    // instrumentDict, with its keys in insertion order
    var instrumentDict: map<InsKey, seq<nat>>
    var dictOrder: seq<InsKey>
    // channelEvents and channelInstruments
    var channelEvents: map<int, seq<nat>>
    var channelInstruments: map<int, InsKey>

    ghost function State(): ScanState
      reads this
    {
      ScanState(sequence, reset, trackName, firstTempo, sequencerSpecific,
                instrumentDict, dictOrder, channelEvents, channelInstruments)
    }

    constructor ()
      ensures State() == EmptyState
    {
      sequence, reset, trackName, firstTempo, sequencerSpecific := [], None, None, 0, None;
      instrumentDict, dictOrder := map[], [];
      channelEvents, channelInstruments := map[], map[];
    }

    /** setInstrument */
    method SetInstrument(channel: int, msb: int, lsb: int, program: int)
      modifies this
      ensures State() == ParserSpec.SetInstrument(old(State()), InsKey(channel, msb, lsb, program))
    {
      var insKey := InsKey(channel, msb, lsb, program);
      if insKey !in instrumentDict {
        instrumentDict := instrumentDict[insKey := Lookup(channelEvents, channel)];
        dictOrder := dictOrder + [insKey];
        channelEvents := channelEvents - {channel};
      }
      channelInstruments := channelInstruments[channel := insKey];
    }

    /** The routing of a note, aftertouch, pitch-bend or controller event `u`. */
    method Route(channel: int, u: nat)
      modifies this
      ensures State() == ParserSpec.Route(old(State()), channel, u)
    {
      if channel in channelInstruments {
        var insKey := channelInstruments[channel];
        instrumentDict := instrumentDict[insKey := Lookup(instrumentDict, insKey) + [u]];
      } else {
        channelEvents := channelEvents[channel := Lookup(channelEvents, channel) + [u]];
      }
    }

    /** The reset tests of the sysEx case, in the source's order. */
    static method DetectReset(data: seq<int>) returns (r: Option<ResetKind>)
      ensures r == ResetOf(data)
    {
      var gm := ArrayCompare(Some(data), Some(GM_RESET));
      if gm { return Some(GM); }
      var gm2 := ArrayCompare(Some(data), Some(GM2_RESET));
      if gm2 { return Some(GM2); }
      var gs := ArrayCompare(Some(data), Some(GS_RESET));
      if gs { return Some(GS); }
      var xg := ArrayCompare(Some(data), Some(XG_RESET));
      if xg { return Some(XG); }
      return None;
    }

    /** One iteration of the inner loop: push the event, then act on it. `bank` is the
        track's bankMsb/bankLsb pair. */
    method ScanEvent(ti: nat, bank: Bank, lastTicks: int, e: RawEvent) returns (bank': Bank)
      modifies this
      ensures (State(), bank') == ParserSpec.ScanEvent(old(State()), ti, bank, lastTicks, e)
    {
      var u := |sequence|;
      sequence := sequence + [MidiEvent(u, None, ti, None, SwitchOf(e), lastTicks + e.deltaTime, e)];
      bank' := bank;
      match e {
        case Meta(_, kind, mpb, text, data) =>
          if kind == SetTempo && firstTempo == 0 && mpb != 0 {
            firstTempo := mpb;
          } else if kind == TrackName && trackName.None? && text != "" {
            trackName := Some(text);
          } else if kind == SequencerSpecific && sequencerSpecific.None? {
            sequencerSpecific := Some(data);
          }
        case SysEx(_, data) =>
          var r := DetectReset(data);
          if r.Some? {
            reset := r;
          } else if IsXgPart(data) {
            if data[5] == 1 {
              bank' := bank.(msb := data[6]);
            } else if data[5] == 2 {
              bank' := bank.(lsb := data[6]);
            } else if data[5] == 3 {
              SetInstrument(data[4], bank.msb, bank.lsb, data[6]);
            }
          }
        case DividedSysEx(_, _) =>
        case Channel(_, kind, c, value, ct, _) =>
          match kind {
            case ProgramChange =>
              SetInstrument(c, bank.msb, bank.lsb, value);
            case Controller =>
              if ct == MSB_BANK {
                bank' := Bank(value, 0);
              } else if ct == LSB_BANK {
                bank' := bank.(lsb := value);
              } else {
                Route(c, u);
              }
            case UnknownChannel =>
            case _ =>
              Route(c, u);
          }
      }
    }

    /** The inner loop over one track: bank select and running tick start at zero. */
    method ScanTrack(ti: nat, track: seq<RawEvent>)
      modifies this
      ensures State() == ScanTrackFrom(old(State()), ti, Bank(0, 0), 0, track)
    {
      var bank := Bank(0, 0);
      var lastTicks := 0;
      for i := 0 to |track|
        invariant ScanTrackFrom(State(), ti, bank, lastTicks, track[i..]) == ScanTrackFrom(old(State()), ti, Bank(0, 0), 0, track)
      {
        var e := track[i];
        ghost var st0, bank0 := State(), bank;
        bank := ScanEvent(ti, bank, lastTicks, e);
        TrackStep(st0, ti, bank0, lastTicks, track, i, State(), bank);
        if e.deltaTime != 0 {
          lastTicks := lastTicks + e.deltaTime;
        }
      }
    }

    /** The outer loop over the tracks, in file order. */
    method ScanTracks(tracks: seq<seq<RawEvent>>)
      modifies this
      ensures State() == ScanTracksFrom(old(State()), tracks, 0)
    {
      for ti := 0 to |tracks|
        invariant ScanTracksFrom(State(), tracks, ti) == ScanTracksFrom(old(State()), tracks, 0)
      {
        ghost var st0 := State();
        ScanTrack(ti, tracks[ti]);
        TracksStep(st0, tracks, ti, State());
      }
    }

    /** The stable sort by ticks and `index = i`; returns where each event (named by
        its uid) now sits. */
    method SortAndIndex() returns (pos: map<nat, nat>)
      requires ParserOrder.Fresh(sequence)
      modifies this
      ensures State() == old(State()).(sequence := sequence)
      ensures |sequence| == |old(sequence)|
      ensures forall q :: 0 <= q < |sequence| ==>
        sequence[q] == SortWith(old(sequence), TicksLe)[q].(index := Some(q))
      ensures forall u :: 0 <= u < |sequence| ==> u in pos && pos[u] < |sequence| && sequence[pos[u]].uid == u
      ensures forall q, q' :: 0 <= q < q' < |sequence| ==> sequence[q].uid != sequence[q'].uid
    {
      var s := IndexSorted(SortWith(sequence, TicksLe));
      pos := Positions(s);
      ParserOrder.SortScanned(sequence);
      forall u | 0 <= u < |s| ensures u in pos && pos[u] < |s| && s[pos[u]].uid == u {
        var q :| 0 <= q < |s| && SortWith(sequence, TicksLe)[q] == sequence[u];
        assert s[q].uid == u;
      }
      sequence := s;
    }

    /** The instruments in dictionary order, before their index is set. */
    method CollectInstruments() returns (instruments: seq<Instrument>)
      requires ParserInstruments.DictOk(State())
      ensures |instruments| == |dictOrder|
      ensures forall i :: 0 <= i < |instruments| ==>
        instruments[i] == Instruments(dictOrder, instrumentDict)[i].(index := None)
    {
      instruments := [];
      for i := 0 to |dictOrder|
        invariant |instruments| == i
        invariant forall j :: 0 <= j < i ==> instruments[j] == Instruments(dictOrder, instrumentDict)[j].(index := None)
      {
        var k := dictOrder[i];
        instruments := instruments + [Instrument(None, k.channel, k.msb, k.lsb, k.program, instrumentDict[k])];
      }
    }

    /** The code after the track loops: sort, index, collect the instruments and
        back-fill each event's instrument. */
    method Finish(ticksPerBeat: int) returns (sheet: MidiSheet)
      requires ParserInstruments.Valid(State())
      modifies this
      ensures sheet == ParserSpec.Finish(old(State()), ticksPerBeat)
    {
      ghost var st := State();
      ghost var sorted := SortWith(st.sequence, TicksLe);
      ghost var ref := Instruments(st.order, st.dict);
      var pos := SortAndIndex();
      var instruments := CollectInstruments();
      ParserInstruments.AllHeldRouted(st);
      forall i, u {:trigger u in ref[i].events} | 0 <= i < |ref| && u in ref[i].events ensures u < |sequence| {
        assert ref[i].events == Lookup(st.dict, st.order[i]);
      }
      ghost var indexedSeq := sequence;
      sequence, instruments := BackFill(sequence, instruments, pos, ref);
      sheet := MidiSheet(reset, trackName, ticksPerBeat, sequence, firstTempo, sequencerSpecific, instruments);
      assert sheet.instruments == ref;
      ParserOrder.SortScanned(st.sequence);
      forall q | 0 <= q < |sequence| ensures sequence[q] == sorted[q].(index := Some(q), instrument := LastHolder(ref, sorted[q].uid)) {
        assert sorted[q] == st.sequence[sorted[q].uid];
        assert indexedSeq[q] == sorted[q].(index := Some(q));
      }
    }
  }

  /** `sequence.forEach((v, i) => v.index = i)`. */
  method IndexSorted(sorted: seq<MidiEvent>) returns (s: seq<MidiEvent>)
    ensures |s| == |sorted|
    ensures forall q :: 0 <= q < |s| ==> s[q] == sorted[q].(index := Some(q))
  {
    s := sorted;
    for p := 0 to |s|
      invariant |s| == |sorted|
      invariant forall q :: 0 <= q < |s| ==> s[q] == if q < p then sorted[q].(index := Some(q)) else sorted[q]
    {
      s := s[p := s[p].(index := Some(p))];
    }
  }

  /** Where each event object sits: the position of each uid in `s`. */
  method Positions(s: seq<MidiEvent>) returns (pos: map<nat, nat>)
    ensures forall q :: 0 <= q < |s| ==> s[q].uid in pos
    ensures forall u :: u in pos ==> pos[u] < |s| && s[pos[u]].uid == u
  {
    pos := map[];
    for p := 0 to |s|
      invariant forall q :: 0 <= q < p ==> s[q].uid in pos
      invariant forall u :: u in pos ==> pos[u] < p && s[pos[u]].uid == u
    {
      pos := pos[s[p].uid := p];
    }
  }

  /** `v.events.forEach(e => e.instrument = i)`: the events listed in `evs`, found
      through `pos`, get instrument `i`; the others keep theirs. */
  method MarkEvents(s: seq<MidiEvent>, evs: seq<nat>, i: nat, pos: map<nat, nat>) returns (s': seq<MidiEvent>)
    requires forall u :: u in evs ==> u in pos && pos[u] < |s| && s[pos[u]].uid == u
    requires forall q, q' :: 0 <= q < q' < |s| ==> s[q].uid != s[q'].uid
    ensures |s'| == |s|
    ensures forall q :: 0 <= q < |s| ==>
      s'[q] == if s[q].uid in evs then s[q].(instrument := Some(i)) else s[q]
  {
    s' := s;
    for j := 0 to |evs|
      invariant |s'| == |s|
      invariant forall q :: 0 <= q < |s| ==>
        s'[q] == if s[q].uid in evs[..j] then s[q].(instrument := Some(i)) else s[q]
    {
      var p := pos[evs[j]];
      s' := s'[p := s'[p].(instrument := Some(i))];
      assert evs[..j + 1] == evs[..j] + [evs[j]];
    }
    assert evs[..|evs|] == evs;
  }

  /** `instruments.forEach((v, i) => { v.index = i; v.events.forEach(e => e.instrument = i) })`:
      every instrument gets its position as index, and every event listed by an
      instrument ends with the last such instrument's number. */
  method BackFill(s: seq<MidiEvent>, instruments: seq<Instrument>, pos: map<nat, nat>, ghost ref: seq<Instrument>)
    returns (s': seq<MidiEvent>, indexed: seq<Instrument>)
    requires |instruments| == |ref|
    requires forall i :: 0 <= i < |ref| ==> instruments[i] == ref[i].(index := None)
    requires forall i, u {:trigger u in ref[i].events} :: 0 <= i < |ref| && u in ref[i].events ==> u < |s|
    requires forall u :: 0 <= u < |s| ==> u in pos && pos[u] < |s| && s[pos[u]].uid == u
    requires forall q, q' :: 0 <= q < q' < |s| ==> s[q].uid != s[q'].uid
    ensures indexed == seq(|ref|, i requires 0 <= i < |ref| => ref[i].(index := Some(i)))
    ensures |s'| == |s|
    ensures forall q :: 0 <= q < |s| ==>
      s'[q] == s[q].(instrument := if LastHolder(ref, s[q].uid).Some? then LastHolder(ref, s[q].uid) else s[q].instrument)
  {
    s', indexed := s, instruments;
    for i := 0 to |indexed|
      invariant |indexed| == |ref| && |s'| == |s|
      invariant forall j :: 0 <= j < |ref| ==> indexed[j] == ref[j].(index := if j < i then Some(j) else None)
      invariant forall q :: 0 <= q < |s| ==>
        s'[q] == s[q].(instrument := if LastHolder(ref[..i], s[q].uid).Some? then LastHolder(ref[..i], s[q].uid) else s[q].instrument)
    {
      indexed := indexed[i := indexed[i].(index := Some(i))];
      assert indexed[i].events == ref[i].events;
      s' := MarkEvents(s', indexed[i].events, i, pos);
      assert ref[..i + 1][..i] == ref[..i];
    }
    assert ref[..|ref|] == ref;
  }

  /** Unfolds ScanTrackFrom by one event. */
  lemma TrackStep(st: ScanState, ti: nat, bank: Bank, lastTicks: int, track: seq<RawEvent>, i: nat,
                  st1: ScanState, bank1: Bank)
    requires i < |track| && (st1, bank1) == ParserSpec.ScanEvent(st, ti, bank, lastTicks, track[i])
    ensures ScanTrackFrom(st, ti, bank, lastTicks, track[i..]) ==
      ScanTrackFrom(st1, ti, bank1, lastTicks + track[i].deltaTime, track[i + 1..])
  {
    assert track[i..][1..] == track[i + 1..];
  }

  lemma TracksStep(st: ScanState, tracks: seq<seq<RawEvent>>, ti: nat, st1: ScanState)
    requires ti < |tracks| && st1 == ScanTrackFrom(st, ti, Bank(0, 0), 0, tracks[ti])
    ensures ScanTracksFrom(st, tracks, ti) == ScanTracksFrom(st1, tracks, ti + 1)
  {
  }

  /** midiParser on a decoded file: every track in order, then the final pass. */
  method MidiParser(f: MidiFile) returns (sheet: MidiSheet)
    ensures sheet == Parse(f)
  {
    var builder := new SheetBuilder();
    builder.ScanTracks(f.tracks);
    ParserInstruments.ScannedValid(f);
    sheet := builder.Finish(f.ticksPerBeat);
  }
}

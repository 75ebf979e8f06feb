/** The state machine of `midiParser` (src/test/lib/MidiParser.ts:90-290) as functions:
    one step per decoded event, one fold per track, one fold over the tracks, and the
    final sort, indexing and instrument back-fill. The class in parser.dfy is proved
    to compute exactly these. */
module ParserSpec {
  import opened MidiTypes
  import opened SysExMatch
  import opened StableSort

  /** MIDIControlEvents.MSB_BANK and MIDIControlEvents.LSB_BANK: bank-select
      controllers 0 and 32 of MIDI 1.0. */
  const MSB_BANK := 0
  const LSB_BANK := 32

  /** The instrument dictionary key `ins_${channel}_${msb}_${lsb}_${program}`. */
  datatype InsKey = InsKey(channel: int, msb: int, lsb: int, program: int)

  /** The per-track bank-select state `bankMsb`, `bankLsb`. */
  datatype Bank = Bank(msb: int, lsb: int)

  /** Everything the scan updates across tracks: the sheet under construction,
      `instrumentDict` (with its key insertion order), `channelEvents` (the pending
      buffers) and `channelInstruments` (the active instrument of each channel). */
  datatype ScanState = ScanState(
    sequence: seq<MidiEvent>,
    reset: Option<ResetKind>,
    trackName: Option<string>,
    firstTempo: int,
    sequencerSpecific: Option<seq<int>>,
    dict: map<InsKey, seq<nat>>,
    order: seq<InsKey>,
    pending: map<int, seq<nat>>,
    active: map<int, InsKey>)

  const EmptyState := ScanState([], None, None, 0, None, map[], [], map[], map[])

  /** `m[k] || []`. */
  function Lookup<K, V>(m: map<K, seq<V>>, k: K): seq<V> {
    if k in m then m[k] else []
  }

  /** setInstrument: create the instrument for `k` on first use, seeding it with the
      channel's pending buffer and dropping that buffer; make it the channel's active one. */
  function SetInstrument(st: ScanState, k: InsKey): ScanState {
    var c := k.channel;
    if k in st.dict then st.(active := st.active[c := k])
    else st.(dict := st.dict[k := Lookup(st.pending, c)], order := st.order + [k],
             pending := st.pending - {c}, active := st.active[c := k])
  }

  /** Append event `u` to the active instrument of channel `c`, or to its pending buffer. */
  function Route(st: ScanState, c: int, u: nat): ScanState {
    if c in st.active then
      var k := st.active[c];
      st.(dict := st.dict[k := Lookup(st.dict, k) + [u]])
    else
      st.(pending := st.pending[c := Lookup(st.pending, c) + [u]])
  }

  /** The events the channel switch routes: notes, aftertouch, pitch bend, and every
      controller other than bank select (the controller case falls through). */
  predicate Routed(e: RawEvent) {
    e.Channel? &&
    (e.channelKind in {NoteOff, NoteOn, NoteAftertouch, ChannelAftertouch, PitchBend} ||
     (e.channelKind == Controller && e.controllerType != MSB_BANK && e.controllerType != LSB_BANK))
  }

  /** The sheet event made for `e`, pushed at position |st.sequence|. */
  function NewEvent(st: ScanState, ti: nat, lastTicks: int, e: RawEvent): MidiEvent {
    MidiEvent(|st.sequence|, None, ti, None, SwitchOf(e), lastTicks + e.deltaTime, e)
  }

  function Push(st: ScanState, ev: MidiEvent): ScanState {
    st.(sequence := st.sequence + [ev])
  }

  /** The classification written into `switch`: the meta or channel subtype when the
      decoder knows it, the sysEx tag, and the set-instrument flag for program
      changes, bank selects and the XG part sub-ops 1, 2 and 3. */
  function SwitchOf(e: RawEvent): EventSwitch {
    match e
    case Meta(_, kind, _, _, _) =>
      if KnownMeta(kind) then NoSwitch.(meta := Some(kind)) else NoSwitch
    case SysEx(_, data) =>
      if ResetOf(data).Some? then NoSwitch.(sysEx := Some(SysExReset))
      else if IsXgPart(data) && (data[5] == 1 || data[5] == 2 || data[5] == 3) then
        NoSwitch.(sysEx := Some(SysExSetInstrument), setInstrument := true)
      else NoSwitch.(sysEx := Some(SysExPlain))
    case DividedSysEx(_, _) => NoSwitch.(sysEx := Some(SysExDivided))
    case Channel(_, kind, _, _, ct, _) =>
      if !KnownChannel(kind) then NoSwitch
      else NoSwitch.(channel := Some(kind),
                     setInstrument := kind == ProgramChange || (kind == Controller && (ct == MSB_BANK || ct == LSB_BANK)))
  }

  /** What event `u` does once pushed: only the first truthy tempo, track name and
      sequencer-specific payload are kept; a reset signature sets `reset`; the XG
      part frame's sub-ops 1, 2, 3 set bank MSB, bank LSB or the program; a program
      change selects an instrument; bank-select controllers update the bank (MSB
      clears LSB); every other known channel event is routed. */
  function Apply(st: ScanState, bank: Bank, u: nat, e: RawEvent): (ScanState, Bank) {
    match e
    case Meta(_, kind, mpb, text, data) =>
      if kind == SetTempo && st.firstTempo == 0 && mpb != 0 then (st.(firstTempo := mpb), bank)
      else if kind == TrackName && st.trackName.None? && text != "" then (st.(trackName := Some(text)), bank)
      else if kind == SequencerSpecific && st.sequencerSpecific.None? then (st.(sequencerSpecific := Some(data)), bank)
      else (st, bank)
    case SysEx(_, data) =>
      var r := ResetOf(data);
      if r.Some? then (st.(reset := r), bank)
      else if IsXgPart(data) then
        if data[5] == 1 then (st, bank.(msb := data[6]))
        else if data[5] == 2 then (st, bank.(lsb := data[6]))
        else if data[5] == 3 then (SetInstrument(st, InsKey(data[4], bank.msb, bank.lsb, data[6])), bank)
        else (st, bank)
      else (st, bank)
    case DividedSysEx(_, _) => (st, bank)
    case Channel(_, kind, c, value, ct, _) =>
      match kind
      case ProgramChange => (SetInstrument(st, InsKey(c, bank.msb, bank.lsb, value)), bank)
      case Controller =>
        if ct == MSB_BANK then (st, Bank(value, 0))
        else if ct == LSB_BANK then (st, bank.(lsb := value))
        else (Route(st, c, u), bank)
      case UnknownChannel => (st, bank)
      case _ => (Route(st, c, u), bank)
  }

  /** One iteration of the inner loop of midiParser: push the event, then apply it. */
  function ScanEvent(st: ScanState, ti: nat, bank: Bank, lastTicks: int, e: RawEvent): (ScanState, Bank) {
    Apply(Push(st, NewEvent(st, ti, lastTicks, e)), bank, |st.sequence|, e)
  }

  /** The rest of a track from bank state `bank` and running tick `lastTicks`. */
  function ScanTrackFrom(st: ScanState, ti: nat, bank: Bank, lastTicks: int, track: seq<RawEvent>): ScanState
    decreases |track|
  {
    if track == [] then st
    else
      var (st1, bank1) := ScanEvent(st, ti, bank, lastTicks, track[0]);
      ScanTrackFrom(st1, ti, bank1, lastTicks + track[0].deltaTime, track[1..])
  }

  /** Tracks `ti..`, each starting with bank 0/0 and tick 0. */
  function ScanTracksFrom(st: ScanState, tracks: seq<seq<RawEvent>>, ti: nat): ScanState
    requires ti <= |tracks|
    decreases |tracks| - ti
  {
    if ti == |tracks| then st
    else ScanTracksFrom(ScanTrackFrom(st, ti, Bank(0, 0), 0, tracks[ti]), tracks, ti + 1)
  }

  /** `midiSheet.instruments` after the index loop: dictionary order, `index == i`. */
  function Instruments(order: seq<InsKey>, dict: map<InsKey, seq<nat>>): (ins: seq<Instrument>)
    ensures |ins| == |order|
  {
    seq(|order|, i requires 0 <= i < |order| =>
      Instrument(Some(i), order[i].channel, order[i].msb, order[i].lsb, order[i].program, Lookup(dict, order[i])))
  }

  /** The instrument number the back-fill leaves on event `u`: the last instrument
      listing it, or none. */
  function LastHolder(ins: seq<Instrument>, u: nat): (r: Option<nat>)
    ensures r.Some? ==> r.value < |ins| && u in ins[r.value].events
    ensures r.None? ==> forall i :: 0 <= i < |ins| ==> u !in ins[i].events
  {
    if ins == [] then None
    else if u in ins[|ins| - 1].events then Some(|ins| - 1)
    else LastHolder(ins[..|ins| - 1], u)
  }

  /** The final sheet: stable sort by ticks, `index` by position, instruments in
      dictionary order, `instrument` back-filled. */
  function Finish(st: ScanState, ticksPerBeat: int): MidiSheet {
    var sorted := SortWith(st.sequence, TicksLe);
    var ins := Instruments(st.order, st.dict);
    var final := seq(|sorted|, p requires 0 <= p < |sorted| =>
      sorted[p].(index := Some(p), instrument := LastHolder(ins, sorted[p].uid)));
    MidiSheet(st.reset, st.trackName, ticksPerBeat, final, st.firstTempo, st.sequencerSpecific, ins)
  }

  /** midiParser on a decoded file. */
  function Parse(f: MidiFile): MidiSheet {
    Finish(ScanTracksFrom(EmptyState, f.tracks, 0), f.ticksPerBeat)
  }
}

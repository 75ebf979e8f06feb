/** The data model of src/test/lib/MidiParser.ts: the decoded events it reads,
    the sheet it builds, the instruments and the time groups it derives. */
module MidiTypes {

  datatype Option<T> = None | Some(value: T)

  /** A MIDI data byte (7 bits). */
  type DataByte = x: int | 0 <= x < 128

  /** Meta-event subtypes reported by the decoder; `UnknownMeta` is the decoder's
      "unknown" subtype, which has no entry in its subtype-code table. */
  datatype MetaKind =
    | SequenceNumber | Text | CopyrightNotice | TrackName | InstrumentName | Lyrics
    | Marker | CuePoint | MidiChannelPrefix | PortPrefix | EndOfTrack | SetTempo
    | SmpteOffset | TimeSignature | KeySignature | SequencerSpecific | UnknownMeta

  /** Channel-event subtypes reported by the decoder. */
  datatype ChannelKind =
    | NoteOff | NoteOn | NoteAftertouch | Controller | ProgramChange
    | ChannelAftertouch | PitchBend | UnknownChannel

  /** The decoder's subtype-code tables know every subtype except "unknown". */
  predicate KnownMeta(k: MetaKind) { !k.UnknownMeta? }
  predicate KnownChannel(k: ChannelKind) { !k.UnknownChannel? }

  /** A decoded event, with the fields the parser reads. */
  datatype RawEvent =
    | Meta(deltaTime: int, metaKind: MetaKind, microsecondsPerBeat: int, text: string, data: seq<int>)
    | SysEx(deltaTime: int, data: seq<int>)
    | DividedSysEx(deltaTime: int, data: seq<int>)
    | Channel(deltaTime: int, channelKind: ChannelKind, channel: int, value: int,
              controllerType: int, velocity: DataByte)

  /** The value stored in `switch.sysEx`: `true`, 'reset', 'setInstrument' or 'divided'. */
  datatype SysExTag = SysExPlain | SysExReset | SysExSetInstrument | SysExDivided

  /** The classification the parser attaches to each event. */
  datatype EventSwitch = EventSwitch(meta: Option<MetaKind>, channel: Option<ChannelKind>,
                                     sysEx: Option<SysExTag>, setInstrument: bool)

  const NoSwitch := EventSwitch(None, None, None, false)

  /** A sheet event. `uid` is the event's decode-order number; it stands for the
      identity of the event object, which the source shares between `sequence`,
      the pending channel buffers and the instruments' event lists. */
  datatype MidiEvent = MidiEvent(uid: nat, index: Option<nat>, track: nat, instrument: Option<nat>,
                                 switch: EventSwitch, ticks: int, event: RawEvent)

  datatype ResetKind = GM | GS | XG | GM2

  /** An instrument; `events` holds the uids of the events routed to it. */
  datatype Instrument = Instrument(index: Option<nat>, channel: int, bankMsb: int, bankLsb: int,
                                   program: int, events: seq<nat>)

  datatype MidiSheet = MidiSheet(reset: Option<ResetKind>, trackName: Option<string>, ticksPerBeat: int,
                                 sequence: seq<MidiEvent>, firstTempo: int,
                                 sequencerSpecific: Option<seq<int>>, instruments: seq<Instrument>)

  /** What the external decoder hands over: the header's ticks per beat and the tracks. */
  datatype MidiFile = MidiFile(ticksPerBeat: int, tracks: seq<seq<RawEvent>>)

  datatype MidiGroup = MidiGroup(ticks: int, deltaTicks: int, deltaMilliseconds: real, events: seq<MidiEvent>)

  predicate IsSetTempo(e: RawEvent) { e.Meta? && e.metaKind == SetTempo }

  /** The comparator `(a, b) => a.ticks - b.ticks`, as a "not after" relation. */
  predicate TicksLe(a: MidiEvent, b: MidiEvent) { a.ticks <= b.ticks }

  /** The events of `s` at tick `t`, in the order of `s`. */
  function EventsAt(s: seq<MidiEvent>, t: int): (r: seq<MidiEvent>)
    ensures |r| <= |s|
    ensures forall e :: e in r ==> e in s && e.ticks == t
  {
    if s == [] then [] else EventsAt(s[..|s| - 1], t) + (if s[|s| - 1].ticks == t then [s[|s| - 1]] else [])
  }

  /** Sorted by ticks, ascending. */
  predicate TicksSorted(s: seq<MidiEvent>) {
    forall i, j :: 0 <= i < j < |s| ==> s[i].ticks <= s[j].ticks
  }
}

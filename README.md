# MidiParser model

A Dafny model of the MIDI-sheet library `src/test/lib/MidiParser.ts` of js-synthesizer. Each part of the library has its own modules:

- **`midiParser`** turns a decoded MIDI file into a sheet:
  - a stably tick-sorted `sequence` of classified events;
  - the first tempo, the first track name and the sequencer-specific payload;
  - the reset kind;
  - one instrument per `(channel, bankMsb, bankLsb, program)` key, with the events routed to it.
- **`toMidiGroup`** buckets the sheet's events by tick, times the groups from the tempo in force, and optionally merges groups closer than a threshold.
- **`toFormat0`** filters the sequence into a single track. It rewrites delta times from absolute ticks and closes the track with the latest end-of-track event.
- **The velocity statistics:**
  - `getVelocityCounts` builds the note-on velocity histogram;
  - `getMeanVelocity` takes the trimmed mean of the per-group peaks;
  - `getDynamicRange` trims the histogram's samples;
  - `linearUp`, `linearDown` and `getVelocityMap` build the remap table from them.

Modules, one per file:

| module | file | models |
|---|---|---|
| `MidiTypes` | `midi_types.dfy` | the decoded events, the sheet, instruments and groups |
| `StableSort` | `stable_sort.dfy` | `Array.prototype.sort` as a stable insertion sort, proved a permutation, sorted, and the identity on sorted input |
| `SysExMatch` | `sysex_match.dfy` | `arrayCompare` and the reset signatures |
| `ParserSpec` | `parser_spec.dfy` | `midiParser` as functions over a scan state |
| `Parser` | `parser.dfy` | `midiParser` as a class (`SheetBuilder`) whose fields are the sheet and the resolver's maps; each method is proved to compute its `ParserSpec` function |
| `ParserOrder` | `parser_order.dfy` | properties of the sequence and the metadata |
| `ParserInstruments` | `parser_instruments.dfy` | the instrument resolver's invariant and the back-fill of `instrument` |
| `ParserResolve` | `parser_resolve.dfy` | which instrument each event gets, stated in decode order: the bank latches, the selections, and the instrument each routed event ends up with |
| `Grouping` | `grouping.dfy` | `toMidiGroup` |
| `Format0` | `format0.dfy` | `toFormat0` |
| `Velocity` | `velocity.dfy` | `getVelocityCounts`, `linearUp`, `linearDown` and the remap table |
| `Statistics` | `statistics.dfy` | `getMeanVelocity`, `getDynamicRange` and `getVelocityMap` |
| `StatisticsProps` | `statistics_props.dfy` | properties of the statistics, and the counterexamples behind the findings below |

JavaScript behaviour is modelled explicitly:

- `Math.round` is `(x + 0.5).Floor`.
- `sort()` without a comparator compares the decimal strings of numbers.
- `slice` clamps its bounds.
- `x || 1` replaces 0 and NaN by 1.
- `shift()` and `pop()` are modelled on the trimmed list.
- NaN and `undefined` results are `None`.

Event objects are shared between `sequence`, the pending channel buffers and the instruments' `events` lists. The model gives each event a `uid`, its decode-order number, and instruments list uids.

Five behaviours of the code worth knowing; the model follows the code:

- **Reset kind.** A later reset sysEx overwrites an earlier one, so the last one wins (`MidiParser.ts:197-208`).
- **Bank select.** A bank-select controller only latches `bankMsb`/`bankLsb` (`MidiParser.ts:243-253`); it does not resolve an instrument. Only a program change or XG sub-op 3 does.
- **Other controllers.** A controller other than bank select falls through into the note cases and is routed to the channel's instrument or pending buffer (`MidiParser.ts:242-265`).
- **First tempo of 0.** A first tempo of 0 gives a rate of 0 ms per tick, not a non-finite rate (`MidiParser.ts:333`).
- **Instrument event order.** An instrument's `events` are in routing order: decode order, track after track (`MidiParser.ts:260`). They are not in ticks order.

## Model

| member | source | states |
|---|---|---|
| StableSort.SortPerm | src/test/lib/MidiParser.ts:277 | the library sort only reorders: the result is a permutation of the input |
| StableSort.SortSorted | src/test/lib/MidiParser.ts:277 | with a total-preorder comparator the result is sorted by it |
| StableSort.SortOfSorted | src/test/lib/MidiParser.ts:322 | sorting an already sorted list changes nothing |
| SysExMatch.ArrayCompare | src/test/lib/MidiParser.ts:127-136 | arrayCompare answers true iff both arrays are present, `large` is at least as long, and every pattern slot is undefined or `===` the byte at its position |
| SysExMatch.MatchesIsPrefix | src/test/lib/MidiParser.ts:127-136 | a pattern of plain bytes matches exactly the payloads that start with those bytes |
| SysExMatch.ResetSignaturesDisjoint | src/test/lib/MidiParser.ts:197-208 | no payload carries two of the GM, GM2, GS and XG reset signatures, so the order of the tests does not matter |
| SysExMatch.ResetOfSignature | src/test/lib/MidiParser.ts:197-208 | a payload is classified as GM, GM2, GS or XG iff it carries that signature, and as no reset iff it carries none |
| SysExMatch.GsResetRecognised | src/test/lib/MidiParser.ts:203-205 | the Roland GS reset payload is recognised as GS |
| SysExMatch.NaNSlotNeverMatches | src/test/lib/MidiParser.ts:131-133 | as written, a pattern with a NaN slot never matches any payload |
| SysExMatch.NaNSlotCounterexample | src/test/lib/MidiParser.ts:131 | `[NaN]` fails against `[0x7E]` as written but matches under the documented wildcard reading |
| SysExMatch.WildcardNaNIsSkip | src/test/lib/MidiParser.ts:124-125 | under the wildcard reading a NaN slot and an undefined slot mean the same |
| SysExMatch.PlainPatternsAgree | src/test/lib/MidiParser.ts:197-206 | on patterns of plain bytes, such as the four reset signatures, the code as written and the wildcard reading answer alike |
| Parser.SheetBuilder.constructor | src/test/lib/MidiParser.ts:92-103 | the builder starts with an empty sequence, no metadata, tempo 0 and empty resolver maps |
| Parser.SheetBuilder.SetInstrument | src/test/lib/MidiParser.ts:104-123 | setInstrument creates the instrument for a new key, seeded with the channel's pending events, and drops that buffer; an existing key is only reactivated; either way the key becomes the channel's active instrument |
| Parser.SheetBuilder.Route | src/test/lib/MidiParser.ts:259-264 | a routed event goes to the channel's active instrument, or else to its pending buffer |
| Parser.SheetBuilder.DetectReset | src/test/lib/MidiParser.ts:197-208 | the four reset tests, in the source's order GM, GM2, GS, XG, classify the payload as `ResetOf` does; a payload matching none is no reset |
| Parser.SheetBuilder.ScanEvent | src/test/lib/MidiParser.ts:141-273 | one event is pushed at `lastTicks + deltaTime` with its switch classification, then metadata, reset, bank latches, setInstrument and routing are applied as the switch statement does |
| Parser.SheetBuilder.ScanTrack | src/test/lib/MidiParser.ts:138-275 | a track is scanned event by event from bank 0/0 and tick 0, with the running tick advanced by each delta time |
| Parser.SheetBuilder.ScanTracks | src/test/lib/MidiParser.ts:137-276 | the tracks are scanned in file order, and the resolver maps persist across tracks |
| Parser.SheetBuilder.SortAndIndex | src/test/lib/MidiParser.ts:277-278 | the sequence becomes its stable sort by ticks with `index` equal to the position; the returned map finds each event by uid |
| Parser.SheetBuilder.CollectInstruments | src/test/lib/MidiParser.ts:279-283 | the instruments are collected in dictionary insertion order |
| Parser.SheetBuilder.Finish | src/test/lib/MidiParser.ts:277-289 | the code after the track loops yields exactly `ParserSpec.Finish` of the scan state |
| Parser.IndexSorted | src/test/lib/MidiParser.ts:278 | every event's `index` becomes its position, and nothing else changes |
| Parser.Positions | src/test/lib/MidiParser.ts:286 | maps every uid of the sequence to the position holding it |
| Parser.MarkEvents | src/test/lib/MidiParser.ts:286 | the events an instrument lists get its number; the others keep theirs |
| Parser.BackFill | src/test/lib/MidiParser.ts:284-287 | instruments get `index = i`; each event's `instrument` ends as the last instrument listing it, or unchanged when none does |
| Parser.MidiParser | src/test/lib/MidiParser.ts:90-290 | the whole parse computes `ParserSpec.Parse` of the decoded file |
| ParserOrder.ScanEventPushes | src/test/lib/MidiParser.ts:141-149 | each step pushes exactly one event: the decoded one, with the next uid, its track, and tick `lastTicks + deltaTime` |
| ParserOrder.ScanTrackShape | src/test/lib/MidiParser.ts:138-275 | a track's scan appends its events in order; event `j` sits at the sum of the delta times of events `0..j` |
| ParserOrder.ScannedEvents | src/test/lib/MidiParser.ts:137-276 | event `j` of track `ti` is scanned at position (events of earlier tracks) + `j`, which is also its uid, at the sum of its own track's delta times |
| ParserOrder.TrackTicksNonDecreasing | src/test/lib/MidiParser.ts:140-275 | with non-negative delta times, ticks never decrease within a track |
| ParserOrder.ParseMetadata | src/test/lib/MidiParser.ts:150-225 | firstTempo is the first non-zero tempo, trackName the first non-empty name, sequencerSpecific the first payload, and reset the last matching reset sysEx, all in decode order |
| ParserOrder.SortKeySorted | src/test/lib/MidiParser.ts:277 | sorting events in decode order by ticks keeps decode order among equal ticks |
| ParserOrder.SortScanned | src/test/lib/MidiParser.ts:277 | the sorted scan is a permutation of the scanned events, ordered by ticks and then by decode order |
| ParserOrder.FinishSequence | src/test/lib/MidiParser.ts:277-278 | the final sequence holds every scanned event once, sorted stably by ticks, with `index` equal to its position |
| ParserOrder.ParseSequence | src/test/lib/MidiParser.ts:137-278 | for a whole file, the sheet's sequence holds every decoded event once, sorted stably by ticks, indexed by position |
| ParserInstruments.EmptyValid | src/test/lib/MidiParser.ts:92-103 | the resolver invariant holds at the start |
| ParserInstruments.SetInstrumentValid | src/test/lib/MidiParser.ts:104-123 | setInstrument keeps the resolver invariant: keys listed once, active instruments exist on their channel, and every routed event is held by exactly one instrument or pending buffer |
| ParserInstruments.PushRouteValid | src/test/lib/MidiParser.ts:259-264 | routing a pushed event keeps the invariant |
| ParserInstruments.ScanEventValid | src/test/lib/MidiParser.ts:141-273 | each scan step keeps the invariant |
| ParserInstruments.ScannedValid | src/test/lib/MidiParser.ts:137-276 | every state the scan reaches satisfies the invariant |
| ParserInstruments.HeldByOne | src/test/lib/MidiParser.ts:104-123 | no two instruments hold the same event |
| ParserInstruments.UnheldChannelBare | src/test/lib/MidiParser.ts:259-264 | a routed event that no instrument holds sits on a channel that never got an instrument |
| ParserInstruments.LastHolderIsHolder | src/test/lib/MidiParser.ts:284-287 | the back-fill gives an event the instrument that holds it |
| ParserInstruments.FinishInstrumentKeys | src/test/lib/MidiParser.ts:279-287 | instruments are indexed by position and have distinct keys; each holds only routed events of its own channel, each once |
| ParserInstruments.HolderIff | src/test/lib/MidiParser.ts:284-287 | the back-fill names instrument `i` iff instrument `i` holds the event |
| ParserInstruments.FinishBackFill | src/test/lib/MidiParser.ts:284-287 | an event's `instrument` is `i` iff instrument `i` lists it; a routed event without one is on a channel with no instrument |
| ParserInstruments.ParseInstruments | src/test/lib/MidiParser.ts:90-290 | for a whole file: distinct instrument keys, instruments holding only their own channel's routed events once each, and an exact back-fill |
| ParserResolve.BankAtNext | src/test/lib/MidiParser.ts:137-275 | every track starts with latches 0/0 and each event moves them by one `BankStep`: MSB_BANK sets the MSB and clears the LSB, LSB_BANK sets the LSB, XG part sub-ops 1 and 2 set one half, anything else leaves them |
| ParserResolve.BankSelectLatches | src/test/lib/MidiParser.ts:209-253 | a bank-select controller or an XG sub-op 1 or 2 changes only the latches: the dictionary, its order, the pending buffers and the active instruments stay as they were, and the event selects nothing and is routed nowhere |
| ParserResolve.ActionOf | src/test/lib/MidiParser.ts:238-264 | an event is delivered to an instrument or buffer iff it is routed, always on its own channel |
| ParserResolve.TracksActionsAt | src/test/lib/MidiParser.ts:137-276 | event `j` of track `ti` acts at decode position (events of earlier tracks) + `j`, read with the latches `BankAt(track, j)` |
| ParserResolve.BookStep | src/test/lib/MidiParser.ts:104-264 | setInstrument and routing keep the book: the dictionary keys are the selected keys, each channel's active instrument is its last selection, each instrument lists exactly the events it is the holder of, each pending buffer those without one |
| ParserResolve.ScanEventFollows | src/test/lib/MidiParser.ts:141-273 | one scan step carries out its event's action on the book and moves the latches by `BankStep` |
| ParserResolve.ScanFollows | src/test/lib/MidiParser.ts:137-276 | after the scan of a whole file the book is that of the file's actions, and scanned event `u` carries action `u` |
| ParserResolve.InstrumentsAreSelections | src/test/lib/MidiParser.ts:104-283 | the sheet has an instrument for every key some program change or XG sub-op 3 selects, and no other |
| ParserResolve.ProgramChangeInstrument | src/test/lib/MidiParser.ts:238-241 | a program change gives the sheet the instrument keyed by its channel, the track's latches when it is read, and its program |
| ParserResolve.XgProgramInstrument | src/test/lib/MidiParser.ts:209-219 | an XG part frame with sub-op 3 gives the sheet the instrument keyed by the frame's part, the track's latches when it is read, and the frame's program |
| ParserResolve.RoutedEventHolder | src/test/lib/MidiParser.ts:104-264 | a routed event is listed by exactly the instrument selected last on its channel before it in decode order, else by the first one selected on that channel after it, else by none |
| ParserResolve.InstrumentOfEvent | src/test/lib/MidiParser.ts:137-287 | on the sheet, a routed event's `instrument` is the number of that holder's instrument, and is unset exactly when it has no holder |
| Grouping.EventsAtEmptyIff | src/test/lib/MidiParser.ts:305-315 | a tick's bucket is empty iff no event sits at that tick |
| Grouping.KeysFacts | src/test/lib/MidiParser.ts:304-321 | the dictionary keys are distinct and are exactly the ticks of the sequence |
| Grouping.FillGroupDict | src/test/lib/MidiParser.ts:304-315 | groupDict maps each tick of the sequence, in first-seen order, to a group holding that tick's events in sequence order |
| Grouping.BucketByTicks | src/test/lib/MidiParser.ts:304-321 | the groups before sorting are one bucket per key, in key order |
| Grouping.SetDeltaTicks | src/test/lib/MidiParser.ts:323-326 | every group after the first gets delta ticks from its predecessor |
| Grouping.GroupedByTick | src/test/lib/MidiParser.ts:304-326 | the unmerged groups have strictly increasing ticks; a group exists at tick `t` iff some event does; each holds exactly that tick's events; its delta is to the previous group |
| Grouping.GroupedKeepsEvents | src/test/lib/MidiParser.ts:304-326 | on a tick-sorted sequence the groups laid end to end give back the sequence |
| Grouping.RateAfterLastTempo | src/test/lib/MidiParser.ts:343-346 | after scanning a group the rate is that of its last setTempo event |
| Grouping.RateAfterNoTempo | src/test/lib/MidiParser.ts:358-361 | a group without setTempo leaves the rate unchanged |
| Grouping.ScanTempo | src/test/lib/MidiParser.ts:343-346 | the tempo scan loop computes the rate after the group's events |
| Grouping.TimeGroups | src/test/lib/MidiParser.ts:337-348 | unmerged timing: the first group at 0 ms, each later one at its delta ticks times the rate in force |
| Grouping.MergeOne | src/test/lib/MidiParser.ts:357-369 | one merge iteration rescans the last emitted group for tempo and times the group against it; it absorbs the group below the threshold and emits it otherwise |
| Grouping.MergeGroups | src/test/lib/MidiParser.ts:351-371 | the merge loop emits the first group and folds the rest in greedily |
| Grouping.MergeKeepsEvents | src/test/lib/MidiParser.ts:351-371 | merging never loses, duplicates or reorders an event |
| Grouping.MergeSpacing | src/test/lib/MidiParser.ts:351-371 | merged groups keep the first group first and ticks strictly increasing, and emitted groups lie at least the threshold apart |
| Grouping.MergeKeepsEmitted | src/test/lib/MidiParser.ts:351-371 | the group emitted last before group `i` keeps its position and tick in the result, and the events it holds by then come first among its final events |
| Grouping.MergeAbsorbs | src/test/lib/MidiParser.ts:357-366 | a group lying less than the threshold after the group `k` emitted last before it, at the rate after rescanning the events `k` holds so far, has its events follow those into output group `k` |
| Grouping.MergeEmits | src/test/lib/MidiParser.ts:357-369 | any other group starts output group `k + 1`, with its own tick, its delta ticks from group `k` and its delta milliseconds at that rate |
| Grouping.MergedIsMergeState | src/test/lib/MidiParser.ts:351-371 | from 4 ms up, toMidiGroup returns the merge state after the last tick group |
| Grouping.ToMidiGroup | src/test/lib/MidiParser.ts:303-372 | toMidiGroup computes `MidiGroups`: unmerged when the threshold is 0 or below 4, merged otherwise |
| Grouping.NoMergeBelowFour | src/test/lib/MidiParser.ts:334-350 | below 4 ms nothing merges: the output is the tick groups, timed, the first at 0 ms |
| Grouping.MergedSpacing | src/test/lib/MidiParser.ts:351-371 | from 4 ms up, the first group is emitted, ticks increase strictly and emitted groups are at least the threshold apart |
| Grouping.MidiGroupsKeepEvents | src/test/lib/MidiParser.ts:303-372 | on a tick-sorted sheet, in either mode, the groups laid end to end are exactly the sequence |
| Grouping.ParsedGroupsKeepEvents | src/test/lib/MidiParser.ts:303-372 | grouping midiParser's output loses and duplicates no event |
| Format0.FilterSequence | src/test/lib/MidiParser.ts:389-400 | the filter keeps the events `Keep` admits, in order, and remembers the end of track that strictly later ticks replace |
| Format0.KeptMembers | src/test/lib/MidiParser.ts:389-400 | an event is exported iff it is in the sequence and the filter keeps it; no end of track is kept |
| Format0.KeptSubsequence | src/test/lib/MidiParser.ts:389-400 | the kept events are the sequence with the dropped ones removed, in order |
| Format0.LatestEndIsFirstMax | src/test/lib/MidiParser.ts:391-395 | an end of track is remembered iff the sequence has one, and it is the first of those with the greatest ticks |
| Format0.RewriteAt | src/test/lib/MidiParser.ts:402-410 | the map changes only `ticks` (the first event's becomes 0) and the decoded event's `deltaTime` (the distance to the previous event's ticks) |
| Format0.RewriteDeltas | src/test/lib/MidiParser.ts:402-410 | the map pass rewrites each event against its already rewritten predecessor |
| Format0.RewriteRoundTrip | src/test/lib/MidiParser.ts:402-410 | summing the written delta times up to event `j` gives back its absolute ticks (0 for the first) |
| Format0.ToFormat0 | src/test/lib/MidiParser.ts:379-417 | toFormat0 computes `Format0Of`: the header, the kept events, then the remembered end of track |
| Format0.Format0Shape | src/test/lib/MidiParser.ts:382-410 | a result exists iff the sequence has an end of track; the header is format 0, one track, division ticksPerBeat; the track is the kept events plus the latest end, whose delta closes the track at its ticks |
| Velocity.GetVelocityCounts | src/test/lib/MidiParser.ts:476-483 | 128 counters; counter `v` is the number of note-ons with velocity `v` above 0 |
| Velocity.CountOfZero | src/test/lib/MidiParser.ts:479 | counter 0 never moves |
| Velocity.CountsAddUp | src/test/lib/MidiParser.ts:476-483 | the counters add up to the number of counted note-ons |
| Velocity.Round | src/test/lib/MidiParser.ts:487 | `Math.round` returns the integer within half a unit, halves rounding up |
| Velocity.LinearUp | src/test/lib/MidiParser.ts:484-489 | linearUp always returns a valid velocity 1..127 |
| Velocity.LinearDown | src/test/lib/MidiParser.ts:490-495 | linearDown always returns a valid velocity 1..127 |
| Velocity.LinearAtMain | src/test/lib/MidiParser.ts:484-495 | both remaps send the main source velocity to the clamped main target |
| Velocity.LinearAtSide | src/test/lib/MidiParser.ts:484-495 | with non-zero differences both remaps send the side source velocity to the clamped side target |
| Velocity.LinearUpFlatSource | src/test/lib/MidiParser.ts:485-487 | an undefined or zero source difference counts as 1 |
| Velocity.LinearDownFlatSource | src/test/lib/MidiParser.ts:491-493 | the same for linearDown |
| Velocity.LinearUpMonotone | src/test/lib/MidiParser.ts:484-489 | with sides on the far side of the main values, a louder input never maps softer |
| Velocity.LinearDownMonotone | src/test/lib/MidiParser.ts:490-495 | the same for linearDown |
| Velocity.LinearSides | src/test/lib/MidiParser.ts:484-495 | below the mean the remap stays at or under the main target, above it at or over |
| Velocity.VelocityMapFrom | src/test/lib/MidiParser.ts:514-523 | the table has 129 entries with entry 0 equal to 0; the mean maps to the main target and every other entry is a valid velocity; with a NaN mean every entry but the first is the main target |
| Velocity.VelocityMapMonotone | src/test/lib/MidiParser.ts:514-523 | with ordered targets and a range bracketing the mean, the table never maps a louder velocity softer |
| Statistics.Slice | src/test/lib/MidiParser.ts:472 | `slice` returns the window between the clamped bounds, empty when they cross |
| Statistics.NonZero | src/test/lib/MidiParser.ts:448 | the filter keeps exactly the non-zero values |
| Statistics.Peak | src/test/lib/MidiParser.ts:441-446 | a group's peak is at least every note-on velocity in it, and is 0 or attained by one |
| Statistics.SessionPeaks | src/test/lib/MidiParser.ts:439-447 | the nested loops build one peak per group, in group order |
| Statistics.GetMeanVelocity | src/test/lib/MidiParser.ts:427-450 | groups the sheet, takes the peaks, and averages the numerically sorted non-zero peaks trimmed by fractions of their own count (see Findings) |
| Statistics.ExpandCounts | src/test/lib/MidiParser.ts:466-471 | the nested loops repeat each velocity as often as its counter says, in counter order |
| Statistics.GetDynamicRange | src/test/lib/MidiParser.ts:456-474 | the first and last samples of the numerically ordered, trimmed samples (see Findings) |
| Statistics.GetVelocityMap | src/test/lib/MidiParser.ts:501-524 | the remap table from the sheet's default-option mean velocity and dynamic range |
| StatisticsProps.SplitsCount | src/test/lib/MidiParser.ts:466-471 | each velocity occurs among the samples exactly as often as its counter says |
| StatisticsProps.SplitsSorted | src/test/lib/MidiParser.ts:466-471 | the samples are in ascending order already, and each is a counter's index |
| StatisticsProps.SplitsNonEmpty | src/test/lib/MidiParser.ts:466-471 | a sample exists iff some counter is positive |
| StatisticsProps.MeanCutsLeaveOne | src/test/lib/MidiParser.ts:429-430 | the default 30 % and 10 % cuts leave at least one element of a non-empty list |
| StatisticsProps.RangeCutsLeaveOne | src/test/lib/MidiParser.ts:457-458 | the default 1 % cuts leave at least one sample |
| StatisticsProps.MeanWithin | src/test/lib/MidiParser.ts:449 | the rounded mean of a non-empty list lies within any bounds holding all of it |
| StatisticsProps.TrimWindow | src/test/lib/MidiParser.ts:448 | a trim is a contiguous window of the list |
| StatisticsProps.MeanOfPeaksWindow | src/test/lib/MidiParser.ts:448-449 | the intended mean is the mean of a window of the ascending non-zero peaks and lies between its ends |
| StatisticsProps.DefaultMeanDefined | src/test/lib/MidiParser.ts:448-449 | with the default cuts the intended mean is defined iff some session peak is non-zero |
| StatisticsProps.RangeOrdered | src/test/lib/MidiParser.ts:472-473 | the intended range has both ends or neither; the ends are occurring velocities with min <= max |
| StatisticsProps.DefaultRangeDefined | src/test/lib/MidiParser.ts:472-473 | with the default cuts the intended range is defined iff some counter is positive |
| StatisticsProps.PeakPositive | src/test/lib/MidiParser.ts:441-446 | a group's peak is positive iff it holds a note-on with a velocity above 0 |
| StatisticsProps.PeaksPositive | src/test/lib/MidiParser.ts:439-447 | some session peak is positive iff some group holds such a note-on |
| StatisticsProps.CountOfPositive | src/test/lib/MidiParser.ts:478-481 | a velocity's counter is positive iff a counted note-on has that velocity |
| StatisticsProps.SoundingSheet | src/test/lib/MidiParser.ts:438-473 | on a tick-sorted sheet the default mean velocity and both ends of the default range are defined iff some note-on sounds |
| StatisticsProps.MeanVelocityBounds | src/test/lib/MidiParser.ts:439-449 | the intended mean velocity, when defined, is a velocity 1..127 |
| StatisticsProps.VelocityMapOfSheet | src/test/lib/MidiParser.ts:512-523 | for a sounding sheet the table maps the mean velocity to the main target and every other entry to a valid velocity; for a silent sheet every entry but the first is the main target |
| StatisticsProps.DefaultLeTotalPreorder | src/test/lib/MidiParser.ts:448 | numbers compared as decimal strings, the order of `sort()` without a comparator, are totally preordered |
| StatisticsProps.SortByString | src/test/lib/MidiParser.ts:472 | `sort()` without a comparator returns the same numbers, ordered as strings |
| StatisticsProps.TrimmedAsWrittenWindow | src/test/lib/MidiParser.ts:448 | as written, the averaged list is a window of the non-zero peaks in string order, so it holds only non-zero peaks |
| StatisticsProps.MeanOfPeaksAsWrittenBounds | src/test/lib/MidiParser.ts:448-449 | as written, the mean is defined iff that window is not empty, and is then a velocity 1..127 |
| StatisticsProps.MeanVelocityAsWrittenBounds | src/test/lib/MidiParser.ts:427-450 | getMeanVelocity as written, when not NaN, is a velocity 1..127 |
| StatisticsProps.RangeAsWrittenShape | src/test/lib/MidiParser.ts:472-473 | as written, a maximum only comes with a minimum, and each end present is a velocity that occurs in the histogram |
| StatisticsProps.RangeAsWrittenDefined | src/test/lib/MidiParser.ts:456-474 | as written, with the default cuts, the minimum is defined iff some counter is positive |
| StatisticsProps.MeanStringOrderCounterexample | src/test/lib/MidiParser.ts:448-449 | peaks 5, 20, 30: as written the mean is 18; as intended it is 25 |
| StatisticsProps.MeanSilentSessionsCounterexample | src/test/lib/MidiParser.ts:448-449 | peaks 0, 0, 0, 40, 80: as written the mean is NaN; as intended it is 80 |
| StatisticsProps.RangeStringOrderCounterexample | src/test/lib/MidiParser.ts:472-473 | samples 9 and 10: as written min 10 and max 9; as intended min 9 and max 10 |
| StatisticsProps.RangeSingleSampleCounterexample | src/test/lib/MidiParser.ts:472-473 | a single sample 64: as written min 64 and max undefined; as intended 64 and 64 |

## Left out

- Decoding and encoding are not modelled. `tsMidi.read` is replaced by its result, a `MidiFile` of tracks of decoded events. `tsMidi.serialize` and the `midiBuffer` chunk writer are replaced by a `Format0File` record (format, track count, division, events). The byte layout of the output file is not modelled.
- Logging (`console.log`, the `logOff` options) is left out; it has no effect on the results.
- The decoder is trusted:
  - velocities are 7-bit (`DataByte`);
  - a meta or channel subtype missing from its code table is the `Unknown` kind;
  - other fields are unbounded integers.
- Floating point is modelled by exact reals: ticks per millisecond, delta milliseconds, the fractions and the divisions in the remaps. Rounding and precision effects of IEEE doubles are not modelled.
- Options objects are modelled by their effective values after the defaults are spread in. An option given as NaN or as a non-number is not modelled.
- Grouping.ToMidiGroup: requires `ticksPerBeat > 0`. With 0 the source divides by zero and gets non-finite rates, which reals cannot represent. The same precondition carries over to Statistics.GetMeanVelocity and Statistics.GetVelocityMap.
- Format0.ToFormat0: returns `None` when the sequence has no end of track. There the source pushes `undefined` and the map throws a TypeError reading its ticks.
- Format0.ToFormat0: mutates the sheet's event objects in place (`ticks` and `event.deltaTime`). The model returns the rewritten copies and leaves the sheet unchanged, so the aliasing effect on the caller's sheet is not modelled.
- Parser.SheetBuilder: the sequence, the instruments and the events are values, with object identity given by `uid`. Later writes through shared references are modelled explicitly (`index`, the `instrument` back-fill); nothing else aliases.
- Statistics.GetMeanVelocity: models the corrected computation (see Findings); the code as written is `Statistics.MeanVelocityAsWritten`. A NaN result is `None`.
- Statistics.GetDynamicRange: models the corrected computation (see Findings); the code as written is `Statistics.RangeAsWritten`. An `undefined` end is `None`.
- Statistics.GetVelocityMap: is built from the corrected mean velocity and dynamic range.

## Findings

| source | as written | input that shows it | evidently intended | confidence | as-written member | corrected member |
|---|---|---|---|---|---|---|
| src/test/lib/MidiParser.ts:448 | `sort()` without a comparator orders session peaks as strings, so the trim cuts the wrong sessions | three sessions peaking at 5, 20 and 30 sort as 20, 30, 5; the trim keeps 30 and 5 and gives 18 | numeric order; the trim keeps 20 and 30 and gives 25 | not executed | StatisticsProps.MeanStringOrderCounterexample | StatisticsProps.MeanOfPeaksWindow |
| src/test/lib/MidiParser.ts:448 | the slice bounds are fractions of the number of all sessions, silent ones included, but the slice is applied to the non-zero peaks only | sessions peaking at 0, 0, 0, 40 and 80: bounds 2..4 on a two-element list leave nothing, so the mean is NaN | bounds from the count of non-zero peaks; the mean is 80 | not executed | StatisticsProps.MeanSilentSessionsCounterexample | StatisticsProps.DefaultMeanDefined |
| src/test/lib/MidiParser.ts:472 | `sort()` without a comparator orders velocity samples as strings | one note-on at velocity 9 and one at 10: the samples sort as 10, 9, giving min 10 and max 9 | numeric order (the samples are already ascending): min 9 and max 10 | not executed | StatisticsProps.RangeStringOrderCounterexample | StatisticsProps.RangeOrdered |
| src/test/lib/MidiParser.ts:473 | `shift()` then `pop()` on the same list: a single remaining sample is taken as min and leaves max undefined | one note-on at velocity 64: min 64, max undefined | min and max both 64 | not executed | StatisticsProps.RangeSingleSampleCounterexample | StatisticsProps.DefaultRangeDefined |
| src/test/lib/MidiParser.ts:131 | `v === NaN` is never true, so a NaN pattern slot is compared and never matches, contrary to the doc comment at line 125 | pattern `[NaN]` against payload `[0x7E]` fails | NaN slots skipped like undefined ones | not executed | SysExMatch.NaNSlotCounterexample | SysExMatch.WildcardNaNIsSkip |

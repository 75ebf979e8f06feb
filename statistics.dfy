/** The trimmed statistics of MidiParser.ts: the mean session velocity
    (`getMeanVelocity`), the dynamic range (`getDynamicRange`) and the velocity
    remap table built from them (`getVelocityMap`). Both statistics sort with
    `Array.prototype.sort` and trim with `slice`; the JavaScript behaviour of both
    is written out below. Each statistic is given twice: as written, and corrected;
    the rest of the model uses the corrected one. */
module Statistics {
  import opened MidiTypes
  import opened StableSort
  import Grouping
  import Velocity

  // ---------------------------------------------------------------------------
  // JavaScript library behaviour

  /** The decimal digits of `n`, most significant first: `String(n)` for n >= 0. */
  function Digits(n: nat): (r: seq<int>)
    ensures |r| >= 1
  {
    if n < 10 then [n] else Digits(n / 10) + [n % 10]
  }

  /** String order on digit strings: `a` is a prefix of `b`, or smaller at the first difference. */
  predicate StringLe(a: seq<int>, b: seq<int>) {
    a == [] || (b != [] && (a[0] < b[0] || (a[0] == b[0] && StringLe(a[1..], b[1..]))))
  }

  /** The comparison `sort()` uses without a comparator: numbers compared as strings. */
  predicate DefaultLe(a: nat, b: nat) {
    StringLe(Digits(a), Digits(b))
  }

  predicate NumLe(a: nat, b: nat) {
    a <= b
  }

  /** One bound of `slice`: a negative bound counts from the end, and both are
      clamped to the list. */
  function SliceBound(k: int, len: nat): (r: nat)
    ensures r <= len
    ensures 0 <= k <= len ==> r == k
  {
    if k < 0 then (if len + k < 0 then 0 else len + k) else if k > len then len else k
  }

  /** `s.slice(start, end)`: empty when the clamped bounds cross. */
  function Slice(s: seq<nat>, start: int, end: int): (r: seq<nat>)
    ensures |r| <= |s|
    ensures r != [] ==>
      SliceBound(start, |s|) < SliceBound(end, |s|) && r == s[SliceBound(start, |s|)..SliceBound(end, |s|)]
    ensures SliceBound(start, |s|) < SliceBound(end, |s|) ==> r != []
  {
    var from := SliceBound(start, |s|);
    var to := SliceBound(end, |s|);
    if from < to then s[from..to] else []
  }

  /** `s.slice(Math.round(n * lightest), n - Math.round(n * heaviest))`: drops about
      the `lightest` fraction of `n` from the front and the `heaviest` fraction from
      the back. */
  function Trim(s: seq<nat>, n: nat, lightest: real, heaviest: real): seq<nat> {
    Slice(s, Velocity.Round(n as real * lightest), n - Velocity.Round(n as real * heaviest))
  }

  /** `reduce((p, c) => p + c, 0)`. */
  function Sum(s: seq<nat>): nat {
    if s == [] then 0 else Sum(s[..|s| - 1]) + s[|s| - 1]
  }

  /** `filter(v => !!v)` on numbers: drops the zeros. */
  function NonZero(s: seq<nat>): (r: seq<nat>)
    ensures |r| <= |s|
    ensures forall x :: x in r <==> x in s && x != 0
  {
    if s == [] then [] else NonZero(s[..|s| - 1]) + (if s[|s| - 1] != 0 then [s[|s| - 1]] else [])
  }

  /** `Math.round(sum / length)`, with `None` for the NaN of an empty list. */
  function MeanOf(c: seq<nat>): Option<int> {
    if c == [] then None else Some(Velocity.Round(Sum(c) as real / |c| as real))
  }

  // ---------------------------------------------------------------------------
  // Session peaks

  predicate IsNoteOn(v: MidiEvent) {
    v.switch.channel == Some(NoteOn) && v.event.Channel? && v.event.channelKind == NoteOn
  }

  /** The loudest note-on of a group, 0 when it has none. */
  function Peak(es: seq<MidiEvent>): (r: nat)
    ensures forall i :: 0 <= i < |es| && IsNoteOn(es[i]) ==> es[i].event.velocity <= r
    ensures r == 0 || exists i :: 0 <= i < |es| && IsNoteOn(es[i]) && es[i].event.velocity == r
  {
    if es == [] then 0
    else
      var p := Peak(es[..|es| - 1]);
      var v := es[|es| - 1];
      if IsNoteOn(v) && v.event.velocity > p then v.event.velocity else p
  }

  /** One peak per group, in group order. */
  function Peaks(gs: seq<MidiGroup>): (r: seq<nat>)
    ensures |r| == |gs|
  {
    if gs == [] then [] else Peaks(gs[..|gs| - 1]) + [Peak(gs[|gs| - 1].events)]
  }

  /** The nested loops of getMeanVelocity that build `sessionVel`. */
  method SessionPeaks(groups: seq<MidiGroup>) returns (sessionVel: seq<nat>)
    ensures sessionVel == Peaks(groups)
  {
    sessionVel := [];
    for gi := 0 to |groups|
      invariant sessionVel == Peaks(groups[..gi])
    {
      assert groups[..gi + 1][..gi] == groups[..gi];
      var es := groups[gi].events;
      var maxVel: nat := 0;
      for k := 0 to |es|
        invariant maxVel == Peak(es[..k])
      {
        assert es[..k + 1][..k] == es[..k];
        var v := es[k];
        if v.switch.channel == Some(NoteOn) && v.event.Channel? && v.event.channelKind == NoteOn && v.event.velocity > maxVel {
          maxVel := v.event.velocity;
        }
      }
      assert es[..|es|] == es;
      sessionVel := sessionVel + [maxVel];
    }
    assert groups[..|groups|] == groups;
  }

  // ---------------------------------------------------------------------------
  // The mean velocity

  datatype MeanOptions = MeanOptions(mergeMilliseconds: real, cutLightestScale: real, cutHeaviestScale: real)

  const DefaultMeanOptions := MeanOptions(2000.0, 0.3, 0.1)

  /** The list getMeanVelocity averages, as written: the nonzero peaks in string
      order, trimmed with bounds computed from the count of all peaks, zeros included. */
  function TrimmedAsWritten(peaks: seq<nat>, lightest: real, heaviest: real): seq<nat> {
    Trim(SortWith(NonZero(peaks), DefaultLe), |peaks|, lightest, heaviest)
  }

  function MeanOfPeaksAsWritten(peaks: seq<nat>, lightest: real, heaviest: real): Option<int> {
    MeanOf(TrimmedAsWritten(peaks, lightest, heaviest))
  }

  /** The list as intended: the nonzero peaks in numeric order, trimmed by fractions
      of their own count. */
  function Trimmed(peaks: seq<nat>, lightest: real, heaviest: real): seq<nat> {
    var nz := NonZero(peaks);
    Trim(SortWith(nz, NumLe), |nz|, lightest, heaviest)
  }

  function MeanOfPeaks(peaks: seq<nat>, lightest: real, heaviest: real): Option<int> {
    MeanOf(Trimmed(peaks, lightest, heaviest))
  }

  /** getMeanVelocity as written; `None` is its NaN. */
  function MeanVelocityAsWritten(sheet: MidiSheet, o: MeanOptions): Option<int>
    requires sheet.ticksPerBeat > 0
  {
    MeanOfPeaksAsWritten(Peaks(Grouping.MidiGroups(sheet, o.mergeMilliseconds)), o.cutLightestScale, o.cutHeaviestScale)
  }

  /** getMeanVelocity as intended; `None` is NaN. */
  function MeanVelocity(sheet: MidiSheet, o: MeanOptions): Option<int>
    requires sheet.ticksPerBeat > 0
  {
    MeanOfPeaks(Peaks(Grouping.MidiGroups(sheet, o.mergeMilliseconds)), o.cutLightestScale, o.cutHeaviestScale)
  }

  method GetMeanVelocity(sheet: MidiSheet, o: MeanOptions) returns (r: Option<int>)
    requires sheet.ticksPerBeat > 0
    ensures r == MeanVelocity(sheet, o)
  {
    var groups := Grouping.ToMidiGroup(sheet, o.mergeMilliseconds);
    var sessionVel := SessionPeaks(groups);
    var cuted := Trimmed(sessionVel, o.cutLightestScale, o.cutHeaviestScale);
    r := MeanOf(cuted);
  }

  // ---------------------------------------------------------------------------
  // The dynamic range

  datatype RangeOptions = RangeOptions(cutLightestScale: real, cutHeaviestScale: real)

  const DefaultRangeOptions := RangeOptions(0.01, 0.01)

  /** `{min, max}`; `None` is `undefined`. */
  datatype Range = Range(min: Option<int>, max: Option<int>)

  /** `c` copies of `v`. */
  function Repeat(v: nat, c: nat): (r: seq<nat>)
    ensures |r| == c && forall x :: x in r ==> x == v
  {
    if c == 0 then [] else Repeat(v, c - 1) + [v]
  }

  /** Every velocity repeated as often as its counter says, in counter order. */
  function Splits(counts: seq<nat>): seq<nat> {
    if counts == [] then [] else Splits(counts[..|counts| - 1]) + Repeat(|counts| - 1, counts[|counts| - 1])
  }

  /** The nested loops of getDynamicRange that build `splits`. */
  method ExpandCounts(vels: seq<nat>) returns (splits: seq<nat>)
    ensures splits == Splits(vels)
  {
    splits := [];
    for v := 0 to |vels|
      invariant splits == Splits(vels[..v])
    {
      assert vels[..v + 1][..v] == vels[..v];
      for i := 0 to vels[v]
        invariant splits == Splits(vels[..v]) + Repeat(v, i)
      {
        splits := splits + [v];
      }
    }
    assert vels[..|vels|] == vels;
  }

  /** The histogram getVelocityCounts returns. */
  function Counts(s: seq<MidiEvent>): (r: seq<nat>)
    ensures |r| == 128
  {
    seq(128, v requires 0 <= v < 128 => Velocity.CountOf(s, v))
  }

  /** The range as written: the samples in string order, trimmed, then `shift()`
      for the minimum and `pop()` on what is left for the maximum. */
  function RangeAsWritten(counts: seq<nat>, o: RangeOptions): Range {
    var splits := Splits(counts);
    var sorted := Trim(SortWith(splits, DefaultLe), |splits|, o.cutLightestScale, o.cutHeaviestScale);
    if sorted == [] then Range(None, None)
    else if |sorted| == 1 then Range(Some(sorted[0]), None)
    else Range(Some(sorted[0]), Some(sorted[|sorted| - 1]))
  }

  /** The range as intended: the samples are already in ascending order; the
      trimmed list's first and last samples. */
  function DynamicRangeOf(counts: seq<nat>, o: RangeOptions): Range {
    var splits := Splits(counts);
    var sorted := Trim(splits, |splits|, o.cutLightestScale, o.cutHeaviestScale);
    if sorted == [] then Range(None, None) else Range(Some(sorted[0]), Some(sorted[|sorted| - 1]))
  }

  method GetDynamicRange(sheet: MidiSheet, o: RangeOptions) returns (r: Range)
    ensures r == DynamicRangeOf(Counts(sheet.sequence), o)
  {
    var vels := Velocity.GetVelocityCounts(sheet);
    assert vels == Counts(sheet.sequence);
    var splits := ExpandCounts(vels);
    var sorted := Trim(splits, |splits|, o.cutLightestScale, o.cutHeaviestScale);
    if sorted == [] {
      r := Range(None, None);
    } else {
      r := Range(Some(sorted[0]), Some(sorted[|sorted| - 1]));
    }
  }

  // ---------------------------------------------------------------------------
  // The velocity map

  /** getVelocityMap: the remap table from the sheet's default-option mean velocity
      and dynamic range. */
  function VelocityMap(sheet: MidiSheet, o: Velocity.MapOptions): seq<int>
    requires sheet.ticksPerBeat > 0
  {
    var range := DynamicRangeOf(Counts(sheet.sequence), DefaultRangeOptions);
    Velocity.VelocityMapFrom(MeanVelocity(sheet, DefaultMeanOptions), range.min, range.max, o)
  }

  method GetVelocityMap(sheet: MidiSheet, o: Velocity.MapOptions) returns (m: seq<int>)
    requires sheet.ticksPerBeat > 0
    ensures m == VelocityMap(sheet, o)
  {
    var srcMainVel := GetMeanVelocity(sheet, DefaultMeanOptions);
    var srcDynamic := GetDynamicRange(sheet, DefaultRangeOptions);
    m := Velocity.VelocityMapFrom(srcMainVel, srcDynamic.min, srcDynamic.max, o);
  }
}

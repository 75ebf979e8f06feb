/** Velocity statistics and remapping of MidiParser.ts: the note-on velocity
    histogram (`getVelocityCounts`), the clamped linear remaps below and above the
    main velocity (`linearDown`, `linearUp`) and the 129-entry remap table built
    from them (`getVelocityMap`, given its two statistics). Numbers that the source
    computes in floating point are reals here; `Math.round` is `Round`. */
module Velocity {
  import opened MidiTypes

  // ---------------------------------------------------------------------------
  // The histogram

  /** An event the histogram counts: classified as a note-on, decoded as a channel
      note-on, with a velocity above 0. */
  predicate Counted(v: MidiEvent) {
    v.switch.channel == Some(NoteOn) && v.event.Channel? && v.event.channelKind == NoteOn && v.event.velocity > 0
  }

  /** The number of counted events of `s` with velocity `vel`. */
  function CountOf(s: seq<MidiEvent>, vel: int): nat {
    if s == [] then 0
    else CountOf(s[..|s| - 1], vel) + (if Counted(s[|s| - 1]) && s[|s| - 1].event.velocity == vel then 1 else 0)
  }

  /** The number of counted events of `s`, whatever their velocity. */
  function CountedTotal(s: seq<MidiEvent>): nat {
    if s == [] then 0 else CountedTotal(s[..|s| - 1]) + (if Counted(s[|s| - 1]) then 1 else 0)
  }

  /** getVelocityCounts: 128 counters, one increment per counted event. */
  method GetVelocityCounts(sheet: MidiSheet) returns (counts: seq<nat>)
    ensures |counts| == 128
    ensures forall vel :: 0 <= vel < 128 ==> counts[vel] == CountOf(sheet.sequence, vel)
  {
    var s := sheet.sequence;
    var velocities := new nat[128](_ => 0);
    for i := 0 to |s|
      invariant forall vel :: 0 <= vel < 128 ==> velocities[vel] == CountOf(s[..i], vel)
    {
      assert s[..i + 1][..i] == s[..i];
      var v := s[i];
      if v.switch.channel == Some(NoteOn) && v.event.Channel? && v.event.channelKind == NoteOn && v.event.velocity > 0 {
        velocities[v.event.velocity] := velocities[v.event.velocity] + 1;
      }
    }
    assert s[..|s|] == s;
    counts := velocities[..];
  }

  /** Counter 0 never moves: only velocities above 0 are counted. */
  lemma {:induction false} CountOfZero(s: seq<MidiEvent>)
    ensures CountOf(s, 0) == 0
  {
    if s != [] {
      CountOfZero(s[..|s| - 1]);
    }
  }

  /** `CountOf(s, 0) + … + CountOf(s, k - 1)`. */
  function CountsBelow(s: seq<MidiEvent>, k: nat): nat {
    if k == 0 then 0 else CountsBelow(s, k - 1) + CountOf(s, k - 1)
  }

  lemma {:induction false} CountsBelowSnoc(s: seq<MidiEvent>, x: MidiEvent, k: nat)
    ensures CountsBelow(s + [x], k) ==
      CountsBelow(s, k) + (if Counted(x) && x.event.velocity < k then 1 else 0)
  {
    assert (s + [x])[..|s + [x]| - 1] == s;
    if k > 0 {
      CountsBelowSnoc(s, x, k - 1);
    }
  }

  lemma {:induction false} CountsBelowNothing(s: seq<MidiEvent>, k: nat)
    requires s == []
    ensures CountsBelow(s, k) == 0
  {
    if k > 0 {
      CountsBelowNothing(s, k - 1);
    }
  }

  /** The 128 counters add up to the number of counted events: every counted event
      lands in exactly one counter. */
  lemma {:induction false} CountsAddUp(s: seq<MidiEvent>)
    ensures CountsBelow(s, 128) == CountedTotal(s)
  {
    if s != [] {
      var p := s[..|s| - 1];
      CountsAddUp(p);
      var x := s[|s| - 1];
      assert s == p + [x];
      CountsBelowSnoc(p, x, 128);
    } else {
      CountsBelowNothing(s, 128);
    }
  }

  // ---------------------------------------------------------------------------
  // Rounding, clamping and the linear remaps

  /** `Math.round`: the nearest integer, halves rounding up. */
  function Round(x: real): (r: int)
    ensures r as real - 0.5 <= x < r as real + 0.5
  {
    (x + 0.5).Floor
  }

  lemma RoundMonotone(x: real, y: real)
    requires x <= y
    ensures Round(x) <= Round(y)
  {
  }

  lemma RoundOfInt(n: int)
    ensures Round(n as real) == n
  {
  }

  /** The remaps' final clamp into the valid note-on velocities 1..127. */
  function Clamp(vel: int): (r: int)
    ensures 1 <= r <= 127
    ensures 1 <= vel <= 127 ==> r == vel
    ensures vel > 127 ==> r == 127
    ensures vel < 1 ==> r == 1
  {
    if vel > 127 then 127 else if vel < 1 then 1 else vel
  }

  /** `d || 1` on a difference of two numbers: a zero difference, or NaN when the
      side value is `undefined`, becomes 1. */
  function OrOne(d: Option<int>): (r: int)
    ensures r != 0
    ensures d.Some? && d.value != 0 ==> r == d.value
  {
    if d.None? || d.value == 0 then 1 else d.value
  }

  /** `a - b` where `a` may be `undefined`. */
  function Minus(a: Option<int>, b: int): Option<int> {
    if a.None? then None else Some(a.value - b)
  }

  function MinusFrom(a: int, b: Option<int>): Option<int> {
    if b.None? then None else Some(a - b.value)
  }

  /** linearUp: the line through (srcMain, tarMain) and (srcSide, tarSide), rounded
      and clamped. */
  function LinearUp(srcMain: int, srcSide: Option<int>, tarMain: int, tarSide: int, cur: int): (v: int)
    ensures 1 <= v <= 127
  {
    var srcDiff := OrOne(Minus(srcSide, srcMain));
    var tarDiff := OrOne(Some(tarSide - tarMain));
    Clamp(Round(tarMain as real + ((cur - srcMain) * tarDiff) as real / srcDiff as real))
  }

  /** linearDown: the same line, measured from the main value downwards. */
  function LinearDown(srcMain: int, srcSide: Option<int>, tarMain: int, tarSide: int, cur: int): (v: int)
    ensures 1 <= v <= 127
  {
    var srcDiff := OrOne(MinusFrom(srcMain, srcSide));
    var tarDiff := OrOne(Some(tarMain - tarSide));
    Clamp(Round(tarMain as real - ((srcMain - cur) * tarDiff) as real / srcDiff as real))
  }

  /** Both remaps send the main source value to the main target value. */
  lemma LinearAtMain(srcMain: int, srcSide: Option<int>, tarMain: int, tarSide: int)
    ensures LinearUp(srcMain, srcSide, tarMain, tarSide, srcMain) == Clamp(tarMain)
    ensures LinearDown(srcMain, srcSide, tarMain, tarSide, srcMain) == Clamp(tarMain)
  {
    var up := OrOne(Some(tarSide - tarMain));
    var down := OrOne(Some(tarMain - tarSide));
    assert (srcMain - srcMain) * up == 0 == (srcMain - srcMain) * down;
    assert 0 as real / OrOne(Minus(srcSide, srcMain)) as real == 0.0;
    assert 0 as real / OrOne(MinusFrom(srcMain, srcSide)) as real == 0.0;
    RoundOfInt(tarMain);
  }

  /** When neither difference is zero, both remaps send the side source value to
      the side target value: each is the line through the two anchor points. */
  lemma LinearAtSide(srcMain: int, srcSide: int, tarMain: int, tarSide: int)
    requires srcSide != srcMain && tarSide != tarMain
    ensures LinearUp(srcMain, Some(srcSide), tarMain, tarSide, srcSide) == Clamp(tarSide)
    ensures LinearDown(srcMain, Some(srcSide), tarMain, tarSide, srcSide) == Clamp(tarSide)
  {
    ScaleCancels(srcSide - srcMain, tarSide - tarMain);
    ScaleCancels(srcMain - srcSide, tarMain - tarSide);
    RoundOfInt(tarSide);
  }

  lemma ScaleCancels(d: int, t: int)
    requires d != 0
    ensures (d * t) as real / d as real == t as real
  {
    assert (d * t) as real == d as real * t as real;
  }

  /** A zero (or undefined) source difference is replaced by 1: each step away from
      the main value then moves the result by the whole target difference. */
  lemma LinearUpFlatSource(srcMain: int, tarMain: int, tarSide: int, cur: int)
    ensures LinearUp(srcMain, None, tarMain, tarSide, cur) == LinearUp(srcMain, Some(srcMain), tarMain, tarSide, cur)
    ensures LinearUp(srcMain, None, tarMain, tarSide, cur) ==
      Clamp(tarMain + (cur - srcMain) * OrOne(Some(tarSide - tarMain)))
  {
    var step := (cur - srcMain) * OrOne(Some(tarSide - tarMain));
    assert OrOne(Minus(None, srcMain)) == 1 == OrOne(Minus(Some(srcMain), srcMain));
    assert step as real / 1 as real == step as real;
    RoundOfInt(tarMain + step);
  }

  lemma LinearDownFlatSource(srcMain: int, tarMain: int, tarSide: int, cur: int)
    ensures LinearDown(srcMain, None, tarMain, tarSide, cur) == LinearDown(srcMain, Some(srcMain), tarMain, tarSide, cur)
    ensures LinearDown(srcMain, None, tarMain, tarSide, cur) ==
      Clamp(tarMain - (srcMain - cur) * OrOne(Some(tarMain - tarSide)))
  {
    var step := (srcMain - cur) * OrOne(Some(tarMain - tarSide));
    assert OrOne(MinusFrom(srcMain, None)) == 1 == OrOne(MinusFrom(srcMain, Some(srcMain)));
    assert step as real / 1 as real == step as real;
    RoundOfInt(tarMain - step);
  }

  lemma ScaleMonotone(c1: int, c2: int, t: int, d: int)
    requires c1 <= c2 && t > 0 && d > 0
    ensures (c1 * t) as real / d as real <= (c2 * t) as real / d as real
  {
    assert c1 * t <= c2 * t by {
      assert (c2 - c1) * t >= 0;
    }
  }

  /** With a source side on the far side of the main value and a target side on the
      far side of the target main value, louder input never maps to softer output. */
  lemma LinearUpMonotone(srcMain: int, srcSide: Option<int>, tarMain: int, tarSide: int, c1: int, c2: int)
    requires srcSide.Some? ==> srcSide.value >= srcMain
    requires tarSide >= tarMain && c1 <= c2
    ensures LinearUp(srcMain, srcSide, tarMain, tarSide, c1) <= LinearUp(srcMain, srcSide, tarMain, tarSide, c2)
  {
    var srcDiff := OrOne(Minus(srcSide, srcMain));
    var tarDiff := OrOne(Some(tarSide - tarMain));
    ScaleMonotone(c1 - srcMain, c2 - srcMain, tarDiff, srcDiff);
    RoundMonotone(tarMain as real + ((c1 - srcMain) * tarDiff) as real / srcDiff as real,
                  tarMain as real + ((c2 - srcMain) * tarDiff) as real / srcDiff as real);
  }

  lemma LinearDownMonotone(srcMain: int, srcSide: Option<int>, tarMain: int, tarSide: int, c1: int, c2: int)
    requires srcSide.Some? ==> srcSide.value <= srcMain
    requires tarSide <= tarMain && c1 <= c2
    ensures LinearDown(srcMain, srcSide, tarMain, tarSide, c1) <= LinearDown(srcMain, srcSide, tarMain, tarSide, c2)
  {
    var srcDiff := OrOne(MinusFrom(srcMain, srcSide));
    var tarDiff := OrOne(Some(tarMain - tarSide));
    ScaleMonotone(srcMain - c2, srcMain - c1, tarDiff, srcDiff);
    RoundMonotone(tarMain as real - ((srcMain - c1) * tarDiff) as real / srcDiff as real,
                  tarMain as real - ((srcMain - c2) * tarDiff) as real / srcDiff as real);
  }

  /** Below the main value the downward remap never exceeds the main target, and
      above it the upward remap never falls below it. */
  lemma LinearSides(srcMain: int, min: Option<int>, max: Option<int>, tarMain: int, tarMin: int, tarMax: int, cur: int)
    requires min.Some? ==> min.value <= srcMain
    requires max.Some? ==> max.value >= srcMain
    requires tarMin <= tarMain <= tarMax
    ensures cur <= srcMain ==> LinearDown(srcMain, min, tarMain, tarMin, cur) <= Clamp(tarMain)
    ensures cur >= srcMain ==> LinearUp(srcMain, max, tarMain, tarMax, cur) >= Clamp(tarMain)
  {
    LinearAtMain(srcMain, min, tarMain, tarMin);
    LinearAtMain(srcMain, max, tarMain, tarMax);
    if cur <= srcMain {
      LinearDownMonotone(srcMain, min, tarMain, tarMin, cur, srcMain);
    }
    if cur >= srcMain {
      LinearUpMonotone(srcMain, max, tarMain, tarMax, srcMain, cur);
    }
  }

  // ---------------------------------------------------------------------------
  // The remap table

  /** The target velocities of getVelocityMap. */
  datatype MapOptions = MapOptions(mainVelocity: int, dynamicMin: int, dynamicMax: int)

  const DefaultMapOptions := MapOptions(64, 22, 88)

  /** Entry `i` of the table. `srcMain == None` is a NaN mean velocity: both
      comparisons with it are false, so every entry but the first is the main
      target velocity. */
  function MapEntry(srcMain: Option<int>, min: Option<int>, max: Option<int>, o: MapOptions, i: int): int {
    if i == 0 then 0
    else if srcMain.Some? && i < srcMain.value then LinearDown(srcMain.value, min, o.mainVelocity, o.dynamicMin, i)
    else if srcMain.Some? && i > srcMain.value then LinearUp(srcMain.value, max, o.mainVelocity, o.dynamicMax, i)
    else o.mainVelocity
  }

  /** getVelocityMap, given the sheet's mean velocity and dynamic range: 129
      entries; entry 0 is 0; the mean velocity maps to the main target velocity;
      every other entry is a valid velocity; with a NaN mean every entry but the
      first is the main target velocity. */
  function VelocityMapFrom(srcMain: Option<int>, min: Option<int>, max: Option<int>, o: MapOptions): (m: seq<int>)
    ensures |m| == 129 && m[0] == 0
    ensures srcMain.Some? && 1 <= srcMain.value < 129 ==> m[srcMain.value] == o.mainVelocity
    ensures forall i :: 1 <= i < 129 && (srcMain.None? || i != srcMain.value) ==>
      if srcMain.None? then m[i] == o.mainVelocity else 1 <= m[i] <= 127
  {
    seq(129, i requires 0 <= i < 129 => MapEntry(srcMain, min, max, o, i))
  }

  /** When the source range brackets the mean and the targets are ordered with a valid
      main velocity, the table never maps a louder velocity to a softer one. */
  lemma VelocityMapMonotone(srcMain: Option<int>, min: Option<int>, max: Option<int>, o: MapOptions)
    requires srcMain.Some? && min.Some? ==> min.value <= srcMain.value
    requires srcMain.Some? && max.Some? ==> max.value >= srcMain.value
    requires o.dynamicMin <= o.mainVelocity <= o.dynamicMax && 1 <= o.mainVelocity <= 127
    ensures var m := VelocityMapFrom(srcMain, min, max, o);
      forall i, j :: 1 <= i <= j < 129 ==> m[i] <= m[j]
  {
    var m := VelocityMapFrom(srcMain, min, max, o);
    forall i, j | 1 <= i <= j < 129 ensures m[i] <= m[j] {
      EntriesOrdered(srcMain, min, max, o, i, j);
    }
  }

  lemma EntriesOrdered(srcMain: Option<int>, min: Option<int>, max: Option<int>, o: MapOptions, i: int, j: int)
    requires srcMain.Some? && min.Some? ==> min.value <= srcMain.value
    requires srcMain.Some? && max.Some? ==> max.value >= srcMain.value
    requires o.dynamicMin <= o.mainVelocity <= o.dynamicMax && 1 <= o.mainVelocity <= 127
    requires 1 <= i <= j
    ensures MapEntry(srcMain, min, max, o, i) <= MapEntry(srcMain, min, max, o, j)
  {
    if srcMain.Some? {
      var k := srcMain.value;
      LinearSides(k, min, max, o.mainVelocity, o.dynamicMin, o.dynamicMax, i);
      LinearSides(k, min, max, o.mainVelocity, o.dynamicMin, o.dynamicMax, j);
      if j < k {
        LinearDownMonotone(k, min, o.mainVelocity, o.dynamicMin, i, j);
      } else if i > k {
        LinearUpMonotone(k, max, o.mainVelocity, o.dynamicMax, i, j);
      }
    }
  }
}

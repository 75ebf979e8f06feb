/** What the statistics promise, and where the code as written falls short of it. */
module StatisticsProps {
  import opened MidiTypes
  import opened StableSort
  import opened Statistics
  import Velocity

  // ---------------------------------------------------------------------------
  // The samples of the dynamic range

  lemma {:induction false} RepeatCount(w: nat, k: nat, v: nat)
    ensures multiset(Repeat(w, k))[v] == if v == w then k else 0
  {
    if k > 0 {
      RepeatCount(w, k - 1, v);
    }
  }

  /** Each velocity occurs among the samples exactly as often as its counter says. */
  lemma {:induction false} SplitsCount(counts: seq<nat>, v: nat)
    ensures multiset(Splits(counts))[v] == if v < |counts| then counts[v] else 0
  {
    if counts != [] {
      var p := counts[..|counts| - 1];
      var b := Repeat(|counts| - 1, counts[|counts| - 1]);
      assert Splits(counts) == Splits(p) + b;
      assert multiset(Splits(counts)) == multiset(Splits(p)) + multiset(b);
      SplitsCount(p, v);
      RepeatCount(|counts| - 1, counts[|counts| - 1], v);
    }
  }

  /** The samples are in ascending numeric order already, and each is a counter's index. */
  lemma {:induction false} SplitsSorted(counts: seq<nat>)
    ensures forall x :: x in Splits(counts) ==> x < |counts|
    ensures forall i, j :: 0 <= i < j < |Splits(counts)| ==> Splits(counts)[i] <= Splits(counts)[j]
  {
    if counts != [] {
      var p := counts[..|counts| - 1];
      SplitsSorted(p);
      var a := Splits(p);
      var b := Repeat(|counts| - 1, counts[|counts| - 1]);
      assert Splits(counts) == a + b;
      forall i, j | 0 <= i < j < |a + b| ensures (a + b)[i] <= (a + b)[j] {
        if j < |a| {
          assert (a + b)[i] == a[i] && (a + b)[j] == a[j];
        } else if i < |a| {
          assert (a + b)[i] == a[i] && a[i] in a;
          assert (a + b)[j] == b[j - |a|] && b[j - |a|] in b;
        } else {
          assert (a + b)[i] == b[i - |a|] && b[i - |a|] in b;
          assert (a + b)[j] == b[j - |a|] && b[j - |a|] in b;
        }
      }
    }
  }

  /** A sample exists iff some counter is positive. */
  lemma SplitsNonEmpty(counts: seq<nat>)
    ensures Splits(counts) != [] <==> exists v :: 0 <= v < |counts| && counts[v] > 0
  {
    if Splits(counts) != [] {
      var x := Splits(counts)[0];
      SplitsSorted(counts);
      SplitsCount(counts, x);
    } else {
      forall v | 0 <= v < |counts| ensures counts[v] == 0 {
        SplitsCount(counts, v);
      }
    }
  }

  // ---------------------------------------------------------------------------
  // Trimming with the default fractions

  /** Rounded 30 % and 10 % of a positive count leave at least one element. */
  lemma MeanCutsLeaveOne(n: nat)
    requires n >= 1
    ensures var a := Velocity.Round(n as real * 0.3); var b := Velocity.Round(n as real * 0.1);
      0 <= a && 0 <= b && a + b < n
  {
  }

  /** Rounded 1 % from each end of a positive count leaves at least one element. */
  lemma RangeCutsLeaveOne(n: nat)
    requires n >= 1
    ensures var a := Velocity.Round(n as real * 0.01); 0 <= a && a + a < n
  {
  }

  // ---------------------------------------------------------------------------
  // The mean velocity, as intended

  lemma {:induction false} SumAtLeast(c: seq<nat>, lo: int)
    requires forall x :: x in c ==> lo <= x
    ensures |c| * lo <= Sum(c)
  {
    if c != [] {
      var p, n := c[..|c| - 1], |c| - 1;
      assert forall x :: x in p ==> x in c;
      SumAtLeast(p, lo);
      assert c[n] in c;
      assert (n + 1) * lo == n * lo + lo;
    }
  }

  lemma {:induction false} SumAtMost(c: seq<nat>, hi: int)
    requires forall x :: x in c ==> x <= hi
    ensures Sum(c) <= |c| * hi
  {
    if c != [] {
      var p, n := c[..|c| - 1], |c| - 1;
      assert forall x :: x in p ==> x in c;
      SumAtMost(p, hi);
      assert c[n] in c;
      assert (n + 1) * hi == n * hi + hi;
    }
  }

  lemma SumBounds(c: seq<nat>, lo: int, hi: int)
    requires forall x :: x in c ==> lo <= x <= hi
    ensures |c| * lo <= Sum(c) <= |c| * hi
  {
    SumAtLeast(c, lo);
    SumAtMost(c, hi);
  }

  lemma DivideBounds(s: int, n: int, lo: int, hi: int)
    requires n > 0 && n * lo <= s <= n * hi
    ensures lo as real <= s as real / n as real <= hi as real
  {
    assert (n * lo) as real == n as real * lo as real;
    assert (n * hi) as real == n as real * hi as real;
  }

  /** The rounded mean of a non-empty list lies within any bounds that hold all of it. */
  lemma MeanWithin(c: seq<nat>, lo: int, hi: int)
    requires c != []
    requires forall x :: x in c ==> lo <= x <= hi
    ensures MeanOf(c).Some? && lo <= MeanOf(c).value <= hi
  {
    SumBounds(c, lo, hi);
    DivideBounds(Sum(c), |c|, lo, hi);
    Velocity.RoundMonotone(lo as real, Sum(c) as real / |c| as real);
    Velocity.RoundMonotone(Sum(c) as real / |c| as real, hi as real);
    Velocity.RoundOfInt(lo);
    Velocity.RoundOfInt(hi);
  }

  lemma NumLeTotal()
    ensures TotalPreorder(NumLe)
  {
  }

  /** A trim is a contiguous window of the list it trims. */
  lemma TrimWindow(s: seq<nat>, n: nat, lightest: real, heaviest: real) returns (from: nat, to: nat)
    ensures from <= to <= |s| && Trim(s, n, lightest, heaviest) == s[from..to]
  {
    from := SliceBound(Velocity.Round(n as real * lightest), |s|);
    to := SliceBound(n - Velocity.Round(n as real * heaviest), |s|);
    if to < from {
      to := from;
    }
  }

  /** A non-empty window of an ascending list averages to a value between its ends. */
  lemma WindowMean(t: seq<nat>, from: nat, to: nat)
    requires from < to <= |t|
    requires forall i, j :: 0 <= i < j < |t| ==> t[i] <= t[j]
    ensures MeanOf(t[from..to]).Some? && t[from] <= MeanOf(t[from..to]).value <= t[to - 1]
  {
    var c := t[from..to];
    forall x | x in c ensures t[from] <= x <= t[to - 1] {
      var k :| 0 <= k < |c| && c[k] == x;
      assert c[k] == t[from + k];
    }
    MeanWithin(c, t[from], t[to - 1]);
  }

  /** Sorting by `<=` yields the same peaks in ascending order. */
  lemma SortedPeaks(nz: seq<nat>)
    ensures var t := SortWith(nz, NumLe);
      multiset(t) == multiset(nz) && forall i, j :: 0 <= i < j < |t| ==> t[i] <= t[j]
  {
    var t := SortWith(nz, NumLe);
    SortPerm(nz, NumLe);
    NumLeTotal();
    SortSorted(nz, NumLe);
    forall i, j | 0 <= i < j < |t| ensures t[i] <= t[j] {
      assert NumLe(t[i], t[j]);
    }
  }

  /** The intended mean is the rounded mean of a window of the nonzero peaks in
      ascending order, and lies between the window's lightest and heaviest peak. */
  lemma MeanOfPeaksWindow(peaks: seq<nat>, lightest: real, heaviest: real)
    ensures var t := SortWith(NonZero(peaks), NumLe);
      multiset(t) == multiset(NonZero(peaks)) &&
      (forall i, j :: 0 <= i < j < |t| ==> t[i] <= t[j]) &&
      (MeanOfPeaks(peaks, lightest, heaviest).Some? ==>
        exists i, j :: 0 <= i <= j < |t| && Trimmed(peaks, lightest, heaviest) == t[i..j + 1] &&
          t[i] <= MeanOfPeaks(peaks, lightest, heaviest).value <= t[j])
  {
    var nz := NonZero(peaks);
    var t := SortWith(nz, NumLe);
    SortedPeaks(nz);
    var from, to := TrimWindow(t, |nz|, lightest, heaviest);
    assert Trimmed(peaks, lightest, heaviest) == t[from..to];
    if from < to {
      WindowMean(t, from, to);
      assert t[from..(to - 1) + 1] == t[from..to];
    }
  }

  lemma {:induction false} NonZeroOfZeros(s: seq<nat>)
    requires forall i :: 0 <= i < |s| ==> s[i] == 0
    ensures NonZero(s) == []
  {
    if s != [] {
      NonZeroOfZeros(s[..|s| - 1]);
    }
  }

  /** With the default fractions the intended mean is defined iff some session has
      a sounding note-on. */
  lemma DefaultMeanDefined(peaks: seq<nat>)
    ensures MeanOfPeaks(peaks, 0.3, 0.1).Some? <==> exists i :: 0 <= i < |peaks| && peaks[i] != 0
  {
    var nz := NonZero(peaks);
    var t := SortWith(nz, NumLe);
    var from, to := TrimWindow(t, |nz|, 0.3, 0.1);
    assert Trimmed(peaks, 0.3, 0.1) == t[from..to];
    if exists i :: 0 <= i < |peaks| && peaks[i] != 0 {
      var i :| 0 <= i < |peaks| && peaks[i] != 0;
      assert peaks[i] in nz;
      MeanCutsLeaveOne(|nz|);
      assert from < to;
      assert Trimmed(peaks, 0.3, 0.1) != [];
    } else {
      NonZeroOfZeros(peaks);
      assert Trimmed(peaks, 0.3, 0.1) == [];
    }
  }

  // ---------------------------------------------------------------------------
  // The dynamic range, as intended

  /** The intended range is defined on both ends or on neither; its ends are
      velocities that occur in the histogram, and the minimum does not exceed the
      maximum. */
  lemma RangeOrdered(counts: seq<nat>, o: RangeOptions)
    ensures var r := DynamicRangeOf(counts, o);
      (r.min.Some? <==> r.max.Some?) &&
      (r.min.Some? ==> 0 <= r.min.value <= r.max.value < |counts| && counts[r.min.value] > 0 && counts[r.max.value] > 0)
  {
    var splits := Splits(counts);
    var from, to := TrimWindow(splits, |splits|, o.cutLightestScale, o.cutHeaviestScale);
    if from < to {
      SplitsMember(counts, from);
      SplitsMember(counts, to - 1);
      SplitsOrdered(counts, from, to - 1);
    }
  }

  lemma SplitsMember(counts: seq<nat>, i: nat)
    requires i < |Splits(counts)|
    ensures Splits(counts)[i] < |counts| && counts[Splits(counts)[i]] > 0
  {
    var x := Splits(counts)[i];
    assert x in Splits(counts);
    SplitsSorted(counts);
    SplitsCount(counts, x);
  }

  lemma SplitsOrdered(counts: seq<nat>, i: nat, j: nat)
    requires i <= j < |Splits(counts)|
    ensures Splits(counts)[i] <= Splits(counts)[j]
  {
    SplitsSorted(counts);
  }

  /** With the default fractions the intended range is defined iff some counter is positive. */
  lemma DefaultRangeDefined(counts: seq<nat>)
    ensures DynamicRangeOf(counts, DefaultRangeOptions).min.Some? <==> exists v :: 0 <= v < |counts| && counts[v] > 0
  {
    SplitsNonEmpty(counts);
    if Splits(counts) != [] {
      RangeCutsLeaveOne(|Splits(counts)|);
    }
  }

  // ---------------------------------------------------------------------------
  // A sheet that sounds

  /** Some counted note-on (a note-on with a velocity above 0) is among `s`. */
  predicate AnyCounted(s: seq<MidiEvent>) {
    exists e :: e in s && Velocity.Counted(e)
  }

  predicate AnyNonZero(s: seq<nat>) {
    exists i :: 0 <= i < |s| && s[i] != 0
  }

  /** A group's peak is positive iff the group holds a counted note-on. */
  lemma PeakPositive(es: seq<MidiEvent>)
    ensures Peak(es) > 0 <==> AnyCounted(es)
  {
    if Peak(es) > 0 {
      var i :| 0 <= i < |es| && IsNoteOn(es[i]) && es[i].event.velocity == Peak(es);
      assert Velocity.Counted(es[i]);
    }
    if AnyCounted(es) {
      var e :| e in es && Velocity.Counted(e);
      var i :| 0 <= i < |es| && es[i] == e;
      assert es[i].event.velocity <= Peak(es);
    }
  }

  lemma AnyNonZeroSnoc(s: seq<nat>, x: nat)
    ensures AnyNonZero(s + [x]) <==> AnyNonZero(s) || x != 0
  {
    if AnyNonZero(s) {
      var i :| 0 <= i < |s| && s[i] != 0;
      assert (s + [x])[i] == s[i];
    }
    if x != 0 {
      assert (s + [x])[|s|] == x;
    }
    if AnyNonZero(s + [x]) {
      var i :| 0 <= i < |s + [x]| && (s + [x])[i] != 0;
      if i < |s| {
        assert s[i] == (s + [x])[i];
      }
    }
  }

  /** Some session peak is positive iff some group holds a counted note-on. */
  lemma {:induction false} PeaksPositive(gs: seq<MidiGroup>)
    ensures AnyNonZero(Peaks(gs)) <==> AnyCounted(Grouping.Concat(gs))
  {
    if gs != [] {
      var init := gs[..|gs| - 1];
      var last := gs[|gs| - 1].events;
      PeaksPositive(init);
      PeakPositive(last);
      AnyNonZeroSnoc(Peaks(init), Peak(last));
      assert Grouping.Concat(gs) == Grouping.Concat(init) + last;
    }
  }

  /** Every session peak is a MIDI velocity. */
  lemma {:induction false} PeaksBelow128(gs: seq<MidiGroup>)
    ensures forall x :: x in Peaks(gs) ==> x < 128
  {
    if gs != [] {
      PeaksBelow128(gs[..|gs| - 1]);
      var es := gs[|gs| - 1].events;
      if Peak(es) != 0 {
        var i :| 0 <= i < |es| && IsNoteOn(es[i]) && es[i].event.velocity == Peak(es);
      }
    }
  }

  /** A velocity's counter is positive iff a counted note-on has that velocity. */
  lemma {:induction false} CountOfPositive(s: seq<MidiEvent>, v: int)
    ensures Velocity.CountOf(s, v) > 0 <==> exists e :: e in s && Velocity.Counted(e) && e.event.velocity == v
  {
    if s != [] {
      CountOfPositive(s[..|s| - 1], v);
      assert s == s[..|s| - 1] + [s[|s| - 1]];
    }
  }

  /** Some counter of the histogram is positive iff a counted note-on exists. */
  lemma CountsPositive(s: seq<MidiEvent>)
    ensures (exists v :: 0 <= v < |Counts(s)| && Counts(s)[v] > 0) <==> AnyCounted(s)
  {
    if AnyCounted(s) {
      var e :| e in s && Velocity.Counted(e);
      CountOfPositive(s, e.event.velocity);
      assert Counts(s)[e.event.velocity] > 0;
    }
    if exists v :: 0 <= v < |Counts(s)| && Counts(s)[v] > 0 {
      var v :| 0 <= v < |Counts(s)| && Counts(s)[v] > 0;
      CountOfPositive(s, v);
    }
  }

  /** On a tick-sorted sheet (midiParser's output is one), the default-option mean
      velocity and both ends of the default dynamic range are defined iff some
      note-on sounds. */
  lemma SoundingSheet(sheet: MidiSheet)
    requires sheet.ticksPerBeat > 0 && TicksSorted(sheet.sequence)
    ensures MeanVelocity(sheet, DefaultMeanOptions).Some? <==> AnyCounted(sheet.sequence)
    ensures var r := DynamicRangeOf(Counts(sheet.sequence), DefaultRangeOptions);
      (r.min.Some? <==> AnyCounted(sheet.sequence)) && (r.max.Some? <==> AnyCounted(sheet.sequence))
  {
    var gs := Grouping.MidiGroups(sheet, DefaultMeanOptions.mergeMilliseconds);
    Grouping.MidiGroupsKeepEvents(sheet, DefaultMeanOptions.mergeMilliseconds);
    PeaksPositive(gs);
    DefaultMeanDefined(Peaks(gs));
    CountsPositive(sheet.sequence);
    DefaultRangeDefined(Counts(sheet.sequence));
    RangeOrdered(Counts(sheet.sequence), DefaultRangeOptions);
  }

  /** The intended mean of peaks that are MIDI velocities is a sounding MIDI velocity. */
  lemma MeanOfPeaksBounds(peaks: seq<nat>, lightest: real, heaviest: real)
    requires forall x :: x in peaks ==> x < 128
    ensures MeanOfPeaks(peaks, lightest, heaviest).Some? ==> 1 <= MeanOfPeaks(peaks, lightest, heaviest).value <= 127
  {
    var mean := MeanOfPeaks(peaks, lightest, heaviest);
    MeanOfPeaksWindow(peaks, lightest, heaviest);
    var nz := NonZero(peaks);
    var t := SortWith(nz, NumLe);
    if mean.Some? {
      var i, j :| 0 <= i <= j < |t| && t[i] <= mean.value <= t[j];
      var lo, hi := t[i], t[j];
      assert lo in multiset(t) && hi in multiset(t);
      assert lo in nz && hi in nz;
      assert lo in peaks && lo != 0 && hi in peaks;
    }
  }

  /** The intended mean velocity, when defined, is a sounding MIDI velocity. */
  lemma MeanVelocityBounds(sheet: MidiSheet, o: MeanOptions)
    requires sheet.ticksPerBeat > 0
    ensures MeanVelocity(sheet, o).Some? ==> 1 <= MeanVelocity(sheet, o).value <= 127
  {
    var gs := Grouping.MidiGroups(sheet, o.mergeMilliseconds);
    PeaksBelow128(gs);
    MeanOfPeaksBounds(Peaks(gs), o.cutLightestScale, o.cutHeaviestScale);
  }

  /** getVelocityMap on a tick-sorted sheet: with a sounding note-on, the mean
      velocity maps to the main target and every other entry 1..128 is a valid
      velocity; without one, every entry but the first is the main target. */
  lemma VelocityMapOfSheet(sheet: MidiSheet, o: Velocity.MapOptions)
    requires sheet.ticksPerBeat > 0 && TicksSorted(sheet.sequence)
    ensures var m := VelocityMap(sheet, o);
      |m| == 129 && m[0] == 0 &&
      (AnyCounted(sheet.sequence) ==>
        exists v :: 1 <= v < 129 && m[v] == o.mainVelocity && forall i :: 1 <= i < 129 && i != v ==> 1 <= m[i] <= 127) &&
      (!AnyCounted(sheet.sequence) ==> forall i :: 1 <= i < 129 ==> m[i] == o.mainVelocity)
  {
    SoundingSheet(sheet);
    MeanVelocityBounds(sheet, DefaultMeanOptions);
  }

  // ---------------------------------------------------------------------------
  // The code as written

  lemma SortPair<T>(x: T, y: T, le: (T, T) -> bool)
    ensures SortWith([x, y], le) == if le(x, y) then [x, y] else [y, x]
  {
    assert [x, y][1..] == [y] && [y][1..] == [];
    assert SortWith([y], le) == Insert(y, [], le) == [y];
    assert SortWith([x, y], le) == Insert(x, [y], le);
    if !le(x, y) {
      assert Insert(x, [y], le) == [y] + Insert(x, [], le);
    }
  }

  lemma InsertAfterTwo<T>(x: T, a: T, b: T, le: (T, T) -> bool)
    requires !le(x, a) && !le(x, b)
    ensures Insert(x, [a, b], le) == [a, b, x]
  {
    assert [a, b][1..] == [b] && [b][1..] == [];
    assert Insert(x, [b], le) == [b] + Insert(x, [], le) == [b, x];
    assert Insert(x, [a, b], le) == [a] + Insert(x, [b], le);
  }

  /** String order on the decimal forms used below: "5" sorts after "20" and "30",
      "10" before "9". */
  lemma StringOrderFacts()
    ensures !DefaultLe(5, 20) && !DefaultLe(5, 30) && DefaultLe(20, 30) && DefaultLe(40, 80) && !DefaultLe(9, 10)
  {
    assert Digits(20) == [2, 0] && Digits(30) == [3, 0] && Digits(40) == [4, 0] && Digits(80) == [8, 0];
    assert Digits(10) == [1, 0] && Digits(5) == [5] && Digits(9) == [9];
    assert [2, 0][1..] == [0] && [3, 0][1..] == [0] && [4, 0][1..] == [0] && [8, 0][1..] == [0];
    assert [0][1..] == [];
  }

  lemma {:induction false} NonZeroAppend(a: seq<nat>, b: seq<nat>)
    ensures NonZero(a + b) == NonZero(a) + NonZero(b)
  {
    if b == [] {
      assert a + b == a;
    } else {
      assert (a + b)[..|a + b| - 1] == a + b[..|b| - 1];
      assert (a + b)[|a + b| - 1] == b[|b| - 1];
      NonZeroAppend(a, b[..|b| - 1]);
    }
  }

  lemma SumTwo(x: nat, y: nat)
    ensures Sum([x, y]) == x + y
  {
    assert [x, y][..1] == [x];
    assert [x][..0] == [];
    assert Sum([x]) == Sum([]) + x;
    assert Sum([x, y]) == Sum([x]) + y;
  }


  lemma ThreePeaksNonZero(peaks: seq<nat>)
    requires peaks == [5, 20, 30]
    ensures NonZero(peaks) == peaks
  {
    NonZeroAppend([5], [20, 30]);
    NonZeroAppend([20], [30]);
    assert [5] + [20, 30] == peaks && [20] + [30] == [20, 30];
    assert NonZero([5]) == [5] && NonZero([20]) == [20] && NonZero([30]) == [30];
  }

  lemma ThreePeaksByString(peaks: seq<nat>)
    requires peaks == [5, 20, 30]
    ensures SortWith(peaks, DefaultLe) == [20, 30, 5]
  {
    StringOrderFacts();
    assert peaks[1..] == [20, 30];
    SortPair<nat>(20, 30, DefaultLe);
    assert SortWith(peaks, DefaultLe) == Insert<nat>(5, [20, 30], DefaultLe);
    InsertAfterTwo<nat>(5, 20, 30, DefaultLe);
  }

  lemma ThreePeaksByNumber(peaks: seq<nat>)
    requires peaks == [5, 20, 30]
    ensures SortWith(peaks, NumLe) == peaks
  {
    assert peaks[1..] == [20, 30];
    SortPair<nat>(20, 30, NumLe);
    assert SortWith(peaks, NumLe) == Insert<nat>(5, [20, 30], NumLe);
    assert [20, 30][1..] == [30] && [30][1..] == [];
    assert Insert<nat>(5, [20, 30], NumLe) == [5, 20, 30];
  }

  /** Three sessions peaking at 5, 20 and 30: string order puts 5 last, so the
      as-written trim keeps the lightest session and drops 20, giving 18 instead of 25. */
  lemma MeanStringOrderCounterexample(peaks: seq<nat>)
    requires peaks == [5, 20, 30]
    ensures TrimmedAsWritten(peaks, 0.3, 0.1) == [30, 5]
    ensures MeanOfPeaksAsWritten(peaks, 0.3, 0.1) == Some(18)
    ensures Trimmed(peaks, 0.3, 0.1) == [20, 30]
    ensures MeanOfPeaks(peaks, 0.3, 0.1) == Some(25)
  {
    ThreePeaksNonZero(peaks);
    ThreePeaksByString(peaks);
    ThreePeaksByNumber(peaks);
    var byString := SortWith(peaks, DefaultLe);
    var byNumber := SortWith(peaks, NumLe);
    assert Velocity.Round(3 as real * 0.3) == 1 && Velocity.Round(3 as real * 0.1) == 0;
    assert Trim(byString, 3, 0.3, 0.1) == Slice(byString, 1, 3) == [30, 5];
    assert Trim(byNumber, 3, 0.3, 0.1) == Slice(byNumber, 1, 3) == [20, 30];
    SumTwo(30, 5);
    SumTwo(20, 30);
    assert Velocity.Round(35 as real / 2 as real) == 18;
    assert Velocity.Round(50 as real / 2 as real) == 25;
  }

  lemma SilentNonZero(peaks: seq<nat>)
    requires peaks == [0, 0, 0, 40, 80]
    ensures NonZero(peaks) == [40, 80]
  {
    var zeros: seq<nat> := [0, 0, 0];
    var nz: seq<nat> := [40, 80];
    NonZeroOfZeros(zeros);
    NonZeroAppend(zeros, nz);
    NonZeroAppend([40], [80]);
    assert zeros + nz == peaks && [40] + [80] == nz;
    assert NonZero([40]) == [40] && NonZero([80]) == [80];
  }

  /** Sessions peaking at 0, 0, 0, 40 and 80: the trim bounds come from all five
      sessions but cut the two sounding ones, so the as-written mean is NaN. */
  lemma MeanSilentSessionsCounterexample(peaks: seq<nat>)
    requires peaks == [0, 0, 0, 40, 80]
    ensures MeanOfPeaksAsWritten(peaks, 0.3, 0.1) == None
    ensures MeanOfPeaks(peaks, 0.3, 0.1) == Some(80)
  {
    var nz: seq<nat> := [40, 80];
    SilentNonZero(peaks);
    StringOrderFacts();
    SortPair<nat>(40, 80, DefaultLe);
    SortPair<nat>(40, 80, NumLe);
    assert Velocity.Round(5 as real * 0.3) == 2 && Velocity.Round(5 as real * 0.1) == 1;
    assert Velocity.Round(2 as real * 0.3) == 1 && Velocity.Round(2 as real * 0.1) == 0;
    assert Trim(nz, 5, 0.3, 0.1) == Slice(nz, 2, 4) == [];
    assert Trim(nz, 2, 0.3, 0.1) == Slice(nz, 1, 2) == [80];
    assert Sum([80]) == 80;
    assert Velocity.Round(80 as real / 1 as real) == 80;
  }

  /** `k` zero counters. */
  function Zeros(k: nat): (r: seq<nat>)
    ensures |r| == k
  {
    seq(k, _ => 0)
  }

  /** Trailing zero counters add no samples. */
  lemma {:induction false} SplitsZeros(counts: seq<nat>, k: nat)
    ensures Splits(counts + Zeros(k)) == Splits(counts)
  {
    if k > 0 {
      assert counts + Zeros(k) == (counts + Zeros(k - 1)) + [0];
      assert (counts + Zeros(k))[..|counts + Zeros(k)| - 1] == counts + Zeros(k - 1);
      assert (counts + Zeros(k))[|counts + Zeros(k)| - 1] == 0;
      SplitsZeros(counts, k - 1);
    } else {
      assert counts + Zeros(k) == counts;
    }
  }

  /** One more counter adds its velocity as often as it counts. */
  lemma SplitsSnoc(front: seq<nat>, c: nat)
    ensures Splits(front + [c]) == Splits(front) + Repeat(|front|, c)
  {
    assert (front + [c])[..|front|] == front;
  }

  /** The samples of a histogram counting velocities 9 and 10 once each. */
  lemma NineAndTenSamples(counts: seq<nat>)
    requires counts == Zeros(9) + [1, 1] + Zeros(117)
    ensures |counts| == 128 && Splits(counts) == [9, 10]
  {
    var silent := Zeros(9);
    var nine := silent + [1];
    var front := nine + [1];
    assert counts == front + Zeros(117);
    SplitsZeros(front, 117);
    SplitsZeros([], 9);
    assert [] + silent == silent;
    SplitsSnoc(silent, 1);
    SplitsSnoc(nine, 1);
    assert Repeat(9, 1) == [9] && Repeat(10, 1) == [10];
  }

  /** The samples of a histogram counting velocity 64 once. */
  lemma OneSample(counts: seq<nat>)
    requires counts == Zeros(64) + [1] + Zeros(63)
    ensures |counts| == 128 && Splits(counts) == [64]
  {
    var silent := Zeros(64);
    var front := silent + [1];
    SplitsZeros(front, 63);
    SplitsZeros([], 64);
    assert [] + silent == silent;
    SplitsSnoc(silent, 1);
    assert Repeat(64, 1) == [64];
  }

  /** A histogram whose only sounding velocities are 9 and 10, once each: string
      order sorts 10 before 9, so the as-written range has min 10 above max 9. */
  lemma RangeStringOrderCounterexample(counts: seq<nat>)
    requires counts == Zeros(9) + [1, 1] + Zeros(117)
    ensures |counts| == 128
    ensures RangeAsWritten(counts, DefaultRangeOptions) == Range(Some(10), Some(9))
    ensures DynamicRangeOf(counts, DefaultRangeOptions) == Range(Some(9), Some(10))
  {
    NineAndTenSamples(counts);
    var splits := Splits(counts);
    StringOrderFacts();
    SortPair<nat>(9, 10, DefaultLe);
    var byString := SortWith(splits, DefaultLe);
    assert byString == [10, 9];
    assert Velocity.Round(2 as real * 0.01) == 0;
    assert Trim(byString, 2, 0.01, 0.01) == Slice(byString, 0, 2) == [10, 9];
    assert Trim(splits, 2, 0.01, 0.01) == Slice(splits, 0, 2) == [9, 10];
  }

  /** A histogram with a single sounding note-on: `shift()` empties the list, so
      `pop()` finds nothing and the as-written maximum is undefined. */
  lemma RangeSingleSampleCounterexample(counts: seq<nat>)
    requires counts == Zeros(64) + [1] + Zeros(63)
    ensures |counts| == 128
    ensures RangeAsWritten(counts, DefaultRangeOptions) == Range(Some(64), None)
    ensures DynamicRangeOf(counts, DefaultRangeOptions) == Range(Some(64), Some(64))
  {
    OneSample(counts);
    var splits := Splits(counts);
    assert SortWith(splits, DefaultLe) == [64] by {
      assert splits[1..] == [];
    }
    assert Velocity.Round(1 as real * 0.01) == 0;
    assert Trim(splits, 1, 0.01, 0.01) == Slice(splits, 0, 1) == [64];
  }

  // ---------------------------------------------------------------------------
  // What the code as written still guarantees

  lemma {:induction false} StringLeTotal(a: seq<int>, b: seq<int>)
    ensures StringLe(a, b) || StringLe(b, a)
    decreases |a|
  {
    if a != [] && b != [] && a[0] == b[0] {
      StringLeTotal(a[1..], b[1..]);
    }
  }

  lemma {:induction false} StringLeTransitive(a: seq<int>, b: seq<int>, c: seq<int>)
    requires StringLe(a, b) && StringLe(b, c)
    ensures StringLe(a, c)
    decreases |a|
  {
    if a != [] && a[0] == b[0] && b[0] == c[0] {
      StringLeTransitive(a[1..], b[1..], c[1..]);
    }
  }

  /** String order on numbers is total and transitive, so the library sort without a
      comparator orders the numbers as strings. */
  lemma DefaultLeTotalPreorder()
    ensures TotalPreorder(DefaultLe)
  {
    forall a: nat, b: nat ensures DefaultLe(a, b) || DefaultLe(b, a) {
      StringLeTotal(Digits(a), Digits(b));
    }
    forall a: nat, b: nat, c: nat | DefaultLe(a, b) && DefaultLe(b, c) ensures DefaultLe(a, c) {
      StringLeTransitive(Digits(a), Digits(b), Digits(c));
    }
  }

  /** `sort()` without a comparator returns the same numbers in string order. */
  lemma SortByString(s: seq<nat>)
    ensures var t := SortWith(s, DefaultLe);
      multiset(t) == multiset(s) && forall i, j :: 0 <= i < j < |t| ==> DefaultLe(t[i], t[j])
  {
    SortPerm(s, DefaultLe);
    DefaultLeTotalPreorder();
    SortSorted(s, DefaultLe);
  }

  /** Every element of a trim comes from the list it trims. */
  lemma TrimMembers(s: seq<nat>, n: nat, lightest: real, heaviest: real)
    ensures forall x :: x in Trim(s, n, lightest, heaviest) ==> x in s
  {
    var from, to := TrimWindow(s, n, lightest, heaviest);
    forall x | x in Trim(s, n, lightest, heaviest) ensures x in s {
      var k :| 0 <= k < |s[from..to]| && s[from..to][k] == x;
      assert s[from + k] == x;
    }
  }

  /** The as-written list is a window of the non-zero peaks in string order, so it
      holds only non-zero peaks. */
  lemma TrimmedAsWrittenWindow(peaks: seq<nat>, lightest: real, heaviest: real)
    ensures var t := SortWith(NonZero(peaks), DefaultLe);
      multiset(t) == multiset(NonZero(peaks)) &&
      (forall i, j :: 0 <= i < j < |t| ==> DefaultLe(t[i], t[j])) &&
      exists from, to :: 0 <= from <= to <= |t| && TrimmedAsWritten(peaks, lightest, heaviest) == t[from..to]
    ensures forall x :: x in TrimmedAsWritten(peaks, lightest, heaviest) ==> x in peaks && x != 0
  {
    var t := SortWith(NonZero(peaks), DefaultLe);
    SortByString(NonZero(peaks));
    var from, to := TrimWindow(t, |peaks|, lightest, heaviest);
    TrimMembers(t, |peaks|, lightest, heaviest);
    forall x | x in TrimmedAsWritten(peaks, lightest, heaviest) ensures x in peaks && x != 0 {
      assert x in multiset(t);
    }
  }

  /** The as-written mean is defined exactly when its list is not empty, and, over
      MIDI velocities, is then a sounding velocity. */
  lemma MeanOfPeaksAsWrittenBounds(peaks: seq<nat>, lightest: real, heaviest: real)
    requires forall x :: x in peaks ==> x < 128
    ensures var m := MeanOfPeaksAsWritten(peaks, lightest, heaviest);
      (m.Some? <==> TrimmedAsWritten(peaks, lightest, heaviest) != []) &&
      (m.Some? ==> 1 <= m.value <= 127)
  {
    var c := TrimmedAsWritten(peaks, lightest, heaviest);
    TrimmedAsWrittenWindow(peaks, lightest, heaviest);
    if c != [] {
      MeanWithin(c, 1, 127);
    }
  }

  /** getMeanVelocity as written, when it is not NaN, is a sounding MIDI velocity. */
  lemma MeanVelocityAsWrittenBounds(sheet: MidiSheet, o: MeanOptions)
    requires sheet.ticksPerBeat > 0
    ensures MeanVelocityAsWritten(sheet, o).Some? ==> 1 <= MeanVelocityAsWritten(sheet, o).value <= 127
  {
    var gs := Grouping.MidiGroups(sheet, o.mergeMilliseconds);
    PeaksBelow128(gs);
    MeanOfPeaksAsWrittenBounds(Peaks(gs), o.cutLightestScale, o.cutHeaviestScale);
  }

  /** getDynamicRange as written: a maximum only comes with a minimum, and each end
      present is a velocity that occurs in the histogram. The ends need not be
      ordered and the maximum can be missing (see the counterexamples). */
  lemma RangeAsWrittenShape(counts: seq<nat>, o: RangeOptions)
    ensures var r := RangeAsWritten(counts, o);
      (r.max.Some? ==> r.min.Some?) &&
      (r.min.Some? ==> 0 <= r.min.value < |counts| && counts[r.min.value] > 0) &&
      (r.max.Some? ==> 0 <= r.max.value < |counts| && counts[r.max.value] > 0)
  {
    var splits := Splits(counts);
    var t := SortWith(splits, DefaultLe);
    var sorted := Trim(t, |splits|, o.cutLightestScale, o.cutHeaviestScale);
    SortPerm(splits, DefaultLe);
    TrimMembers(t, |splits|, o.cutLightestScale, o.cutHeaviestScale);
    forall x | x in sorted ensures 0 <= x < |counts| && counts[x] > 0 {
      assert x in multiset(splits);
      var i :| 0 <= i < |splits| && splits[i] == x;
      SplitsMember(counts, i);
    }
    if sorted != [] {
      assert sorted[0] in sorted && sorted[|sorted| - 1] in sorted;
    }
  }

  /** With the default cuts the as-written minimum is defined iff some counter is positive. */
  lemma RangeAsWrittenDefined(counts: seq<nat>)
    ensures RangeAsWritten(counts, DefaultRangeOptions).min.Some? <==> exists v :: 0 <= v < |counts| && counts[v] > 0
  {
    var splits := Splits(counts);
    var t := SortWith(splits, DefaultLe);
    SplitsNonEmpty(counts);
    if splits != [] {
      RangeCutsLeaveOne(|splits|);
      var from, to := TrimWindow(t, |splits|, 0.01, 0.01);
    }
  }
}

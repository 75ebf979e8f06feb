/** toMidiGroup (src/test/lib/MidiParser.ts:303-372): the sheet's events bucketed by
    tick, the buckets sorted, delta ticks and milliseconds computed with a running
    milliseconds-per-tick rate, and, above a 4 ms threshold, later groups merged into
    the last emitted one. Milliseconds are reals. */
module Grouping {
  import opened MidiTypes
  import opened StableSort
  import ParserSpec
  import ParserOrder

  /** The comparator `(a, b) => a.ticks - b.ticks` on groups, as a "not after" relation. */
  predicate GroupLe(a: MidiGroup, b: MidiGroup) { a.ticks <= b.ticks }

  /** Some event of `s` sits at tick `t`. */
  predicate HasTick(s: seq<MidiEvent>, t: int) {
    exists i :: 0 <= i < |s| && s[i].ticks == t
  }

  /** Strictly increasing ticks. */
  predicate Increasing(gs: seq<MidiGroup>) {
    forall i, j :: 0 <= i < j < |gs| ==> gs[i].ticks < gs[j].ticks
  }

  /** The events of all groups, group after group. */
  function Concat(gs: seq<MidiGroup>): seq<MidiEvent> {
    if gs == [] then [] else Concat(gs[..|gs| - 1]) + gs[|gs| - 1].events
  }

  // ---------------------------------------------------------------------------
  // Events at a tick

  lemma EventsAtSnoc(s: seq<MidiEvent>, x: MidiEvent, t: int)
    ensures EventsAt(s + [x], t) == EventsAt(s, t) + (if x.ticks == t then [x] else [])
  {
    assert (s + [x])[..|s|] == s;
  }

  lemma {:induction false} EventsAtEmptyIff(s: seq<MidiEvent>, t: int)
    ensures EventsAt(s, t) == [] <==> !HasTick(s, t)
    decreases |s|
  {
    if s != [] {
      var s' := s[..|s| - 1];
      EventsAtEmptyIff(s', t);
      if HasTick(s', t) {
        var i :| 0 <= i < |s'| && s'[i].ticks == t;
        assert s[i].ticks == t;
      }
      if HasTick(s, t) && s[|s| - 1].ticks != t {
        var i :| 0 <= i < |s| && s[i].ticks == t;
        assert s'[i].ticks == t;
      }
    }
  }

  // ---------------------------------------------------------------------------
  // groupDict

  /** The distinct ticks of `s` in order of first occurrence: the key order of
      groupDict (its keys `t<ticks>` are not array indices, so they enumerate in
      insertion order). */
  function Keys(s: seq<MidiEvent>): seq<int>
    decreases |s|
  {
    if s == [] then []
    else
      var ks := Keys(s[..|s| - 1]);
      if s[|s| - 1].ticks in ks then ks else ks + [s[|s| - 1].ticks]
  }

  lemma {:induction false} KeysFacts(s: seq<MidiEvent>)
    ensures forall i, j :: 0 <= i < j < |Keys(s)| ==> Keys(s)[i] != Keys(s)[j]
    ensures forall t :: t in Keys(s) <==> HasTick(s, t)
    decreases |s|
  {
    if s != [] {
      var s' := s[..|s| - 1];
      KeysFacts(s');
      forall t ensures HasTick(s, t) <==> HasTick(s', t) || s[|s| - 1].ticks == t {
        if HasTick(s', t) {
          var i :| 0 <= i < |s'| && s'[i].ticks == t;
          assert s[i].ticks == t;
        }
        if HasTick(s, t) && s[|s| - 1].ticks != t {
          var i :| 0 <= i < |s| && s[i].ticks == t;
          assert s'[i].ticks == t;
        }
      }
    }
  }

  /** The group of tick `t` as groupDict creates and fills it. */
  function Bucket(s: seq<MidiEvent>, t: int): MidiGroup {
    MidiGroup(t, 0, 0.0, EventsAt(s, t))
  }

  /** `groups` before the sort: one per key, in key order. */
  function Buckets(s: seq<MidiEvent>): (gs: seq<MidiGroup>)
    ensures |gs| == |Keys(s)|
  {
    seq(|Keys(s)|, j requires 0 <= j < |Keys(s)| => Bucket(s, Keys(s)[j]))
  }

  lemma KeysSnoc(s: seq<MidiEvent>, x: MidiEvent)
    ensures Keys(s + [x]) == if x.ticks in Keys(s) then Keys(s) else Keys(s) + [x.ticks]
  {
    assert (s + [x])[..|s|] == s;
  }

  /** The first loop: groupDict, with its keys in insertion order. */
  method FillGroupDict(s: seq<MidiEvent>) returns (dict: map<int, MidiGroup>, keys: seq<int>)
    ensures keys == Keys(s)
    ensures forall t :: t in dict <==> t in keys
    ensures forall t :: t in dict ==> dict[t] == Bucket(s, t)
  {
    dict, keys := map[], [];
    for i := 0 to |s|
      invariant keys == Keys(s[..i])
      invariant forall t :: t in dict <==> t in keys
      invariant forall t :: t in dict ==> dict[t] == Bucket(s[..i], t)
    {
      assert s[..i + 1] == s[..i] + [s[i]];
      KeysSnoc(s[..i], s[i]);
      KeysFacts(s[..i]);
      var k := s[i].ticks;
      if k !in dict {
        EventsAtEmptyIff(s[..i], k);
        dict := dict[k := MidiGroup(k, 0, 0.0, [])];
        keys := keys + [k];
      }
      dict := dict[k := dict[k].(events := dict[k].events + [s[i]])];
      forall t | t in dict ensures dict[t] == Bucket(s[..i + 1], t) {
        EventsAtSnoc(s[..i], s[i], t);
      }
    }
    assert s[..|s|] == s;
  }

  /** The first two loops: fill groupDict, then list its values in key order. */
  method BucketByTicks(s: seq<MidiEvent>) returns (gs: seq<MidiGroup>)
    ensures gs == Buckets(s)
  {
    var dict, keys := FillGroupDict(s);
    gs := [];
    for j := 0 to |keys|
      invariant |gs| == j
      invariant forall q :: 0 <= q < j ==> gs[q] == Bucket(s, keys[q])
    {
      assert keys[j] in keys;
      gs := gs + [dict[keys[j]]];
    }
  }

  // ---------------------------------------------------------------------------
  // The sort

  lemma CountAtMostOne<T>(s: seq<T>, x: T)
    requires forall i, j :: 0 <= i < j < |s| ==> s[i] != s[j]
    ensures multiset(s)[x] <= 1
  {
    if s != [] {
      assert s == [s[0]] + s[1..];
      CountAtMostOne(s[1..], x);
      if x == s[0] {
        assert x !in s[1..];
      }
    }
  }

  lemma CountTwo<T>(s: seq<T>, i: int, j: int)
    requires 0 <= i < j < |s| && s[i] == s[j]
    ensures multiset(s)[s[i]] >= 2
  {
    assert s == s[..j] + [s[j]] + s[j + 1..];
    assert s[i] in s[..j];
  }

  /** `g` orders the buckets of `s` by tick, as the stable sort does. */
  ghost predicate SortedBuckets(s: seq<MidiEvent>, g: seq<MidiGroup>) {
    multiset(g) == multiset(Buckets(s)) && SortedBy(g, GroupLe)
  }

  lemma SortIsSortedBuckets(s: seq<MidiEvent>)
    ensures SortedBuckets(s, SortWith(Buckets(s), GroupLe))
  {
    SortPerm(Buckets(s), GroupLe);
    SortSorted(Buckets(s), GroupLe);
  }

  lemma SortedBucketsFrom(s: seq<MidiEvent>, g: seq<MidiGroup>)
    requires SortedBuckets(s, g)
    ensures forall i :: 0 <= i < |g| ==> g[i] == Bucket(s, g[i].ticks) && HasTick(s, g[i].ticks)
  {
    var b := Buckets(s);
    KeysFacts(s);
    forall i | 0 <= i < |g| ensures g[i] == Bucket(s, g[i].ticks) && HasTick(s, g[i].ticks) {
      assert g[i] in multiset(b);
      var j :| 0 <= j < |b| && b[j] == g[i];
      assert Keys(s)[j] in Keys(s);
    }
  }

  lemma SortedBucketsIncreasing(s: seq<MidiEvent>, g: seq<MidiGroup>)
    requires SortedBuckets(s, g)
    ensures Increasing(g)
  {
    var b := Buckets(s);
    SortedBucketsFrom(s, g);
    KeysFacts(s);
    forall i, j | 0 <= i < j < |b| ensures b[i] != b[j] {
      assert b[i].ticks == Keys(s)[i] && b[j].ticks == Keys(s)[j];
    }
    forall i, j | 0 <= i < j < |g| ensures g[i].ticks < g[j].ticks {
      assert GroupLe(g[i], g[j]);
      if g[i].ticks == g[j].ticks {
        CountTwo(g, i, j);
        CountAtMostOne(b, g[i]);
      }
    }
  }

  lemma SortedBucketsCover(s: seq<MidiEvent>, g: seq<MidiGroup>, t: int)
    requires SortedBuckets(s, g) && HasTick(s, t)
    ensures exists i :: 0 <= i < |g| && g[i].ticks == t
  {
    var b := Buckets(s);
    KeysFacts(s);
    var j :| 0 <= j < |Keys(s)| && Keys(s)[j] == t;
    assert b[j] in multiset(g);
    var i :| 0 <= i < |g| && g[i] == b[j];
  }

  // ---------------------------------------------------------------------------
  // deltaTicks

  /** `v.deltaTicks = v.ticks - a[i - 1].ticks` for every group but the first. */
  function WithDeltaTicks(gs: seq<MidiGroup>): (r: seq<MidiGroup>)
    ensures |r| == |gs|
  {
    seq(|gs|, i requires 0 <= i < |gs| => if i == 0 then gs[i] else gs[i].(deltaTicks := gs[i].ticks - gs[i - 1].ticks))
  }

  method SetDeltaTicks(gs: seq<MidiGroup>) returns (r: seq<MidiGroup>)
    ensures r == WithDeltaTicks(gs)
  {
    r := [];
    for i := 0 to |gs|
      invariant r == WithDeltaTicks(gs)[..i]
    {
      ghost var w := WithDeltaTicks(gs);
      assert w[..i + 1] == w[..i] + [w[i]];
      if i == 0 {
        r := r + [gs[i]];
      } else {
        r := r + [gs[i].(deltaTicks := gs[i].ticks - r[i - 1].ticks)];
      }
    }
    assert WithDeltaTicks(gs)[..|gs|] == WithDeltaTicks(gs);
  }

  /** The groups of `s` before any timing: one per distinct tick, sorted, with delta ticks. */
  function Grouped(s: seq<MidiEvent>): seq<MidiGroup> {
    WithDeltaTicks(SortWith(Buckets(s), GroupLe))
  }

  lemma WithDeltaTicksKeeps(gs: seq<MidiGroup>)
    ensures forall i {:trigger WithDeltaTicks(gs)[i]} :: 0 <= i < |gs| ==>
      var r := WithDeltaTicks(gs)[i];
      r.ticks == gs[i].ticks && r.events == gs[i].events && r.deltaMilliseconds == gs[i].deltaMilliseconds &&
      r.deltaTicks == if i == 0 then gs[i].deltaTicks else gs[i].ticks - gs[i - 1].ticks
  {
  }

  lemma DeltaGroupsEvents(s: seq<MidiEvent>, g: seq<MidiGroup>, r: seq<MidiGroup>)
    requires SortedBuckets(s, g) && r == WithDeltaTicks(g)
    ensures forall i :: 0 <= i < |r| ==>
      r[i].events == EventsAt(s, r[i].ticks) && r[i].events != [] && r[i].deltaMilliseconds == 0.0 && HasTick(s, r[i].ticks)
  {
    SortedBucketsFrom(s, g);
    WithDeltaTicksKeeps(g);
    forall i | 0 <= i < |r|
      ensures r[i].events == EventsAt(s, r[i].ticks) && r[i].events != [] && r[i].deltaMilliseconds == 0.0 && HasTick(s, r[i].ticks)
    {
      assert r[i].ticks == g[i].ticks && r[i].events == g[i].events;
      EventsAtEmptyIff(s, g[i].ticks);
    }
  }

  lemma DeltaGroupsIncreasing(s: seq<MidiEvent>, g: seq<MidiGroup>, r: seq<MidiGroup>)
    requires SortedBuckets(s, g) && r == WithDeltaTicks(g)
    ensures Increasing(r)
  {
    SortedBucketsIncreasing(s, g);
    WithDeltaTicksKeeps(g);
  }

  lemma DeltaGroupsCover(s: seq<MidiEvent>, g: seq<MidiGroup>, r: seq<MidiGroup>, t: int)
    requires SortedBuckets(s, g) && r == WithDeltaTicks(g) && HasTick(s, t)
    ensures exists i :: 0 <= i < |r| && r[i].ticks == t
  {
    SortedBucketsCover(s, g, t);
    WithDeltaTicksKeeps(g);
    var i :| 0 <= i < |g| && g[i].ticks == t;
    assert r[i].ticks == t;
  }

  lemma DeltaGroupsDeltaTicks(s: seq<MidiEvent>, g: seq<MidiGroup>, r: seq<MidiGroup>)
    requires SortedBuckets(s, g) && r == WithDeltaTicks(g)
    ensures forall i {:trigger r[i]} :: 0 <= i < |r| ==> r[i].deltaTicks == if i == 0 then 0 else r[i].ticks - r[i - 1].ticks
  {
    SortedBucketsFrom(s, g);
    WithDeltaTicksKeeps(g);
    forall i | 0 <= i < |r| ensures r[i].deltaTicks == if i == 0 then 0 else r[i].ticks - r[i - 1].ticks {
      if i == 0 {
        assert g[0] == Bucket(s, g[0].ticks);
      } else {
        assert r[i - 1].ticks == g[i - 1].ticks;
      }
    }
  }

  /** toMidiGroup's grouping: one group per distinct tick and no other, in strictly
      increasing tick order, each holding exactly the events at its tick in sequence
      order, with the delta to its predecessor (0 for the first) and no milliseconds yet. */
  lemma GroupedByTick(s: seq<MidiEvent>)
    ensures Increasing(Grouped(s))
    ensures forall t :: HasTick(s, t) <==> exists i :: 0 <= i < |Grouped(s)| && Grouped(s)[i].ticks == t
    ensures forall i :: 0 <= i < |Grouped(s)| ==>
      Grouped(s)[i].events == EventsAt(s, Grouped(s)[i].ticks) && Grouped(s)[i].events != [] && Grouped(s)[i].deltaMilliseconds == 0.0
    ensures forall i {:trigger Grouped(s)[i]} :: 0 <= i < |Grouped(s)| ==>
      Grouped(s)[i].deltaTicks == if i == 0 then 0 else Grouped(s)[i].ticks - Grouped(s)[i - 1].ticks
  {
    GroupedIncreasing(s);
    GroupedCover(s);
    GroupedEvents(s);
    GroupedDeltaTicks(s);
  }

  lemma GroupedIncreasing(s: seq<MidiEvent>)
    ensures Increasing(Grouped(s))
  {
    SortIsSortedBuckets(s);
    DeltaGroupsIncreasing(s, SortWith(Buckets(s), GroupLe), Grouped(s));
  }

  lemma GroupedCover(s: seq<MidiEvent>)
    ensures forall t :: HasTick(s, t) <==> exists i :: 0 <= i < |Grouped(s)| && Grouped(s)[i].ticks == t
  {
    SortIsSortedBuckets(s);
    DeltaGroupsCoverIff(s, SortWith(Buckets(s), GroupLe), Grouped(s));
  }

  lemma GroupedEvents(s: seq<MidiEvent>)
    ensures forall i :: 0 <= i < |Grouped(s)| ==>
      Grouped(s)[i].events == EventsAt(s, Grouped(s)[i].ticks) && Grouped(s)[i].events != [] && Grouped(s)[i].deltaMilliseconds == 0.0
  {
    SortIsSortedBuckets(s);
    DeltaGroupsEvents(s, SortWith(Buckets(s), GroupLe), Grouped(s));
  }

  lemma GroupedDeltaTicks(s: seq<MidiEvent>)
    ensures forall i {:trigger Grouped(s)[i]} :: 0 <= i < |Grouped(s)| ==>
      Grouped(s)[i].deltaTicks == if i == 0 then 0 else Grouped(s)[i].ticks - Grouped(s)[i - 1].ticks
  {
    SortIsSortedBuckets(s);
    DeltaGroupsDeltaTicks(s, SortWith(Buckets(s), GroupLe), Grouped(s));
  }

  lemma DeltaGroupsCoverIff(s: seq<MidiEvent>, g: seq<MidiGroup>, r: seq<MidiGroup>)
    requires SortedBuckets(s, g) && r == WithDeltaTicks(g)
    ensures forall t :: HasTick(s, t) <==> exists i :: 0 <= i < |r| && r[i].ticks == t
  {
    DeltaGroupsEvents(s, g, r);
    forall t ensures HasTick(s, t) <==> exists i :: 0 <= i < |r| && r[i].ticks == t {
      if HasTick(s, t) {
        DeltaGroupsCover(s, g, r, t);
      }
    }
  }

  // ---------------------------------------------------------------------------
  // Nothing lost, nothing duplicated

  lemma {:induction false} ConcatAppend(a: seq<MidiGroup>, b: seq<MidiGroup>)
    ensures Concat(a + b) == Concat(a) + Concat(b)
    decreases |b|
  {
    if b == [] {
      assert a + b == a;
    } else {
      var b' := b[..|b| - 1];
      var x := b[|b| - 1];
      assert (a + b)[..|a + b| - 1] == a + b' && (a + b)[|a + b| - 1] == x;
      assert Concat(a + b) == Concat(a + b') + x.events;
      assert Concat(b) == Concat(b') + x.events;
      ConcatAppend(a, b');
    }
  }

  lemma {:induction false} ConcatSameEvents(a: seq<MidiGroup>, b: seq<MidiGroup>)
    requires |a| == |b| && forall i :: 0 <= i < |a| ==> a[i].events == b[i].events
    ensures Concat(a) == Concat(b)
    decreases |a|
  {
    if a != [] {
      ConcatSameEvents(a[..|a| - 1], b[..|b| - 1]);
    }
  }

  /** The events of `s` tick by tick, for the ticks `ts` in order. */
  function Flat(s: seq<MidiEvent>, ts: seq<int>): seq<MidiEvent> {
    if ts == [] then [] else Flat(s, ts[..|ts| - 1]) + EventsAt(s, ts[|ts| - 1])
  }

  /** `ts` lists exactly the ticks of `s`, ascending. */
  ghost predicate TickList(s: seq<MidiEvent>, ts: seq<int>) {
    (forall i, j :: 0 <= i < j < |ts| ==> ts[i] < ts[j]) &&
    (forall t :: HasTick(s, t) <==> t in ts)
  }

  lemma {:induction false} FlatNothing(s: seq<MidiEvent>, ts: seq<int>)
    requires s == []
    ensures Flat(s, ts) == []
    decreases |ts|
  {
    if ts != [] {
      FlatNothing(s, ts[..|ts| - 1]);
    }
  }

  /** An event at none of the ticks `ts` adds nothing to Flat. */
  lemma {:induction false} FlatSnocOther(s: seq<MidiEvent>, x: MidiEvent, ts: seq<int>)
    requires x.ticks !in ts
    ensures Flat(s + [x], ts) == Flat(s, ts)
    decreases |ts|
  {
    if ts != [] {
      FlatSnocOther(s, x, ts[..|ts| - 1]);
      EventsAtSnoc(s, x, ts[|ts| - 1]);
    }
  }

  /** On a tick-sorted sequence the last tick of the list is the last event's. */
  lemma LastTick(s: seq<MidiEvent>, ts: seq<int>)
    requires TicksSorted(s) && TickList(s, ts) && s != []
    ensures ts != [] && ts[|ts| - 1] == s[|s| - 1].ticks
  {
    var x := s[|s| - 1];
    assert HasTick(s, x.ticks);
    var m := |ts|;
    assert ts[m - 1] in ts;
    var k :| 0 <= k < |s| && s[k].ticks == ts[m - 1];
    var j :| 0 <= j < m && ts[j] == x.ticks;
    assert s[k].ticks <= x.ticks;
  }

  /** Dropping the last event, alone at its tick, drops the last tick. */
  lemma DropLastTick(s: seq<MidiEvent>, ts: seq<int>)
    requires TicksSorted(s) && TickList(s, ts) && s != []
    requires !HasTick(s[..|s| - 1], s[|s| - 1].ticks)
    ensures ts != [] && TickList(s[..|s| - 1], ts[..|ts| - 1])
  {
    var x, s' := s[|s| - 1], s[..|s| - 1];
    LastTick(s, ts);
    var ts' := ts[..|ts| - 1];
    forall t ensures HasTick(s', t) <==> t in ts' {
      if HasTick(s', t) {
        var k :| 0 <= k < |s'| && s'[k].ticks == t;
        assert s[k].ticks == t;
        assert t in ts;
        var j :| 0 <= j < |ts| && ts[j] == t;
        assert ts'[j] == t;
      }
      if t in ts' {
        var j :| 0 <= j < |ts'| && ts'[j] == t;
        assert ts[j] == t && t in ts;
        var k :| 0 <= k < |s| && s[k].ticks == t;
        assert s'[k].ticks == t;
      }
    }
  }

  /** Dropping the last event, not alone at its tick, keeps the ticks. */
  lemma KeepLastTick(s: seq<MidiEvent>, ts: seq<int>)
    requires TickList(s, ts) && s != []
    requires HasTick(s[..|s| - 1], s[|s| - 1].ticks)
    ensures TickList(s[..|s| - 1], ts)
  {
    var x, s' := s[|s| - 1], s[..|s| - 1];
    forall t ensures HasTick(s', t) <==> HasTick(s, t) {
      if HasTick(s', t) {
        var k :| 0 <= k < |s'| && s'[k].ticks == t;
        assert s[k].ticks == t;
      }
      if HasTick(s, t) {
        var k :| 0 <= k < |s| && s[k].ticks == t;
        if k < |s'| {
          assert s'[k].ticks == t;
        }
      }
    }
  }

  /** A tick-sorted sequence is its events tick by tick. */
  lemma {:induction false} FlatTickList(s: seq<MidiEvent>, ts: seq<int>)
    requires TicksSorted(s) && TickList(s, ts)
    ensures Flat(s, ts) == s
    decreases |s|, 1
  {
    if s == [] {
      FlatNothing(s, ts);
    } else if HasTick(s[..|s| - 1], s[|s| - 1].ticks) {
      FlatKeepCase(s, ts);
    } else {
      FlatDropCase(s, ts);
    }
  }

  /** The step of FlatTickList when another event shares the last tick. */
  lemma {:induction false} FlatKeepCase(s: seq<MidiEvent>, ts: seq<int>)
    requires TicksSorted(s) && TickList(s, ts) && s != [] && HasTick(s[..|s| - 1], s[|s| - 1].ticks)
    ensures Flat(s, ts) == s
    decreases |s|, 0
  {
    var s' := s[..|s| - 1];
    KeepStep(s, ts);
    FlatTickList(s', ts);
  }

  /** The step of FlatTickList when the last event is alone at its tick. */
  lemma {:induction false} FlatDropCase(s: seq<MidiEvent>, ts: seq<int>)
    requires TicksSorted(s) && TickList(s, ts) && s != [] && !HasTick(s[..|s| - 1], s[|s| - 1].ticks)
    ensures Flat(s, ts) == s
    decreases |s|, 0
  {
    var s' := s[..|s| - 1];
    var ts' := DropStep(s, ts);
    FlatTickList(s', ts');
  }

  lemma TicksSortedInit(s: seq<MidiEvent>)
    requires TicksSorted(s) && s != []
    ensures TicksSorted(s[..|s| - 1])
  {
  }

  lemma KeepStep(s: seq<MidiEvent>, ts: seq<int>)
    requires TicksSorted(s) && TickList(s, ts) && s != [] && HasTick(s[..|s| - 1], s[|s| - 1].ticks)
    ensures TicksSorted(s[..|s| - 1]) && TickList(s[..|s| - 1], ts)
    ensures Flat(s, ts) == s <== Flat(s[..|s| - 1], ts) == s[..|s| - 1]
  {
    var x, s' := s[|s| - 1], s[..|s| - 1];
    FlatLast(s, ts);
    KeepLastTick(s, ts);
    TicksSortedInit(s);
    assert s == s' + [x];
  }

  lemma DropStep(s: seq<MidiEvent>, ts: seq<int>) returns (ts': seq<int>)
    requires TicksSorted(s) && TickList(s, ts) && s != [] && !HasTick(s[..|s| - 1], s[|s| - 1].ticks)
    ensures ts != [] && ts' == ts[..|ts| - 1] && TicksSorted(s[..|s| - 1]) && TickList(s[..|s| - 1], ts')
    ensures Flat(s, ts) == s <== Flat(s[..|s| - 1], ts') == s[..|s| - 1]
  {
    var x, s' := s[|s| - 1], s[..|s| - 1];
    FlatLast(s, ts);
    EventsAtEmptyIff(s', x.ticks);
    DropLastTick(s, ts);
    TicksSortedInit(s);
    ts' := ts[..|ts| - 1];
    assert s == s' + [x];
  }

  /** Flat over the last tick splits off the last event. */
  lemma FlatLast(s: seq<MidiEvent>, ts: seq<int>)
    requires TicksSorted(s) && TickList(s, ts) && s != []
    ensures ts != [] && ts[|ts| - 1] == s[|s| - 1].ticks
    ensures Flat(s, ts) == Flat(s[..|s| - 1], ts[..|ts| - 1]) + EventsAt(s[..|s| - 1], s[|s| - 1].ticks) + [s[|s| - 1]]
  {
    var x, s' := s[|s| - 1], s[..|s| - 1];
    assert s == s' + [x];
    LastTick(s, ts);
    var ts' := ts[..|ts| - 1];
    assert x.ticks !in ts' by {
      forall j | 0 <= j < |ts'| ensures ts'[j] != x.ticks {
        assert ts[j] < ts[|ts| - 1];
      }
    }
    FlatSnocOther(s', x, ts');
    EventsAtSnoc(s', x, x.ticks);
  }

  /** The ticks of the groups, in order. */
  function TicksOf(gs: seq<MidiGroup>): (ts: seq<int>)
    ensures |ts| == |gs| && forall j :: 0 <= j < |gs| ==> ts[j] == gs[j].ticks
  {
    seq(|gs|, j requires 0 <= j < |gs| => gs[j].ticks)
  }

  /** Groups that hold the events at their ticks lay out as Flat over their ticks. */
  lemma {:induction false} ConcatFlat(s: seq<MidiEvent>, gs: seq<MidiGroup>)
    requires forall j :: 0 <= j < |gs| ==> gs[j].events == EventsAt(s, gs[j].ticks)
    ensures Concat(gs) == Flat(s, TicksOf(gs))
    decreases |gs|
  {
    if gs != [] {
      var m := |gs|;
      TicksOfInit(gs);
      ConcatFlat(s, gs[..m - 1]);
    }
  }

  lemma TicksOfInit(gs: seq<MidiGroup>)
    requires gs != []
    ensures TicksOf(gs)[..|gs| - 1] == TicksOf(gs[..|gs| - 1])
  {
  }

  /** On a tick-sorted sequence, the groups laid end to end give back the sequence. */
  lemma GroupedKeepsEvents(s: seq<MidiEvent>)
    requires TicksSorted(s)
    ensures Concat(Grouped(s)) == s
  {
    var g := SortWith(Buckets(s), GroupLe);
    var r := Grouped(s);
    SortIsSortedBuckets(s);
    DeltaGroupsIncreasing(s, g, r);
    DeltaGroupsEvents(s, g, r);
    var ts := TicksOf(r);
    forall t ensures HasTick(s, t) <==> t in ts {
      if HasTick(s, t) {
        DeltaGroupsCover(s, g, r, t);
        var j :| 0 <= j < |r| && r[j].ticks == t;
        assert ts[j] == t;
      }
      if t in ts {
        var j :| 0 <= j < |ts| && ts[j] == t;
      }
    }
    ConcatFlat(s, r);
    FlatTickList(s, ts);
  }

  // ---------------------------------------------------------------------------
  // The milliseconds-per-tick rate

  /** `microsecondsPerBeat / ticksPerBeat / 1000`. */
  function Rate(microsecondsPerBeat: int, ticksPerBeat: int): real
    requires ticksPerBeat > 0
  {
    microsecondsPerBeat as real / ticksPerBeat as real / 1000.0
  }

  /** The rate after the scan `for (const e of lastGroup.events)`: each setTempo
      meta event replaces it. */
  function RateAfter(rate: real, es: seq<MidiEvent>, tpb: int): real
    requires tpb > 0
    decreases |es|
  {
    if es == [] then rate
    else RateAfter(if IsSetTempo(es[0].event) then Rate(es[0].event.microsecondsPerBeat, tpb) else rate, es[1..], tpb)
  }

  /** The scan keeps the rate when the events hold no setTempo. */
  lemma {:induction false} RateAfterNoTempo(rate: real, es: seq<MidiEvent>, tpb: int)
    requires tpb > 0
    requires forall i :: 0 <= i < |es| ==> !IsSetTempo(es[i].event)
    ensures RateAfter(rate, es, tpb) == rate
    decreases |es|
  {
    if es != [] {
      assert !IsSetTempo(es[0].event);
      forall j | 0 <= j < |es[1..]| ensures !IsSetTempo(es[1..][j].event) {
        assert es[1..][j] == es[j + 1];
      }
      RateAfterNoTempo(rate, es[1..], tpb);
    }
  }

  /** Otherwise the scan ends with the rate of the last setTempo. */
  lemma {:induction false} RateAfterLastTempo(rate: real, es: seq<MidiEvent>, tpb: int, i: int)
    requires tpb > 0 && 0 <= i < |es| && IsSetTempo(es[i].event)
    requires forall j :: i < j < |es| ==> !IsSetTempo(es[j].event)
    ensures RateAfter(rate, es, tpb) == Rate(es[i].event.microsecondsPerBeat, tpb)
    decreases |es|
  {
    var r := if IsSetTempo(es[0].event) then Rate(es[0].event.microsecondsPerBeat, tpb) else rate;
    if i == 0 {
      forall j | 0 <= j < |es[1..]| ensures !IsSetTempo(es[1..][j].event) {
        assert es[1..][j] == es[j + 1];
      }
      RateAfterNoTempo(r, es[1..], tpb);
    } else {
      assert es[1..][i - 1] == es[i];
      forall j | i - 1 < j < |es[1..]| ensures !IsSetTempo(es[1..][j].event) {
        assert es[1..][j] == es[j + 1];
      }
      RateAfterLastTempo(r, es[1..], tpb, i - 1);
    }
  }

  method ScanTempo(rate: real, es: seq<MidiEvent>, tpb: int) returns (r: real)
    requires tpb > 0
    ensures r == RateAfter(rate, es, tpb)
  {
    r := rate;
    for i := 0 to |es|
      invariant RateAfter(r, es[i..], tpb) == RateAfter(rate, es, tpb)
    {
      assert es[i..][1..] == es[i + 1..];
      if IsSetTempo(es[i].event) {
        r := Rate(es[i].event.microsecondsPerBeat, tpb);
      }
    }
  }

  // ---------------------------------------------------------------------------
  // No merging

  /** The rate in force when group `i` is timed: the start rate, updated by the scan
      of every earlier group. */
  function RateBefore(gs: seq<MidiGroup>, i: nat, rate0: real, tpb: int): real
    requires i <= |gs| && tpb > 0
  {
    if i == 0 then rate0 else RateAfter(RateBefore(gs, i - 1, rate0, tpb), gs[i - 1].events, tpb)
  }

  /** Milliseconds spanned by `deltaTicks` ticks at `rate` milliseconds per tick. */
  function Millis(deltaTicks: int, rate: real): real {
    deltaTicks as real * rate
  }

  /** The unmerged result: the first group at 0 ms, each later one at its delta
      ticks times the rate in force. */
  function Timed(gs: seq<MidiGroup>, rate0: real, tpb: int): (r: seq<MidiGroup>)
    requires tpb > 0
    ensures |r| == |gs|
  {
    seq(|gs|, i requires 0 <= i < |gs| =>
      gs[i].(deltaMilliseconds := if i == 0 then 0.0 else Millis(gs[i].deltaTicks, RateBefore(gs, i, rate0, tpb))))
  }

  method TimeGroups(gs: seq<MidiGroup>, rate0: real, tpb: int) returns (r: seq<MidiGroup>)
    requires tpb > 0
    ensures r == Timed(gs, rate0, tpb)
  {
    r := gs;
    var rate := rate0;
    for i := 0 to |r|
      invariant |r| == |gs|
      invariant forall q :: 0 <= q < i ==> r[q] == Timed(gs, rate0, tpb)[q]
      invariant forall q :: i <= q < |gs| ==> r[q] == gs[q]
      invariant rate == RateBefore(gs, if i == 0 then 0 else i - 1, rate0, tpb)
    {
      if i == 0 {
        r := r[i := r[i].(deltaMilliseconds := 0.0)];
        continue;
      }
      rate := ScanTempo(rate, r[i - 1].events, tpb);
      r := r[i := r[i].(deltaMilliseconds := Millis(r[i].deltaTicks, rate))];
    }
  }

  // ---------------------------------------------------------------------------
  // Merging

  /** One iteration of the merging forEach: rescan the last emitted group for tempo,
      time `v` against it, and absorb `v` into it when under the threshold. */
  function MergeStep(acc: seq<MidiGroup>, rate: real, v: MidiGroup, threshold: real, tpb: int): (seq<MidiGroup>, real)
    requires acc != [] && tpb > 0
  {
    var last := acc[|acc| - 1];
    var r := RateAfter(rate, last.events, tpb);
    var d := v.ticks - last.ticks;
    var ms := Millis(d, r);
    if ms < threshold then (Absorb(acc, v.events), r)
    else (acc + [v.(deltaTicks := d, deltaMilliseconds := ms)], r)
  }

  /** The last emitted group with `es` appended to its events. */
  function Absorb(acc: seq<MidiGroup>, es: seq<MidiEvent>): seq<MidiGroup>
    requires acc != []
  {
    acc[..|acc| - 1] + [acc[|acc| - 1].(events := acc[|acc| - 1].events + es)]
  }

  function MergeFrom(acc: seq<MidiGroup>, rate: real, rest: seq<MidiGroup>, threshold: real, tpb: int): seq<MidiGroup>
    requires acc != [] && tpb > 0
    decreases |rest|
  {
    if rest == [] then acc
    else
      var (acc', rate') := MergeStep(acc, rate, rest[0], threshold, tpb);
      MergeFrom(acc', rate', rest[1..], threshold, tpb)
  }

  /** Unfolds MergeFrom by one group. */
  lemma MergeFromStep(acc: seq<MidiGroup>, rate: real, rest: seq<MidiGroup>, threshold: real, tpb: int,
                      acc': seq<MidiGroup>, rate': real)
    requires acc != [] && tpb > 0 && rest != []
    requires (acc', rate') == MergeStep(acc, rate, rest[0], threshold, tpb)
    ensures acc' != []
    ensures MergeFrom(acc, rate, rest, threshold, tpb) == MergeFrom(acc', rate', rest[1..], threshold, tpb)
  {
  }

  /** The body of the merging forEach for one group `v`. */
  method MergeOne(merged: seq<MidiGroup>, rate: real, v: MidiGroup, threshold: real, tpb: int)
    returns (merged': seq<MidiGroup>, rate': real)
    requires merged != [] && tpb > 0
    ensures (merged', rate') == MergeStep(merged, rate, v, threshold, tpb)
  {
    var last := merged[|merged| - 1];
    rate' := ScanTempo(rate, last.events, tpb);
    var d := v.ticks - last.ticks;
    var ms := Millis(d, rate');
    if ms < threshold {
      merged' := Absorb(merged, v.events);
    } else {
      merged' := merged + [v.(deltaTicks := d, deltaMilliseconds := ms)];
    }
  }

  method MergeGroups(gs: seq<MidiGroup>, rate0: real, threshold: real, tpb: int) returns (merged: seq<MidiGroup>)
    requires gs != [] && tpb > 0
    ensures merged == MergeFrom([gs[0]], rate0, gs[1..], threshold, tpb)
  {
    merged := [gs[0]];
    var rate := rate0;
    for i := 1 to |gs|
      invariant merged != []
      invariant MergeFrom(merged, rate, gs[i..], threshold, tpb) == MergeFrom([gs[0]], rate0, gs[1..], threshold, tpb)
    {
      ghost var before, rateBefore := merged, rate;
      merged, rate := MergeOne(merged, rate, gs[i], threshold, tpb);
      MergeFromStep(before, rateBefore, gs[i..], threshold, tpb, merged, rate);
      assert gs[i..][1..] == gs[i + 1..];
    }
  }

  /** One merge step adds the group's events after those already emitted. */
  lemma MergeStepConcat(acc: seq<MidiGroup>, rate: real, v: MidiGroup, threshold: real, tpb: int)
    requires acc != [] && tpb > 0
    ensures Concat(MergeStep(acc, rate, v, threshold, tpb).0) == Concat(acc) + v.events
  {
    var n := |acc|;
    var acc' := MergeStep(acc, rate, v, threshold, tpb).0;
    assert Concat(acc) == Concat(acc[..n - 1]) + acc[n - 1].events;
    if |acc'| == n {
      assert acc'[..n - 1] == acc[..n - 1];
    } else {
      assert acc'[..n] == acc;
    }
  }

  /** Merging moves events between groups but never loses, duplicates or reorders one. */
  lemma {:induction false} MergeKeepsEvents(acc: seq<MidiGroup>, rate: real, rest: seq<MidiGroup>, threshold: real, tpb: int)
    requires acc != [] && tpb > 0
    ensures Concat(MergeFrom(acc, rate, rest, threshold, tpb)) == Concat(acc) + Concat(rest)
    decreases |rest|
  {
    if rest != [] {
      var step := MergeStep(acc, rate, rest[0], threshold, tpb);
      MergeStepConcat(acc, rate, rest[0], threshold, tpb);
      MergeFromStep(acc, rate, rest, threshold, tpb, step.0, step.1);
      MergeKeepsEvents(step.0, step.1, rest[1..], threshold, tpb);
      ConcatCons(rest);
    }
  }

  lemma ConcatCons(gs: seq<MidiGroup>)
    requires gs != []
    ensures Concat(gs) == gs[0].events + Concat(gs[1..])
  {
    assert gs == [gs[0]] + gs[1..];
    ConcatAppend([gs[0]], gs[1..]);
    assert Concat([gs[0]]) == Concat([]) + gs[0].events;
  }

  /** Every emitted group after the first lies at least the threshold after the
      previous emitted group, with its delta ticks measured from it. */
  predicate Spaced(gs: seq<MidiGroup>, threshold: real) {
    forall j {:trigger gs[j].deltaTicks} :: 1 <= j < |gs| ==>
      gs[j].deltaTicks == gs[j].ticks - gs[j - 1].ticks && gs[j].deltaMilliseconds >= threshold
  }

  lemma MergeStepSpacing(acc: seq<MidiGroup>, rate: real, v: MidiGroup, threshold: real, tpb: int)
    requires acc != [] && tpb > 0
    requires Increasing(acc) && Spaced(acc, threshold) && acc[|acc| - 1].ticks < v.ticks
    ensures var acc' := MergeStep(acc, rate, v, threshold, tpb).0;
      acc' != [] && acc'[0].ticks == acc[0].ticks && acc'[|acc'| - 1].ticks <= v.ticks &&
      Increasing(acc') && Spaced(acc', threshold)
  {
    var last := acc[|acc| - 1];
    var r := RateAfter(rate, last.events, tpb);
    var d := v.ticks - last.ticks;
    var acc' := MergeStep(acc, rate, v, threshold, tpb).0;
    if Millis(d, r) < threshold {
      assert acc' == Absorb(acc, v.events);
      AbsorbSpacing(acc, v.events, threshold);
    } else {
      var w := v.(deltaTicks := d, deltaMilliseconds := Millis(d, r));
      assert acc' == acc + [w];
      PushSpacing(acc, w, threshold);
    }
  }

  /** Absorbing events into the last group keeps its tick and the spacing. */
  lemma AbsorbSpacing(acc: seq<MidiGroup>, es: seq<MidiEvent>, threshold: real)
    requires acc != [] && Increasing(acc) && Spaced(acc, threshold)
    ensures var acc' := Absorb(acc, es);
      acc' != [] && acc'[0].ticks == acc[0].ticks && acc'[|acc'| - 1].ticks == acc[|acc| - 1].ticks &&
      Increasing(acc') && Spaced(acc', threshold)
  {
    AbsorbTiming(acc, es);
    SameTiming(acc, Absorb(acc, es), threshold);
  }

  /** Absorbing changes no group's tick, delta ticks or delta milliseconds. */
  lemma AbsorbTiming(acc: seq<MidiGroup>, es: seq<MidiEvent>)
    requires acc != []
    ensures var acc' := Absorb(acc, es);
      |acc'| == |acc| && forall j :: 0 <= j < |acc| ==> SameTime(acc'[j], acc[j])
  {
    var n := |acc|;
    var acc' := Absorb(acc, es);
    forall j | 0 <= j < n ensures SameTime(acc'[j], acc[j]) {
      if j < n - 1 {
        assert acc'[j] == acc[j];
      }
    }
  }

  predicate SameTime(g: MidiGroup, h: MidiGroup) {
    g.ticks == h.ticks && g.deltaTicks == h.deltaTicks && g.deltaMilliseconds == h.deltaMilliseconds
  }

  /** Increasing and Spaced look only at the timing of the groups. */
  lemma SameTiming(acc: seq<MidiGroup>, acc': seq<MidiGroup>, threshold: real)
    requires |acc'| == |acc| && forall j :: 0 <= j < |acc| ==> SameTime(acc'[j], acc[j])
    requires Increasing(acc) && Spaced(acc, threshold)
    ensures Increasing(acc') && Spaced(acc', threshold)
  {
    forall i, j | 0 <= i < j < |acc'| ensures acc'[i].ticks < acc'[j].ticks {
      assert SameTime(acc'[i], acc[i]) && SameTime(acc'[j], acc[j]);
    }
    forall j | 1 <= j < |acc'|
      ensures acc'[j].deltaTicks == acc'[j].ticks - acc'[j - 1].ticks && acc'[j].deltaMilliseconds >= threshold
    {
      assert SameTime(acc'[j - 1], acc[j - 1]) && SameTime(acc'[j], acc[j]);
    }
  }

  /** Emitting a group far enough after the last one keeps the spacing. */
  lemma PushSpacing(acc: seq<MidiGroup>, w: MidiGroup, threshold: real)
    requires acc != [] && Increasing(acc) && Spaced(acc, threshold) && acc[|acc| - 1].ticks < w.ticks
    requires w.deltaTicks == w.ticks - acc[|acc| - 1].ticks && w.deltaMilliseconds >= threshold
    ensures var acc' := acc + [w];
      acc'[0].ticks == acc[0].ticks && Increasing(acc') && Spaced(acc', threshold)
  {
    var n := |acc|;
    var acc' := acc + [w];
    forall i, j | 0 <= i < j < |acc'| ensures acc'[i].ticks < acc'[j].ticks {
      assert acc'[i] == acc[i];
      if j < n {
        assert acc'[j] == acc[j];
      }
    }
    forall j | 1 <= j < |acc'|
      ensures acc'[j].deltaTicks == acc'[j].ticks - acc'[j - 1].ticks && acc'[j].deltaMilliseconds >= threshold
    {
      assert acc'[j - 1] == acc[j - 1];
      if j < n {
        assert acc'[j] == acc[j];
      }
    }
  }

  /** Merging keeps the first group first, keeps every emitted group's own tick, keeps
      ticks strictly increasing, and leaves no two emitted groups closer than the threshold. */
  lemma {:induction false} MergeSpacing(acc: seq<MidiGroup>, rate: real, rest: seq<MidiGroup>, threshold: real, tpb: int)
    requires acc != [] && tpb > 0
    requires Increasing(acc) && Increasing(rest) && Spaced(acc, threshold)
    requires rest != [] ==> acc[|acc| - 1].ticks < rest[0].ticks
    ensures var r := MergeFrom(acc, rate, rest, threshold, tpb);
      r != [] && r[0].ticks == acc[0].ticks && Increasing(r) && Spaced(r, threshold)
    decreases |rest|
  {
    if rest != [] {
      var (acc', rate') := MergeStep(acc, rate, rest[0], threshold, tpb);
      MergeStepSpacing(acc, rate, rest[0], threshold, tpb);
      MergeFromStep(acc, rate, rest, threshold, tpb, acc', rate');
      MergeSpacing(acc', rate', rest[1..], threshold, tpb);
    }
  }

  /** The merged groups and the rate once the merging forEach has handled `gs[..i]`. */
  function MergeState(gs: seq<MidiGroup>, i: nat, rate0: real, threshold: real, tpb: int): (r: (seq<MidiGroup>, real))
    requires 1 <= i <= |gs| && tpb > 0
    ensures r.0 != []
    decreases i
  {
    if i == 1 then ([gs[0]], rate0)
    else
      var (acc, rate) := MergeState(gs, i - 1, rate0, threshold, tpb);
      MergeStep(acc, rate, gs[i - 1], threshold, tpb)
  }

  /** The state after `gs[..i + 1]` is one merge step from the state after `gs[..i]`. */
  lemma MergeStateNext(gs: seq<MidiGroup>, i: nat, rate0: real, threshold: real, tpb: int)
    requires 1 <= i < |gs| && tpb > 0
    ensures var st := MergeState(gs, i, rate0, threshold, tpb);
      MergeState(gs, i + 1, rate0, threshold, tpb) == MergeStep(st.0, st.1, gs[i], threshold, tpb)
  {
  }

  /** Finishing the merge from any intermediate state gives the whole merge. */
  lemma {:induction false} MergeStateFrom(gs: seq<MidiGroup>, i: nat, rate0: real, threshold: real, tpb: int)
    requires 1 <= i <= |gs| && tpb > 0
    ensures var st := MergeState(gs, i, rate0, threshold, tpb);
      MergeFrom(st.0, st.1, gs[i..], threshold, tpb) == MergeFrom([gs[0]], rate0, gs[1..], threshold, tpb)
    decreases i
  {
    if i > 1 {
      MergeStateFrom(gs, i - 1, rate0, threshold, tpb);
      MergeStateNext(gs, i - 1, rate0, threshold, tpb);
      var st := MergeState(gs, i - 1, rate0, threshold, tpb);
      var st' := MergeState(gs, i, rate0, threshold, tpb);
      MergeFromStep(st.0, st.1, gs[i - 1..], threshold, tpb, st'.0, st'.1);
      assert gs[i - 1..][1..] == gs[i..];
    }
  }

  /** The whole merge is the state after the last group. */
  lemma MergeStateLast(gs: seq<MidiGroup>, rate0: real, threshold: real, tpb: int)
    requires gs != [] && tpb > 0
    ensures MergeState(gs, |gs|, rate0, threshold, tpb).0 == MergeFrom([gs[0]], rate0, gs[1..], threshold, tpb)
  {
    MergeStateFrom(gs, |gs|, rate0, threshold, tpb);
    assert gs[|gs|..] == [];
  }

  /** Group `a[q]` has become `b[q]`: groups before the last are unchanged, and the
      last keeps its timing and can only have gained events at its end. */
  predicate Extends(a: seq<MidiGroup>, b: seq<MidiGroup>) {
    a != [] && |a| <= |b| &&
    (forall q :: 0 <= q < |a| - 1 ==> b[q] == a[q]) &&
    SameTime(b[|a| - 1], a[|a| - 1]) && a[|a| - 1].events <= b[|a| - 1].events
  }

  lemma MergeStepExtends(acc: seq<MidiGroup>, rate: real, v: MidiGroup, threshold: real, tpb: int, a: seq<MidiGroup>)
    requires acc != [] && tpb > 0 && Extends(a, acc)
    ensures Extends(a, MergeStep(acc, rate, v, threshold, tpb).0)
  {
    var n := |acc|;
    var acc' := MergeStep(acc, rate, v, threshold, tpb).0;
    if |acc'| == n {
      assert acc' == Absorb(acc, v.events);
      assert forall q :: 0 <= q < n - 1 ==> acc'[q] == acc[q];
      if |a| == n {
        assert acc[n - 1].events <= acc'[n - 1].events;
      }
    } else {
      assert acc'[..n] == acc;
    }
  }

  /** Later merge steps only extend what an earlier one emitted. */
  lemma {:induction false} MergeStateGrows(gs: seq<MidiGroup>, i: nat, j: nat, rate0: real, threshold: real, tpb: int)
    requires 1 <= i <= j <= |gs| && tpb > 0
    ensures Extends(MergeState(gs, i, rate0, threshold, tpb).0, MergeState(gs, j, rate0, threshold, tpb).0)
    decreases j
  {
    var a := MergeState(gs, i, rate0, threshold, tpb).0;
    if j == i {
      assert a[|a| - 1].events <= a[|a| - 1].events;
    } else {
      MergeStateGrows(gs, i, j - 1, rate0, threshold, tpb);
      var st := MergeState(gs, j - 1, rate0, threshold, tpb);
      MergeStepExtends(st.0, st.1, gs[j - 1], threshold, tpb, a);
    }
  }

  /** The final groups extend the state after `gs[..i]` and the one after `gs[..i + 1]`. */
  lemma MergeStateStepGrows(gs: seq<MidiGroup>, i: nat, rate0: real, threshold: real, tpb: int)
    requires 1 <= i < |gs| && tpb > 0
    ensures var st := MergeState(gs, i, rate0, threshold, tpb); var r := MergeState(gs, |gs|, rate0, threshold, tpb).0;
      Extends(st.0, r) && Extends(MergeStep(st.0, st.1, gs[i], threshold, tpb).0, r)
  {
    MergeStateNext(gs, i, rate0, threshold, tpb);
    MergeStateGrows(gs, i, |gs|, rate0, threshold, tpb);
    MergeStateGrows(gs, i + 1, |gs|, rate0, threshold, tpb);
  }

  /** The group emitted last before `gs[i]` is the one at the same position of the
      final groups `r` (the state after all of `gs`, MergeStateLast): same tick, and
      the events it holds so far come first among its final events. */
  lemma MergeKeepsEmitted(gs: seq<MidiGroup>, i: nat, rate0: real, threshold: real, tpb: int)
    requires 1 <= i <= |gs| && tpb > 0
    ensures var acc := MergeState(gs, i, rate0, threshold, tpb).0; var k := |acc| - 1;
      var r := MergeState(gs, |gs|, rate0, threshold, tpb).0;
      k < |r| && r[k].ticks == acc[k].ticks && acc[k].events <= r[k].events
  {
    MergeStateGrows(gs, i, |gs|, rate0, threshold, tpb);
  }

  /** Let `k` be the group emitted last before `gs[i]`, at the rate after rescanning
      the events `k` holds so far. When `gs[i]` lies less than the threshold after
      `k`, its events follow those into final group `k`. */
  lemma MergeAbsorbs(gs: seq<MidiGroup>, i: nat, rate0: real, threshold: real, tpb: int)
    requires 1 <= i < |gs| && tpb > 0
    ensures var st := MergeState(gs, i, rate0, threshold, tpb); var k := |st.0| - 1;
      var r := MergeState(gs, |gs|, rate0, threshold, tpb).0;
      Millis(gs[i].ticks - st.0[k].ticks, RateAfter(st.1, st.0[k].events, tpb)) < threshold ==>
        k < |r| && st.0[k].events + gs[i].events <= r[k].events
  {
    var st := MergeState(gs, i, rate0, threshold, tpb);
    MergeStateStepGrows(gs, i, rate0, threshold, tpb);
    PlaceStep(st.0, st.1, gs[i], threshold, tpb, MergeState(gs, |gs|, rate0, threshold, tpb).0);
  }

  /** Otherwise `gs[i]` starts final group `k + 1`, timed against group `k`. */
  lemma MergeEmits(gs: seq<MidiGroup>, i: nat, rate0: real, threshold: real, tpb: int)
    requires 1 <= i < |gs| && tpb > 0
    ensures var st := MergeState(gs, i, rate0, threshold, tpb); var k := |st.0| - 1;
      var r := MergeState(gs, |gs|, rate0, threshold, tpb).0;
      var ms := Millis(gs[i].ticks - st.0[k].ticks, RateAfter(st.1, st.0[k].events, tpb));
      ms >= threshold ==>
        k + 1 < |r| && r[k + 1].ticks == gs[i].ticks && r[k + 1].deltaTicks == gs[i].ticks - st.0[k].ticks &&
        r[k + 1].deltaMilliseconds == ms && gs[i].events <= r[k + 1].events
  {
    var st := MergeState(gs, i, rate0, threshold, tpb);
    MergeStateStepGrows(gs, i, rate0, threshold, tpb);
    PlaceStep(st.0, st.1, gs[i], threshold, tpb, MergeState(gs, |gs|, rate0, threshold, tpb).0);
  }

  /** One merge step seen from a final result `r` that extends both its input and its output. */
  lemma PlaceStep(acc: seq<MidiGroup>, rate: real, v: MidiGroup, threshold: real, tpb: int, r: seq<MidiGroup>)
    requires acc != [] && tpb > 0 && Extends(acc, r) && Extends(MergeStep(acc, rate, v, threshold, tpb).0, r)
    ensures var k := |acc| - 1; var ms := Millis(v.ticks - acc[k].ticks, RateAfter(rate, acc[k].events, tpb));
      k < |r| && r[k].ticks == acc[k].ticks && acc[k].events <= r[k].events &&
      (ms < threshold ==> acc[k].events + v.events <= r[k].events) &&
      (ms >= threshold ==>
        k + 1 < |r| && r[k + 1].ticks == v.ticks && r[k + 1].deltaTicks == v.ticks - r[k].ticks &&
        r[k + 1].deltaMilliseconds == ms && v.events <= r[k + 1].events)
  {
    var k := |acc| - 1;
    var acc' := MergeStep(acc, rate, v, threshold, tpb).0;
    if |acc'| == |acc| {
      assert acc' == Absorb(acc, v.events);
      assert acc'[k].events == acc[k].events + v.events;
    } else {
      assert acc'[k] == acc[k];
      assert r[k] == acc[k];
    }
  }

  // ---------------------------------------------------------------------------
  // toMidiGroup

  /** The rate toMidiGroup starts from: the sheet's first tempo. */
  function StartRate(sheet: MidiSheet): real
    requires sheet.ticksPerBeat > 0
  {
    Rate(sheet.firstTempo, sheet.ticksPerBeat)
  }

  /** toMidiGroup(sheet, mergeMilliseconds): unmerged when the threshold is 0 or below
      4, otherwise merged greedily from the first group. */
  function MidiGroups(sheet: MidiSheet, mergeMilliseconds: real): seq<MidiGroup>
    requires sheet.ticksPerBeat > 0
  {
    var gs := Grouped(sheet.sequence);
    if mergeMilliseconds == 0.0 || mergeMilliseconds < 4.0 then Timed(gs, StartRate(sheet), sheet.ticksPerBeat)
    else if gs == [] then []
    else MergeFrom([gs[0]], StartRate(sheet), gs[1..], mergeMilliseconds, sheet.ticksPerBeat)
  }

  method ToMidiGroup(sheet: MidiSheet, mergeMilliseconds: real) returns (groups: seq<MidiGroup>)
    requires sheet.ticksPerBeat > 0
    ensures groups == MidiGroups(sheet, mergeMilliseconds)
  {
    var gs := BucketByTicks(sheet.sequence);
    gs := SortWith(gs, GroupLe);
    gs := SetDeltaTicks(gs);
    var msPerTick := Rate(sheet.firstTempo, sheet.ticksPerBeat);
    if mergeMilliseconds == 0.0 || mergeMilliseconds < 4.0 {
      groups := TimeGroups(gs, msPerTick, sheet.ticksPerBeat);
      return;
    }
    if gs == [] {
      return [];
    }
    groups := MergeGroups(gs, msPerTick, mergeMilliseconds, sheet.ticksPerBeat);
  }

  /** Below the 4 ms threshold nothing is merged: the groups are the tick groups,
      only timed, the first at 0 ms. */
  lemma NoMergeBelowFour(sheet: MidiSheet, mergeMilliseconds: real)
    requires sheet.ticksPerBeat > 0 && mergeMilliseconds < 4.0
    ensures var r := MidiGroups(sheet, mergeMilliseconds);
      var g := Grouped(sheet.sequence);
      |r| == |g| &&
      (forall i :: 0 <= i < |r| ==> r[i].ticks == g[i].ticks && r[i].deltaTicks == g[i].deltaTicks && r[i].events == g[i].events) &&
      (r != [] ==> r[0].deltaMilliseconds == 0.0)
  {
  }

  /** From the threshold up, the first group is always emitted, ticks stay strictly
      increasing and emitted groups are at least the threshold apart. */
  lemma MergedSpacing(sheet: MidiSheet, mergeMilliseconds: real)
    requires sheet.ticksPerBeat > 0 && mergeMilliseconds >= 4.0 && sheet.sequence != []
    ensures var r := MidiGroups(sheet, mergeMilliseconds);
      var g := Grouped(sheet.sequence);
      r != [] && g != [] && r[0].ticks == g[0].ticks && Increasing(r) && Spaced(r, mergeMilliseconds)
  {
    var s := sheet.sequence;
    var g := Grouped(s);
    GroupedByTick(s);
    assert HasTick(s, s[0].ticks);
    assert Increasing(g[1..]);
    MergeSpacing([g[0]], StartRate(sheet), g[1..], mergeMilliseconds, sheet.ticksPerBeat);
  }

  /** From the threshold up, toMidiGroup returns the state after the last tick group. */
  lemma MergedIsMergeState(sheet: MidiSheet, mergeMilliseconds: real)
    requires sheet.ticksPerBeat > 0 && mergeMilliseconds >= 4.0 && Grouped(sheet.sequence) != []
    ensures var g := Grouped(sheet.sequence);
      MidiGroups(sheet, mergeMilliseconds) == MergeState(g, |g|, StartRate(sheet), mergeMilliseconds, sheet.ticksPerBeat).0
  {
    var g := Grouped(sheet.sequence);
    MergeStateLast(g, StartRate(sheet), mergeMilliseconds, sheet.ticksPerBeat);
  }

  /** On a tick-sorted sheet, in either mode, the output groups laid end to end are
      exactly the sheet's sequence. */
  lemma MidiGroupsKeepEvents(sheet: MidiSheet, mergeMilliseconds: real)
    requires sheet.ticksPerBeat > 0 && TicksSorted(sheet.sequence)
    ensures Concat(MidiGroups(sheet, mergeMilliseconds)) == sheet.sequence
  {
    var g := Grouped(sheet.sequence);
    GroupedKeepsEvents(sheet.sequence);
    if mergeMilliseconds == 0.0 || mergeMilliseconds < 4.0 {
      ConcatSameEvents(Timed(g, StartRate(sheet), sheet.ticksPerBeat), g);
    } else if g != [] {
      MergeKeepsEvents([g[0]], StartRate(sheet), g[1..], mergeMilliseconds, sheet.ticksPerBeat);
      assert g == [g[0]] + g[1..];
      ConcatAppend([g[0]], g[1..]);
    }
  }

  /** midiParser's output is tick-sorted, so grouping it loses and duplicates nothing. */
  lemma ParsedGroupsKeepEvents(f: MidiFile, mergeMilliseconds: real)
    requires f.ticksPerBeat > 0
    ensures Concat(MidiGroups(ParserSpec.Parse(f), mergeMilliseconds)) == ParserSpec.Parse(f).sequence
  {
    var sheet := ParserSpec.Parse(f);
    ParserOrder.ParseSequence(f);
    assert TicksSorted(sheet.sequence) by {
      forall i, j | 0 <= i < j < |sheet.sequence| ensures sheet.sequence[i].ticks <= sheet.sequence[j].ticks {
        assert ParserOrder.KeyLt(sheet.sequence[i], sheet.sequence[j]);
      }
    }
    MidiGroupsKeepEvents(sheet, mergeMilliseconds);
  }
}

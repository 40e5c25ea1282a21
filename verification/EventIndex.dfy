/** The in-memory event index: an ordered map from event time to the ids
    recorded at that time, here the sequence of its entries in key order.
    `Flat` lists the events in index order; every operation of the subscriber
    is described by what it does to that list. */
module EventIndex {
  import opened Basics

  datatype Event = Event(time: nat, id: nat)
  datatype Bucket = Bucket(time: nat, ids: seq<nat>)
  type Index = seq<Bucket>

  /** Keys strictly ascending, no bucket without ids. */
  ghost predicate Sorted(ix: Index) {
    && (forall i, j | 0 <= i < j < |ix| :: ix[i].time < ix[j].time)
    && (forall i | 0 <= i < |ix| :: ix[i].ids != [])
  }

  function Events(time: nat, ids: seq<nat>): (s: seq<Event>)
    ensures |s| == |ids|
    ensures forall i | 0 <= i < |s| :: s[i] == Event(time, ids[i])
  {
    seq(|ids|, i requires 0 <= i < |ids| => Event(time, ids[i]))
  }

  function Flat(ix: Index): seq<Event> {
    if ix == [] then [] else Events(ix[0].time, ix[0].ids) + Flat(ix[1..])
  }

  /** Ids strictly ascending and times never decreasing: events in the order
      in which a single publisher with a non-decreasing clock adds them. */
  ghost predicate Ordered(f: seq<Event>) {
    forall i, j | 0 <= i < j < |f| :: f[i].id < f[j].id && f[i].time <= f[j].time
  }

  lemma FlatCons(b: Bucket, ix: Index)
    ensures Flat([b] + ix) == Events(b.time, b.ids) + Flat(ix)
    ensures Flat([]) == []
  {
    assert ([b] + ix)[1..] == ix;
  }

  lemma {:induction false} FlatConcat(a: Index, b: Index)
    ensures Flat(a + b) == Flat(a) + Flat(b)
  {
    hide Flat, Events;
    FlatCons(Bucket(0, []), b);
    if a == [] {
      assert a + b == b;
    } else {
      FlatConcat(a[1..], b);
      FlatCons(a[0], a[1..] + b);
      FlatCons(a[0], a[1..]);
      Associative(Events(a[0].time, a[0].ids), Flat(a[1..]), Flat(b));
      assert [a[0]] + a[1..] == a && [a[0]] + (a[1..] + b) == a + b;
    }
  }

  lemma FlatSplit(ix: Index, k: nat)
    requires k <= |ix|
    ensures Flat(ix) == Flat(ix[..k]) + Flat(ix[k..])
  {
    hide Flat;
    FlatConcat(ix[..k], ix[k..]);
    assert ix == ix[..k] + ix[k..];
  }

  lemma FlatOne(b: Bucket)
    ensures Flat([b]) == Events(b.time, b.ids)
  {
    assert Flat([b][1..]) == [];
  }

  /** Every time in the flat list is the time of a bucket. */
  lemma {:induction false} FlatTimes(ix: Index)
    ensures forall e | e in Flat(ix) :: exists i | 0 <= i < |ix| :: ix[i].time == e.time
  {
    if ix != [] {
      FlatTimes(ix[1..]);
      forall e | e in Flat(ix)
        ensures exists i | 0 <= i < |ix| :: ix[i].time == e.time
      {
        if e in Flat(ix[1..]) {
          var i :| 0 <= i < |ix[1..]| && ix[1..][i].time == e.time;
          assert ix[i + 1].time == e.time;
        } else {
          assert ix[0].time == e.time;
        }
      }
    }
  }

  /** The last event of a non-empty index is the last id of its last bucket. */
  lemma FlatLast(ix: Index)
    requires Sorted(ix) && ix != []
    ensures var b := ix[|ix| - 1];
            Flat(ix) != [] && Flat(ix)[|Flat(ix)| - 1] == Event(b.time, b.ids[|b.ids| - 1])
  {
    FlatSplit(ix, |ix| - 1);
    assert ix[|ix| - 1..] == [ix[|ix| - 1]];
    FlatOne(ix[|ix| - 1]);
  }

  /** A well-formed index is determined by its flat list. */
  lemma {:induction false} FlatInjective(a: Index, b: Index)
    requires Sorted(a) && Sorted(b) && Flat(a) == Flat(b)
    ensures a == b
  {
    hide Flat, Sorted;
    if a != [] { FlatLast(a); }
    if b != [] { FlatLast(b); }
    if a != [] && b != [] {
      FlatHead(a);
      FlatHead(b);
      assert Flat(a)[0] == Event(a[0].time, a[0].ids[0]) && Flat(b)[0] == Event(b[0].time, b[0].ids[0]);
      HeadLength(a, b);
      HeadLength(b, a);
      var f, n := Flat(a), |a[0].ids|;
      assert a[0].ids == b[0].ids by {
        forall i | 0 <= i < n ensures a[0].ids[i] == b[0].ids[i] {
          assert f[i].id == a[0].ids[i] && f[i].id == b[0].ids[i];
        }
      }
      FlatInjective(a[1..], b[1..]);
      assert a == [a[0]] + a[1..] && b == [b[0]] + b[1..];
    } else {
      FlatEmpty();
    }
  }

  lemma FlatEmpty()
    ensures Flat([]) == []
  {
  }

  /** The flat list starts with the events of the first bucket. */
  lemma FlatHead(ix: Index)
    requires Sorted(ix) && ix != []
    ensures 0 < |ix[0].ids| <= |Flat(ix)| && Flat(ix)[|ix[0].ids|..] == Flat(ix[1..]) && Sorted(ix[1..])
    ensures forall i | 0 <= i < |ix[0].ids| :: Flat(ix)[i] == Event(ix[0].time, ix[0].ids[i])
  {
  }

  lemma HeadLength(a: Index, b: Index)
    requires Sorted(a) && Sorted(b) && Flat(a) == Flat(b) && a != [] && b != []
    requires a[0].time == b[0].time
    ensures |a[0].ids| >= |b[0].ids|
  {
    var n := |a[0].ids|;
    assert n < |b[0].ids| ==> Flat(b)[n].time == b[0].time;
    assert forall e | e in Flat(a[1..]) :: e.time > a[0].time by {
      FlatTimes(a[1..]);
    }
    assert n < |Flat(a)| ==> Flat(a)[n] in Flat(a[1..]);
  }

  // ------------------------------------------------- std::map access by key

  /** Position of the first key that is not less than `t`. */
  function LowerBound(ix: Index, t: nat): (n: nat)
    ensures n <= |ix|
    ensures forall i | 0 <= i < n :: ix[i].time < t
    ensures n < |ix| ==> ix[n].time >= t
  {
    if ix != [] && ix[0].time < t then 1 + LowerBound(ix[1..], t) else 0
  }

  /** Position of the first key greater than `t`. */
  function UpperBound(ix: Index, t: nat): (n: nat)
    ensures n <= |ix|
    ensures forall i | 0 <= i < n :: ix[i].time <= t
    ensures n < |ix| ==> ix[n].time > t
  {
    if ix != [] && ix[0].time <= t then 1 + UpperBound(ix[1..], t) else 0
  }

  /** Append ids under a time, creating the entry when there is none. */
  function Insert(ix: Index, t: nat, ids: seq<nat>): Index {
    var p := LowerBound(ix, t);
    if p < |ix| && ix[p].time == t
    then ix[p := Bucket(t, ix[p].ids + ids)]
    else ix[..p] + [Bucket(t, ids)] + ix[p..]
  }

  lemma InsertSorted(ix: Index, t: nat, ids: seq<nat>)
    requires Sorted(ix) && ids != []
    ensures Sorted(Insert(ix, t, ids))
    ensures |ix| <= |Insert(ix, t, ids)| <= |ix| + 1
  {
    hide LowerBound;
    var p := LowerBound(ix, t);
    if p < |ix| && ix[p].time == t {
      GrowBucket(ix, p, ids);
    } else {
      hide Sorted;
      BoundStrict(ix, p, t);
      SplitInsert(ix, p, Bucket(t, ids));
    }
  }

  lemma GrowBucket(ix: Index, p: nat, ids: seq<nat>)
    requires Sorted(ix) && p < |ix|
    ensures Sorted(ix[p := Bucket(ix[p].time, ix[p].ids + ids)])
  {
    var r := ix[p := Bucket(ix[p].time, ix[p].ids + ids)];
    assert forall i | 0 <= i < |ix| :: r[i].time == ix[i].time;
  }

  lemma BoundStrict(ix: Index, p: nat, t: nat)
    requires p == LowerBound(ix, t) && (p < |ix| ==> ix[p].time != t)
    ensures (forall i | 0 <= i < p :: ix[i].time < t) && (p < |ix| ==> ix[p].time > t)
  {
  }

  lemma SplitInsert(ix: Index, p: nat, b: Bucket)
    requires Sorted(ix) && p <= |ix| && b.ids != []
    requires (forall i | 0 <= i < p :: ix[i].time < b.time) && (p < |ix| ==> ix[p].time > b.time)
    ensures Sorted(ix[..p] + [b] + ix[p..])
  {
    var r := ix[..p] + [b] + ix[p..];
    assert forall i | p <= i < |ix| :: ix[i].time > b.time;
    forall i, j | 0 <= i < j < |r|
      ensures r[i].time < r[j].time
    {
      assert r[i] == (if i < p then ix[i] else if i == p then b else ix[i - 1]);
      assert r[j] == (if j < p then ix[j] else if j == p then b else ix[j - 1]);
    }
  }

  lemma InsertShape(ix: Index, t: nat, ids: seq<nat>)
    requires Sorted(ix)
    requires ix != [] ==> t >= ix[|ix| - 1].time
    ensures if ix != [] && ix[|ix| - 1].time == t
            then Insert(ix, t, ids) == ix[..|ix| - 1] + [Bucket(t, ix[|ix| - 1].ids + ids)]
            else Insert(ix, t, ids) == ix + [Bucket(t, ids)]
  {
  }

  /** At a time no older than the newest bucket, insertion appends. */
  lemma InsertAppends(ix: Index, t: nat, ids: seq<nat>)
    requires Sorted(ix)
    requires ix != [] ==> t >= ix[|ix| - 1].time
    ensures Flat(Insert(ix, t, ids)) == Flat(ix) + Events(t, ids)
    ensures Insert(ix, t, ids) != [] && Insert(ix, t, ids)[|Insert(ix, t, ids)| - 1].time == t
  {
    InsertShape(ix, t, ids);
    hide Insert, Flat, Events;
    if ix != [] && ix[|ix| - 1].time == t {
      GrowLast(ix[..|ix| - 1], ix[|ix| - 1], ids);
      assert ix == ix[..|ix| - 1] + [ix[|ix| - 1]];
    } else {
      FlatConcat(ix, [Bucket(t, ids)]);
      FlatOne(Bucket(t, ids));
    }
  }

  /** Whatever its time, an insertion adds exactly the given events. */
  lemma InsertMembers(ix: Index, t: nat, ids: seq<nat>, e: Event)
    ensures e in Flat(Insert(ix, t, ids)) <==> e in Flat(ix) || e in Events(t, ids)
  {
    hide Flat, Events, LowerBound;
    var p := LowerBound(ix, t);
    if p < |ix| && ix[p].time == t {
      FlatAround(ix, p, ix[p]);
      FlatAround(Insert(ix, t, ids), p, Bucket(t, ix[p].ids + ids));
      EventsConcat(t, ix[p].ids, ids);
      assert Insert(ix, t, ids)[..p] == ix[..p] && Insert(ix, t, ids)[p + 1..] == ix[p + 1..];
    } else {
      FlatSplit(ix, p);
      FlatAround(Insert(ix, t, ids), p, Bucket(t, ids));
      assert Insert(ix, t, ids)[..p] == ix[..p] && Insert(ix, t, ids)[p + 1..] == ix[p..];
    }
  }

  lemma FlatAround(ix: Index, p: nat, b: Bucket)
    requires p < |ix| && ix[p] == b
    ensures Flat(ix) == Flat(ix[..p]) + (Events(b.time, b.ids) + Flat(ix[p + 1..]))
  {
    hide Flat, Events;
    FlatSplit(ix, p);
    FlatCons(b, ix[p + 1..]);
    TailSplit(ix, p);
  }

  lemma GrowLast(p: Index, b: Bucket, ids: seq<nat>)
    ensures Flat(p + [Bucket(b.time, b.ids + ids)]) == Flat(p + [b]) + Events(b.time, ids)
  {
    FlatConcat(p, [b]);
    FlatConcat(p, [Bucket(b.time, b.ids + ids)]);
    FlatOne(b);
    FlatOne(Bucket(b.time, b.ids + ids));
    EventsConcat(b.time, b.ids, ids);
  }

  lemma EventsConcat(t: nat, a: seq<nat>, b: seq<nat>)
    ensures Events(t, a + b) == Events(t, a) + Events(t, b)
  {
  }

  // -------------------------------------------------------------- eviction

  /** How many leading buckets `removeOverflowingEventBatches` erases. */
  function OverflowCut(ix: Index, max: nat): (k: nat)
    ensures k <= |ix| && (ix != [] ==> k < |ix|)
    ensures max > 0 ==> |ix| - k <= max
    ensures k > 0 ==> |ix| - k == max
  {
    if max == 0 || |ix| <= max then 0 else |ix| - max
  }

  /** `current_time - events_expiry` on unsigned 64-bit values. */
  function OldestValid(expiry: nat, current: nat): nat {
    (current - expiry) % TWO64
  }

  /** How many leading buckets `expireEventBatches` erases. */
  function ExpireCut(ix: Index, expiry: nat, current: nat): (k: nat)
    ensures k <= |ix| && (ix != [] ==> k < |ix|)
  {
    if expiry == 0 || current == 0 || ix == [] || ix[0].time >= OldestValid(expiry, current) then 0
    else
      var end := UpperBound(ix, OldestValid(expiry, current));
      if end == |ix| then end - 1 else end
  }

  /** What expiry erases: exactly the buckets no younger than the threshold,
      except that the newest bucket always stays. A threshold equal to the
      oldest time erases nothing. */
  lemma ExpireCutMeaning(ix: Index, expiry: nat, current: nat, i: nat)
    requires Sorted(ix) && i < |ix|
    ensures i < ExpireCut(ix, expiry, current) <==>
            && expiry != 0 && current != 0
            && ix[0].time < OldestValid(expiry, current)
            && ix[i].time <= OldestValid(expiry, current)
            && i < |ix| - 1
  {
  }

  /** A bucket has run out: by the clock, or where the clock value is below the
      expiry, by the clock value 2^64 later, the oldest bucket is older than the
      expiry and this one at least as old; and it is not the newest. */
  ghost predicate Expires(ix: Index, expiry: nat, current: nat, i: nat)
    requires i < |ix|
  {
    var clock := if expiry <= current then current else current + TWO64;
    && 0 < expiry && 0 < current && i < |ix| - 1
    && ix[0].time + expiry < clock && ix[i].time + expiry <= clock
  }

  /** What expiry erases, on the arithmetic of times alone. */
  lemma ExpireExact(ix: Index, expiry: nat, current: nat, i: nat)
    requires Sorted(ix) && i < |ix| && expiry < TWO64 && current < TWO64
    ensures i < ExpireCut(ix, expiry, current) <==> Expires(ix, expiry, current, i)
  {
    hide ExpireCut;
    ExpireCutMeaning(ix, expiry, current, i);
    Difference(expiry, current);
  }

  lemma Difference(expiry: nat, current: nat)
    requires expiry < TWO64 && current < TWO64
    ensures OldestValid(expiry, current) ==
            if expiry <= current then current - expiry else current + TWO64 - expiry
  {
  }

  /** An index without exactly the buckets that have run out. */
  ghost predicate DropsExpired(ix: Index, ix': Index, expiry: nat, current: nat) {
    && |ix'| <= |ix| && ix' == ix[|ix| - |ix'|..]
    && forall i: nat | i < |ix| :: i < |ix| - |ix'| <==> Expires(ix, expiry, current, i)
  }

  /** Expiry never erases a bucket as young as `current` exactly when the clock
      value is 0, the expiry is 0, or the clock value is at least the expiry:
      otherwise the unsigned difference wraps and almost everything goes. */
  lemma ExpireSparesCurrent(expiry: nat, current: nat)
    requires current < TWO64 && expiry < TWO64
    ensures (forall ix: Index, i: nat | Sorted(ix) && i < |ix| && i < ExpireCut(ix, expiry, current)
               :: ix[i].time < current)
            <==> expiry == 0 || current == 0 || current >= expiry
  {
    if expiry == 0 || current == 0 || current >= expiry {
      forall ix: Index, i: nat | Sorted(ix) && i < |ix| && i < ExpireCut(ix, expiry, current)
        ensures ix[i].time < current
      {
        ExpireCutMeaning(ix, expiry, current, i);
        assert current >= expiry ==> OldestValid(expiry, current) == current - expiry || current - expiry >= TWO64;
      }
    } else {
      var ix := [Bucket(current, [1]), Bucket(current + 1, [2])];
      assert OldestValid(expiry, current) == TWO64 + current - expiry;
      ExpireCutMeaning(ix, expiry, current, 0);
      assert 0 < ExpireCut(ix, expiry, current) && ix[0].time == current;
    }
  }

  /** Erasing leading buckets erases the same leading events. */
  lemma CutIsSuffix(ix: Index, k: nat)
    requires Sorted(ix) && k <= |ix|
    ensures Sorted(ix[k..])
    ensures |Flat(ix[..k])| <= |Flat(ix)|
    ensures Flat(ix[k..]) == Flat(ix)[|Flat(ix[..k])|..]
  {
    FlatSplit(ix, k);
  }

  // ------------------------------------------------------------- row scans

  predicate InRange(e: Event, start: nat, end: nat) {
    e.time >= start && (end == 0 || e.time <= end)
  }

  /** The reference meaning of a scan: ids above the cursor, in index order. */
  function FilterIds(f: seq<Event>, start: nat, end: nat, eid: nat): seq<nat> {
    if f == [] then [] else FilterOne(f[0], start, end, eid) + FilterIds(f[1..], start, end, eid)
  }

  function FilterOne(e: Event, start: nat, end: nat, eid: nat): seq<nat> {
    if InRange(e, start, end) && e.id > eid then [e.id] else []
  }

  lemma FilterCons(e: Event, f: seq<Event>, start: nat, end: nat, eid: nat)
    ensures FilterIds([e] + f, start, end, eid) == FilterOne(e, start, end, eid) + FilterIds(f, start, end, eid)
    ensures FilterIds([], start, end, eid) == []
  {
    assert ([e] + f)[1..] == f;
  }

  lemma {:induction false} FilterConcat(a: seq<Event>, b: seq<Event>, start: nat, end: nat, eid: nat)
    ensures FilterIds(a + b, start, end, eid) == FilterIds(a, start, end, eid) + FilterIds(b, start, end, eid)
  {
    hide FilterIds, FilterOne;
    FilterCons(Event(0, 0), b, start, end, eid);
    if a == [] {
      assert a + b == b;
    } else {
      FilterConcat(a[1..], b, start, end, eid);
      FilterCons(a[0], a[1..] + b, start, end, eid);
      FilterCons(a[0], a[1..], start, end, eid);
      Associative(FilterOne(a[0], start, end, eid), FilterIds(a[1..], start, end, eid), FilterIds(b, start, end, eid));
      assert [a[0]] + a[1..] == a && [a[0]] + (a[1..] + b) == a + b;
    }
  }

  lemma {:induction false} FilterNone(f: seq<Event>, start: nat, end: nat, eid: nat)
    requires forall e | e in f :: !InRange(e, start, end)
    ensures FilterIds(f, start, end, eid) == []
  {
    if f != [] {
      assert f[0] in f;
      FilterNone(f[1..], start, end, eid);
    }
  }

  function WindowLo(ix: Index, start: nat): (lo: nat)
    ensures lo <= |ix|
  {
    if start == 0 then 0 else LowerBound(ix, start)
  }

  function WindowHi(ix: Index, end: nat): (hi: nat)
    ensures hi <= |ix|
  {
    if end == 0 then |ix| else UpperBound(ix, end)
  }

  /** Buckets a scan visits, empty when the bounds are reversed. */
  function Window(ix: Index, start: nat, end: nat): Index {
    var lo, hi := WindowLo(ix, start), WindowHi(ix, end);
    if (end != 0 && start > end) || lo > hi then [] else ix[lo..hi]
  }

  /** Ids above the cursor over a run of buckets. */
  function IdsAbove(w: Index, eid: nat): seq<nat> {
    if w == [] then [] else Above(w[0].ids, eid) + IdsAbove(w[1..], eid)
  }

  function Above(ids: seq<nat>, eid: nat): seq<nat> {
    if ids == [] then [] else (if ids[0] > eid then [ids[0]] else []) + Above(ids[1..], eid)
  }

  lemma {:induction false} AboveIsFilter(t: nat, ids: seq<nat>, start: nat, end: nat, eid: nat)
    requires InRange(Event(t, 0), start, end)
    ensures Above(ids, eid) == FilterIds(Events(t, ids), start, end, eid)
  {
    if ids != [] {
      AboveIsFilter(t, ids[1..], start, end, eid);
      assert Events(t, ids)[1..] == Events(t, ids[1..]);
    }
  }

  lemma {:induction false} IdsAboveIsFilter(w: Index, start: nat, end: nat, eid: nat)
    requires forall i | 0 <= i < |w| :: InRange(Event(w[i].time, 0), start, end)
    ensures IdsAbove(w, eid) == FilterIds(Flat(w), start, end, eid)
  {
    if w != [] {
      IdsAboveIsFilter(w[1..], start, end, eid);
      AboveIsFilter(w[0].time, w[0].ids, start, end, eid);
      FilterConcat(Events(w[0].time, w[0].ids), Flat(w[1..]), start, end, eid);
    }
  }

  lemma OutsideNone(w: Index, start: nat, end: nat, eid: nat)
    requires forall i | 0 <= i < |w| :: !InRange(Event(w[i].time, 0), start, end)
    ensures FilterIds(Flat(w), start, end, eid) == []
  {
    FlatTimes(w);
    FilterNone(Flat(w), start, end, eid);
  }

  lemma FilterThree(ix: Index, lo: nat, hi: nat, start: nat, end: nat, eid: nat)
    requires lo <= hi <= |ix|
    ensures FilterIds(Flat(ix), start, end, eid) ==
            FilterIds(Flat(ix[..lo]), start, end, eid)
            + FilterIds(Flat(ix[lo..hi]), start, end, eid)
            + FilterIds(Flat(ix[hi..]), start, end, eid)
  {
    FlatSplit(ix, hi);
    FlatSplit(ix[..hi], lo);
    assert ix[..hi][..lo] == ix[..lo] && ix[..hi][lo..] == ix[lo..hi];
    FilterConcat(Flat(ix[..hi]), Flat(ix[hi..]), start, end, eid);
    FilterConcat(Flat(ix[..lo]), Flat(ix[lo..hi]), start, end, eid);
  }

  lemma WindowBounds(ix: Index, start: nat, end: nat)
    requires Sorted(ix)
    ensures var lo, hi := WindowLo(ix, start), WindowHi(ix, end);
            && (forall i | 0 <= i < lo :: ix[i].time < start)
            && (forall i | lo <= i < |ix| :: ix[i].time >= start)
            && (end != 0 ==> forall i | 0 <= i < hi :: ix[i].time <= end)
            && (end != 0 ==> forall i | hi <= i < |ix| :: ix[i].time > end)
  {
  }

  /** The iterator window followed by the id test is exactly the in-order
      filter by time range and id, for every pair of bounds. */
  lemma WindowIsFilter(ix: Index, start: nat, end: nat, eid: nat)
    requires Sorted(ix)
    ensures IdsAbove(Window(ix, start, end), eid) == FilterIds(Flat(ix), start, end, eid)
  {
    var lo, hi := WindowLo(ix, start), WindowHi(ix, end);
    WindowBounds(ix, start, end);
    if (end != 0 && start > end) || lo > hi {
      OutsideNone(ix, start, end, eid);
    } else {
      SliceIsFilter(ix, lo, hi, start, end, eid);
    }
  }

  lemma SliceIsFilter(ix: Index, lo: nat, hi: nat, start: nat, end: nat, eid: nat)
    requires lo <= hi <= |ix|
    requires forall i | 0 <= i < |ix| :: lo <= i < hi <==> InRange(Event(ix[i].time, 0), start, end)
    ensures IdsAbove(ix[lo..hi], eid) == FilterIds(Flat(ix), start, end, eid)
  {
    hide Flat, FilterIds, IdsAbove;
    FilterThree(ix, lo, hi, start, end, eid);
    OutsideNone(ix[..lo], start, end, eid);
    OutsideNone(ix[hi..], start, end, eid);
    IdsAboveIsFilter(ix[lo..hi], start, end, eid);
  }
}

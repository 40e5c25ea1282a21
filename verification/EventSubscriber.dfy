/** The subscriber object: in-memory index, id counter, event count and recorded
    queries, over the `events` domain of the database. Each method is tied to
    the operation of the same meaning in EventStore. */
module EventSubscriber {
  import opened Basics
  import opened Text
  import opened EventIndex
  import EventStore
  import TimeWindow
  type Record = EventStore.Record
  type Store = EventStore.Store

  lemma LeastUnique(m: map<string, nat>, v: nat, v': nat)
    requires EventStore.IsLeast(m, v) && EventStore.IsLeast(m, v')
    ensures v == v'
  {
  }

  lemma {:induction false} AboveConcat(a: seq<nat>, x: nat, eid: nat)
    ensures Above(a + [x], eid) == Above(a, eid) + if x > eid then [x] else []
  {
    if a == [] {
      assert a + [x] == [x] && [x][1..] == [];
    } else {
      AboveConcat(a[1..], x, eid);
      assert (a + [x])[1..] == a[1..] + [x];
    }
  }

  lemma {:induction false} IdsAboveConcat(w: Index, b: Bucket, eid: nat)
    ensures IdsAbove(w + [b], eid) == IdsAbove(w, eid) + Above(b.ids, eid)
  {
    hide Above;
    if w == [] {
      assert w + [b] == [b] && [b][1..] == [];
    } else {
      IdsAboveConcat(w[1..], b, eid);
      assert (w + [b])[1..] == w[1..] + [b];
    }
  }

  class Subscriber {
    const ns: string
    const flags: EventStore.Flags
    var kv: EventStore.Domain
    var index: Index
    var lastId: nat
    var count: nat
    var queries: map<string, nat>
    var queryCount: nat
    var minExpiration: nat

    ghost function View(): Store
      reads this
    {
      EventStore.Store(ns, flags, kv, index, lastId, count, queries, queryCount, minExpiration)
    }

    /** What `std::map` guarantees of the index. */
    ghost predicate Valid()
      reads this
    {
      Sorted(index)
    }

    /** A new process over the database an earlier one left. */
    constructor (ns: string, flags: EventStore.Flags, kv: EventStore.Domain)
      ensures Valid()
      ensures View() == EventStore.Store(ns, flags, kv, [], 0, 0, map[], 0, 0)
    {
      this.ns, this.flags, this.kv := ns, flags, kv;
      index, lastId, count := [], 0, 0;
      queries, queryCount, minExpiration := map[], 0, 0;
    }

    method AddBatch(rows: seq<EventStore.Row>, customTime: nat, now: nat, later: nat) returns (ok: bool)
      requires Valid()
      modifies this
      ensures Valid()
      ensures ok <==> EventStore.AnySerialises(rows)
      ensures View() == EventStore.AddBatch(old(View()), rows, if customTime != 0 then customTime else now, later)
    {
      hide EventStore.PutRows, EventStore.Evict, Insert, Sorted;
      var time := if customTime != 0 then customTime else now;
      var staged, ids, any := StageRows(rows, time);
      if !any {
        return false;
      }
      InsertSorted(index, time, ids);
      kv := staged;
      index := Insert(index, time, ids);
      var cleanup := count % EventStore.CHECKPOINT + |rows| >= EventStore.CHECKPOINT;
      count := count + |rows|;
      if cleanup {
        RemoveOverflowingEventBatches();
        var expiry := GetMinExpiry();
        ExpireEventBatches(expiry, later);
      }
      return true;
    }

    /** Take an id for every row and prepare the batch write. */
    method StageRows(rows: seq<EventStore.Row>, time: nat) returns (staged: EventStore.Domain, ids: seq<nat>, any: bool)
      modifies this`lastId
      ensures staged == EventStore.PutRows(kv, ns, time, old(lastId), rows)
      ensures ids == EventStore.IdRange(old(lastId), |rows|)
      ensures lastId == old(lastId) + |rows|
      ensures any <==> EventStore.AnySerialises(rows)
    {
      hide EventStore.DataKey, ToIndex;
      staged, ids, any := kv, [], false;
      var i := 0;
      while i < |rows|
        invariant i <= |rows|
        invariant staged == EventStore.PutRows(kv, ns, time, old(lastId), rows[..i])
        invariant ids == EventStore.IdRange(old(lastId), i)
        invariant lastId == old(lastId) + i
        invariant any <==> exists k | 0 <= k < i :: rows[k].serialises
      {
        lastId := lastId + 1;
        ids := ids + [lastId];
        if rows[i].serialises {
          var row := EventStore.Record(time, ToIndex(lastId), rows[i].columns);
          staged := staged[EventStore.DataKey(ns, lastId) := EventStore.Data(row)];
          any := true;
        }
        i := i + 1;
        assert rows[..i][..i - 1] == rows[..i - 1];
      }
      assert rows[..|rows|] == rows;
    }

    method GetMinExpiry() returns (expiry: nat)
      ensures expiry == EventStore.MinExpiry(View())
      ensures expiry >= flags.eventsExpiry && expiry >= minExpiration
      ensures expiry == flags.eventsExpiry || expiry == minExpiration
    {
      expiry := flags.eventsExpiry;
      if expiry < minExpiration {
        expiry := minExpiration;
      }
    }

    /** Delete the rows of evicted buckets, one key at a time. */
    method DeleteRows(batches: Index)
      modifies this`kv
      ensures kv == EventStore.DeleteEvents(old(kv), ns, EventStore.Ids(Flat(batches)))
    {
      hide EventStore.DataKey, EventStore.DeleteEvents, EventStore.Ids, Flat;
      NoIds();
      EventStore.DeleteOne(kv, ns, {}, 0);
      var i := 0;
      while i < |batches|
        invariant i <= |batches|
        invariant kv == EventStore.DeleteEvents(old(kv), ns, EventStore.Ids(Flat(batches[..i])))
      {
        IdsGrow(batches[..i], batches[i], 0);
        var j := 0;
        while j < |batches[i].ids|
          invariant j <= |batches[i].ids|
          invariant kv == EventStore.DeleteEvents(old(kv), ns, IdsUpTo(batches[..i], batches[i], j))
        {
          IdsGrow(batches[..i], batches[i], j + 1);
          EventStore.DeleteOne(old(kv), ns, IdsUpTo(batches[..i], batches[i], j), batches[i].ids[j]);
          kv := kv - {EventStore.DataKey(ns, batches[i].ids[j])};
          j := j + 1;
        }
        assert batches[..i + 1] == batches[..i] + [batches[i]];
        IdsGrow(batches[..i], batches[i], j);
        i := i + 1;
      }
      assert batches[..|batches|] == batches;
    }

    /** Move the oldest buckets out of the index, then delete their rows. */
    method EvictOldest(k: nat)
      requires Valid() && k <= |index|
      modifies this`kv, this`index
      ensures Valid()
      ensures View() == EventStore.Evict(old(View()), k) && index == old(index)[k..]
    {
      hide Sorted, Flat;
      var batches := index[..k];
      CutIsSuffix(index, k);
      index := index[k..];
      DeleteRows(batches);
    }

    method RemoveOverflowingEventBatches()
      requires Valid()
      modifies this`kv, this`index
      ensures Valid()
      ensures View() == EventStore.RemoveOverflowing(old(View()))
      ensures flags.eventsMax > 0 ==> |index| <= flags.eventsMax
      ensures old(index) != [] ==> index != [] && index[|index| - 1] == old(index[|index| - 1])
    {
      hide EventStore.Evict, Sorted;
      if flags.eventsMax == 0 || |index| <= flags.eventsMax {
        EvictNothing(View());
        return;
      }
      EvictOldest(|index| - flags.eventsMax);
    }

    method ExpireEventBatches(expiry: nat, currentTime: nat)
      requires Valid()
      modifies this`kv, this`index
      ensures Valid()
      ensures View() == EventStore.Expire(old(View()), expiry, currentTime)
      ensures old(index) != [] ==> index != [] && index[|index| - 1] == old(index[|index| - 1])
      ensures expiry < TWO64 && currentTime < TWO64 ==> DropsExpired(old(index), index, expiry, currentTime)
    {
      hide EventStore.Evict, Sorted, UpperBound, DropsExpired;
      ExpireAll(index, expiry, currentTime);
      EvictNothing(View());
      if expiry == 0 || currentTime == 0 || index == [] {
        return;
      }
      var oldest := (currentTime - expiry) % TWO64;
      if index[0].time >= oldest {
        return;
      }
      var end := UpperBound(index, oldest);
      if end != 0 && end == |index| {
        end := end - 1;
      }
      EvictOldest(end);
    }

    method GetExpireTime(now: nat) returns (t: nat)
      ensures t == EventStore.ExpireTime(View(), now)
      ensures queryCount > 0 && queries != map[] ==> EventStore.IsLeast(queries, t)
    {
      if queryCount == 0 || queries == map[] {
        return now;
      }
      var left := queries.Keys;
      var first :| first in left;
      t := queries[first];
      ghost var at := first;
      left := left - {first};
      while left != {}
        invariant left <= queries.Keys
        invariant at in queries && queries[at] == t
        invariant forall q | q in queries && q !in left :: t <= queries[q]
        decreases left
      {
        var q :| q in left;
        if queries[q] < t {
          t := queries[q];
          at := q;
        }
        left := left - {q};
      }
      EventStore.LeastExists(queries);
      LeastUnique(queries, t, EventStore.ExpireTime(View(), now));
    }

    /** Collect ids under the index lock, then read their rows. */
    method ScanRows(start: nat, end: nat, lastEid: nat)
      returns (rows: seq<Record>, isEnd: bool, cursor: EventStore.Cursor)
      requires Valid()
      modifies this`kv
      ensures rows == EventStore.RowsOf(old(kv), ns, IdsAbove(Window(index, start, end), lastEid))
      ensures kv == EventStore.DropUnreadable(old(kv), ns, IdsAbove(Window(index, start, end), lastEid))
      ensures isEnd <==> Window(index, start, end) == []
      ensures !isEnd ==> cursor == EventStore.EndOf(Window(index, start, end))
    {
      hide EventStore.DropUnreadable, EventStore.RowsOf, IdsAbove;
      rows, isEnd, cursor := [], true, EventStore.Cursor(0, 0);
      WindowBounds(index, start, end);
      NothingDropped(kv, ns);
      NoIdsAbove(lastEid);
      if end != 0 && start > end {
        return;
      }
      var lo := if start == 0 then 0 else LowerBound(index, start);
      if start != 0 && lo == |index| {
        assert Window(index, start, end) == [];
        return;
      }
      var hi := if end == 0 then |index| else UpperBound(index, end);
      var ids;
      ids, isEnd, cursor := CollectIds(lo, hi, lastEid);
      rows := ReadRows(ids);
    }

    /** Walk the buckets `[lo, hi)`, remembering the last one visited. */
    method CollectIds(lo: nat, hi: nat, lastEid: nat) returns (ids: seq<nat>, isEnd: bool, cursor: EventStore.Cursor)
      requires lo <= hi <= |index|
      ensures ids == IdsAbove(index[lo..hi], lastEid)
      ensures isEnd <==> lo == hi
      ensures !isEnd ==> cursor == EventStore.EndOf(index[lo..hi])
    {
      hide IdsAbove;
      ids, isEnd, cursor := [], true, EventStore.Cursor(0, 0);
      NoIdsAbove(lastEid);
      assert index[lo..lo] == [];
      var it := lo;
      while it != hi
        invariant lo <= it <= hi
        invariant ids == IdsAbove(index[lo..it], lastEid)
        invariant isEnd <==> it == lo
        invariant !isEnd ==> cursor == EventStore.EndOf(index[lo..it])
        decreases hi - it
      {
        var b := index[it];
        IdsAboveConcat(index[lo..it], b, lastEid);
        assert index[lo..it + 1] == index[lo..it] + [b];
        var more := CollectBucket(b.ids, lastEid);
        ids := ids + more;
        isEnd, cursor := false, EventStore.Cursor(b.time, if b.ids == [] then 0 else b.ids[|b.ids| - 1]);
        it := it + 1;
      }
    }

    /** Skip the ids a previous optimised scan has visited. */
    method CollectBucket(bucket: seq<nat>, lastEid: nat) returns (ids: seq<nat>)
      ensures ids == Above(bucket, lastEid)
    {
      ids := [];
      var j := 0;
      while j < |bucket|
        invariant j <= |bucket|
        invariant ids == Above(bucket[..j], lastEid)
      {
        AboveConcat(bucket[..j], bucket[j], lastEid);
        assert bucket[..j + 1] == bucket[..j] + [bucket[j]];
        if lastEid < bucket[j] {
          ids := ids + [bucket[j]];
        }
        j := j + 1;
      }
      assert bucket[..|bucket|] == bucket;
    }

    method ReadRows(ids: seq<nat>) returns (rows: seq<Record>)
      modifies this`kv
      ensures rows == EventStore.RowsOf(old(kv), ns, ids)
      ensures kv == EventStore.DropUnreadable(old(kv), ns, ids)
    {
      hide EventStore.DataKey, EventStore.RowAt;
      rows := [];
      var invalid: set<string> := {};
      var i := 0;
      while i < |ids|
        invariant i <= |ids| && kv == old(kv)
        invariant rows == EventStore.RowsOf(kv, ns, ids[..i])
        invariant invalid == EventStore.UnreadableKeys(kv, ns, ids[..i])
      {
        var key := EventStore.DataKey(ns, ids[i]);
        var row := EventStore.RowAt(kv, key);
        EventStore.ReadOne(kv, ns, ids[..i], ids[i]);
        assert ids[..i + 1] == ids[..i] + [ids[i]];
        if row.None? {
          invalid := invalid + {key};
        } else {
          rows := rows + [row.value];
        }
        i := i + 1;
      }
      assert ids[..|ids|] == ids;
      kv := kv - invalid;
    }

    method GenerateRows(canOptimize: bool, executing: string, start: nat, stop: nat, now: nat)
      returns (rows: seq<Record>)
      requires Valid() && (canOptimize ==> stop == 0)
      modifies this
      ensures Valid()
      ensures canOptimize ==> View() == EventStore.OptimizedQuery(old(View()), executing, now)
      ensures canOptimize ==> rows == EventStore.RowsOf(old(kv), ns, EventStore.Collected(old(View()), executing))
      ensures !canOptimize ==> View() == EventStore.WindowQuery(old(View()), start, stop, now)
      ensures !canOptimize ==> rows == EventStore.RowsOf(old(kv), ns, IdsAbove(Window(old(index), start, stop), 0))
    {
      hide EventStore.RowsOf, EventStore.DropUnreadable, EventStore.CursorOf, EventStore.SetCursor;
      hide EventStore.Evict, EventStore.ExpireTime, EventStore.MinExpiry, EventStore.EndOf;
      hide ExpireCut, Window, IdsAbove, Sorted, DropsExpired;
      var from, eid := start, 0;
      if canOptimize {
        var c := EventStore.CursorOf(kv, executing);
        from, eid := if c.time == 0 then 0 else c.time - 1, c.id;
        queries := queries[executing := from];
      }
      var isEnd, cursor;
      rows, isEnd, cursor := ScanRows(from, stop, eid);
      if canOptimize && !isEnd {
        kv := EventStore.SetCursor(kv, executing, cursor);
      }
      if |queries| >= queryCount {
        var expiry := GetMinExpiry();
        var t := GetExpireTime(now);
        ExpireEventBatches(expiry, t);
      }
    }

    /** `genTable`: a `time` constraint turns optimisation off and narrows the scan. */
    method GenTable(constraints: seq<TimeWindow.Constraint>, shouldOptimize: bool, executing: string, now: nat)
      returns (rows: seq<Record>)
      requires Valid()
      modifies this
      ensures Valid()
      ensures constraints == [] && shouldOptimize ==>
                && View() == EventStore.OptimizedQuery(old(View()), executing, now)
                && rows == EventStore.RowsOf(old(kv), ns, EventStore.Collected(old(View()), executing))
      ensures constraints != [] || !shouldOptimize ==>
                var w := TimeWindow.SpanOf(constraints, TimeWindow.Span(0, 0));
                && View() == EventStore.WindowQuery(old(View()), w.start, w.stop, now)
                && rows == EventStore.RowsOf(old(kv), ns, FilterIds(Flat(old(index)), w.start, w.stop, 0))
    {
      var w := TimeWindow.ComputeSpan(constraints);
      WindowIsFilter(index, w.start, w.stop, 0);
      rows := GenerateRows(constraints == [] && shouldOptimize, executing, w.start, w.stop, now);
    }

    method GenerateEventDataIndex(keys: seq<string>)
      requires EventStore.IsScan(kv, EventStore.DataPrefix(ns), keys)
      modifies this`kv, this`index, this`lastId
      ensures View() == EventStore.Rebuild(old(View()), keys)
      ensures Valid()
    {
      hide EventStore.DataPrefix, EventStore.RebuildKey, Sorted;
      var prefix := EventStore.DataPrefix(ns);
      var r := EventStore.Rebuilt([], 1, {});
      NothingIndexed();
      var i := 0;
      while i < |keys|
        invariant i <= |keys|
        invariant r == EventStore.RebuildFrom(kv, prefix, keys[..i])
        invariant Sorted(r.index)
        invariant unchanged(this)
      {
        assert keys[i] in keys;
        assert keys[..i + 1][..i] == keys[..i];
        r := IndexKey(keys[i], r);
        i := i + 1;
      }
      assert keys[..|keys|] == keys;
      kv := kv - r.invalid;
      lastId := r.lastId;
      index := r.index;
    }

    /** One round of the start-up scan. */
    method IndexKey(key: string, r: EventStore.Rebuilt) returns (r': EventStore.Rebuilt)
      requires EventStore.DataPrefix(ns) <= key && Sorted(r.index)
      ensures r' == EventStore.RebuildKey(kv, EventStore.DataPrefix(ns), r, key)
      ensures Sorted(r'.index)
    {
      r' := r;
      var id := WholeUint64(key[|EventStore.DataPrefix(ns)|..]).GetOr(0);
      if id == 0 {
        return r'.(invalid := r'.invalid + {key});
      }
      r' := r'.(lastId := if r'.lastId < id then id else r'.lastId);
      var row := EventStore.RowAt(kv, key);
      if row.None? {
        return r'.(invalid := r'.invalid + {key});
      }
      InsertSorted(r'.index, row.value.time, [id]);
      r' := r'.(index := Insert(r'.index, row.value.time, [id]));
    }

    method SetUp(keys: seq<string>, now: nat)
      requires EventStore.IsScan(kv, EventStore.DataPrefix(ns), keys)
      modifies this
      ensures Valid()
      ensures View() == EventStore.SetUp(old(View()), keys, now)
    {
      GenerateEventDataIndex(keys);
      var expiry := GetMinExpiry();
      ExpireEventBatches(expiry, now);
      RemoveOverflowingEventBatches();
    }

    /** `setMinExpiry` and `resetQueryCount`, as a schedule update calls them. */
    method Configure(expiry: nat, queryCount: nat)
      modifies this`minExpiration, this`queryCount, this`queries
      ensures View() == EventStore.Configure(old(View()), expiry, queryCount)
    {
      minExpiration := expiry;
      queries := map[];
      this.queryCount := queryCount;
    }
  }

  /** Ids of some whole buckets and the first `j` of one more. */
  ghost function IdsUpTo(w: Index, b: Bucket, j: nat): set<nat>
    requires j <= |b.ids|
  {
    EventStore.Ids(Flat(w)) + set k | 0 <= k < j :: b.ids[k]
  }

  lemma NoIds()
    ensures Flat([]) == [] && EventStore.Ids([]) == {}
  {
  }

  lemma NothingIndexed()
    ensures Sorted([])
  {
  }

  lemma NoIdsAbove(eid: nat)
    ensures IdsAbove([], eid) == []
  {
  }

  lemma IdsGrow(w: Index, b: Bucket, j: nat)
    requires j <= |b.ids|
    ensures j == 0 ==> IdsUpTo(w, b, j) == EventStore.Ids(Flat(w))
    ensures j > 0 ==> IdsUpTo(w, b, j) == IdsUpTo(w, b, j - 1) + {b.ids[j - 1]}
    ensures j == |b.ids| ==> IdsUpTo(w, b, j) == EventStore.Ids(Flat(w + [b]))
  {
    hide Flat;
    FlatConcat(w, [b]);
    FlatOne(b);
    var es := Events(b.time, b.ids);
    assert forall k | 0 <= k < |b.ids| :: es[k].id == b.ids[k];
    assert EventStore.Ids(es) == set k | 0 <= k < |b.ids| :: b.ids[k] by {
      forall k | 0 <= k < |b.ids| ensures b.ids[k] in EventStore.Ids(es) { assert es[k] in es; }
    }
  }

  lemma ExpireAll(ix: Index, expiry: nat, current: nat)
    requires Sorted(ix)
    ensures expiry < TWO64 && current < TWO64 ==>
              DropsExpired(ix, ix[ExpireCut(ix, expiry, current)..], expiry, current)
  {
    hide ExpireCut, Expires, Sorted;
    if expiry < TWO64 && current < TWO64 {
      forall i: nat | i < |ix| ensures i < ExpireCut(ix, expiry, current) <==> Expires(ix, expiry, current, i) {
        ExpireExact(ix, expiry, current, i);
      }
    }
  }

  lemma EvictNothing(s: Store)
    ensures EventStore.Evict(s, 0) == s
  {
  }

  lemma NothingDropped(kv: EventStore.Domain, ns: string)
    ensures EventStore.DropUnreadable(kv, ns, []) == kv && EventStore.RowsOf(kv, ns, []) == []
  {
  }
}

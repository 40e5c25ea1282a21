/** The subscriber outside the premises of a run: rows that cannot be serialised,
    batch times in any order, databases with any content, and a query that reads
    two subscribers. What still holds, and exactly which events are passed over. */
module EventLimits {
  import opened Basics
  import opened Text
  import opened EventIndex
  import opened EventStore
  import opened EventRuns

  /** Any sequence of operations, with no premise on any of them. */
  ghost predicate Steps(ws: seq<World>, ops: seq<Op>) {
    && |ws| == |ops| + 1
    && (forall k | 0 <= k < |ops| :: ws[k + 1] == Step(ws[k], ops[k]))
  }

  // ------------------------------------------------------- the buffer bound

  ghost predicate Sized(s: Store) {
    Sorted(s.index) && Bounded(s)
  }

  lemma EvictSized(s: Store, k: nat)
    requires Sized(s) && k <= |s.index|
    ensures Sized(Evict(s, k))
  {
    hide Sorted, Flat;
    CutIsSuffix(s.index, k);
  }

  lemma BatchSized(s: Store, rows: seq<Row>, time: nat, later: nat)
    requires Sized(s)
    ensures Sized(AddBatch(s, rows, time, later))
    ensures AnySerialises(rows) ==> Sorted(Append(s, rows, time).index)
  {
    hide Sorted, PutRows, Insert, Evict, DeleteEvents, Flat;
    if AnySerialises(rows) {
      var s', n := Append(s, rows, time), |rows|;
      InsertSorted(s.index, time, IdRange(s.lastId, n));
      if s.count % CHECKPOINT + n >= CHECKPOINT {
        OverflowSized(s');
        var s'' := RemoveOverflowing(s');
        EvictSized(s'', ExpireCut(s''.index, MinExpiry(s'), later));
      } else {
        NoCheckpoint(s.count, n);
      }
    }
  }

  /** Overflow removal brings any sorted index within the bound. */
  lemma OverflowSized(s: Store)
    requires Sorted(s.index)
    ensures Sized(RemoveOverflowing(s))
  {
    hide Sorted, Flat;
    CutIsSuffix(s.index, OverflowCut(s.index, s.flags.eventsMax));
  }

  lemma {:induction false} RebuildSorted(kv: Domain, prefix: string, keys: seq<string>)
    ensures Sorted(RebuildFrom(kv, prefix, keys).index)
    decreases |keys|
  {
    hide KeyId, Insert;
    if keys != [] {
      hide Sorted;
      RebuildSorted(kv, prefix, keys[..|keys| - 1]);
      var r, key := RebuildFrom(kv, prefix, keys[..|keys| - 1]), keys[|keys| - 1];
      if RowAt(kv, key).Some? {
        InsertSorted(r.index, RowAt(kv, key).value.time, [KeyId(prefix, key)]);
      }
    }
  }

  lemma SetUpSized(s: Store, keys: seq<string>, now: nat)
    ensures Sized(SetUp(s, keys, now))
  {
    hide Sorted, Flat, RebuildFrom, DeleteEvents;
    RebuildSorted(s.kv, DataPrefix(s.ns), keys);
    var s' := Rebuild(s, keys);
    var k := ExpireCut(s'.index, MinExpiry(s'), now);
    CutIsSuffix(s'.index, k);
    OverflowSized(Expire(s', MinExpiry(s'), now));
  }

  lemma StepSized(w: World, op: Op)
    requires Sized(w.store)
    ensures Sized(Step(w, op).store)
  {
    hide AddBatch, SetUp, Sorted, DropUnreadable, SetCursor, CursorOf, IdsAbove, Window, EndOf, ExpireTime, Evict;
    match op
    case Batch(rows, time, later) => BatchSized(w.store, rows, time, later);
    case Query(name, now) =>
      var s := Deliver(w.store, name);
      EvictSized(s, ExpireCut(s.index, MinExpiry(s), ExpireTime(s, now)));
    case TimedQuery(start, stop, now) =>
      var ids := IdsAbove(Window(w.store.index, start, stop), 0);
      var s := w.store.(kv := DropUnreadable(w.store.kv, w.store.ns, ids));
      EvictSized(s, ExpireCut(s.index, MinExpiry(s), ExpireTime(s, now)));
    case Schedule(_, _) =>
    case Restart(work, lost, keys, now) => SetUpSized(Reborn(Remains(Begun(w, work).store, lost)), keys, now);
  }

  /** The buffer bound, after any operations whatever: any rows and times, any
      scan results, any database. */
  lemma {:induction false} BufferBound(ws: seq<World>, ops: seq<Op>, k: nat)
    requires Steps(ws, ops) && Sized(ws[0].store) && k < |ws|
    ensures Sized(ws[k].store)
    ensures ws[k].store.flags.eventsMax > 0 ==>
              |ws[k].store.index| <= ws[k].store.flags.eventsMax + ws[k].store.count % 256
    decreases k
  {
    hide Step, Sorted;
    if k > 0 {
      BufferBound(ws, ops, k - 1);
      StepSized(ws[k - 1], ops[k - 1]);
    }
  }

  // -------------------------------------------- which buckets go, and when

  /** The larger of the flag and what the schedule asks for. */
  function ExpiryOf(s: Store): nat {
    Max(s.flags.eventsExpiry, s.minExpiration)
  }

  lemma ExpiryIs(s: Store)
    ensures MinExpiry(s) == ExpiryOf(s)
  {
  }

  lemma ExpireDrops(ix: Index, expiry: nat, current: nat)
    requires Sorted(ix) && expiry < TWO64 && current < TWO64
    ensures DropsExpired(ix, ix[ExpireCut(ix, expiry, current)..], expiry, current)
  {
    hide ExpireCut, Expires, Sorted;
    forall i: nat | i < |ix| ensures i < ExpireCut(ix, expiry, current) <==> Expires(ix, expiry, current, i) {
      ExpireExact(ix, expiry, current, i);
    }
  }

  /** The clock value of the expiry after a query: the oldest recorded start time,
      or the clock while none is counted or recorded. */
  ghost predicate ExpiryClock(s: Store, now: nat, t: nat) {
    if s.queryCount == 0 || s.queries == map[] then t == now else IsLeast(s.queries, t)
  }

  lemma ClockIs(s: Store, now: nat, t: nat)
    requires ExpiryClock(s, now, t)
    ensures ExpireTime(s, now) == t
  {
    if s.queryCount > 0 && s.queries != map[] {
      LeastIs(s, now);
    }
  }

  /** The expiry after a query: once as many names are recorded as are counted,
      exactly the buckets that have run out go; before that, none. */
  lemma QueryExpiryExact(s: Store, now: nat, t: nat)
    requires Sorted(s.index) && ExpiryOf(s) < TWO64 && t < TWO64 && ExpiryClock(s, now, t)
    ensures var ix := ExpireAfterQuery(s, now).index;
            if |s.queries| >= s.queryCount then DropsExpired(s.index, ix, ExpiryOf(s), t) else ix == s.index
  {
    hide ExpireCut, DropsExpired, Sorted, IsLeast, ExpireTime, ExpiryClock;
    ClockIs(s, now, t);
    ExpiryIs(s);
    ExpireDrops(s.index, ExpiryOf(s), t);
  }

  /** How many buckets are too many. */
  function Surplus(ix: Index, max: nat): (n: nat)
    ensures n <= |ix|
  {
    if max > 0 && |ix| > max then |ix| - max else 0
  }

  lemma SurplusIs(ix: Index, max: nat)
    ensures OverflowCut(ix, max) == Surplus(ix, max)
  {
  }

  /** Evictions that follow a batch: at every 256th event, and only then, first the
      oldest buckets over the maximum go, then those that have run out. */
  lemma CheckpointExact(s: Store, rows: seq<Row>, time: nat, later: nat)
    requires Sorted(s.index) && AnySerialises(rows) && ExpiryOf(s) < TWO64 && later < TWO64
    ensures var ix, ix' := Append(s, rows, time).index, AddBatch(s, rows, time, later).index;
            if s.count % 256 + |rows| < 256 then ix' == ix
            else DropsExpired(ix[Surplus(ix, s.flags.eventsMax)..], ix', ExpiryOf(s), later)
    ensures AddBatch(s, rows, time, later).count == s.count + |rows|
  {
    hide ExpireCut, DropsExpired, Sorted, OverflowCut, Insert, PutRows, DeleteEvents, Flat, IdRange;
    var s1 := Append(s, rows, time);
    RowIds(s.lastId, |rows|);
    InsertSorted(s.index, time, IdRange(s.lastId, |rows|));
    SurplusIs(s1.index, s.flags.eventsMax);
    CutIsSuffix(s1.index, Surplus(s1.index, s.flags.eventsMax));
    ExpiryIs(s1);
    ExpireDrops(s1.index[Surplus(s1.index, s.flags.eventsMax)..], ExpiryOf(s), later);
  }

  lemma RowIds(last: nat, n: nat)
    ensures n > 0 ==> IdRange(last, n) != []
  {
  }

  /** Evictions at start-up: first what has run out by the flag alone, then the
      oldest buckets over the maximum. */
  lemma StartUpExact(s: Store, keys: seq<string>, now: nat)
    requires s.flags.eventsExpiry < TWO64 && now < TWO64
    ensures var ix, ix' := Rebuild(Reborn(s), keys).index, SetUp(Reborn(s), keys, now).index;
            exists kept :: && DropsExpired(ix, kept, s.flags.eventsExpiry, now)
                           && ix' == kept[Surplus(kept, s.flags.eventsMax)..]
  {
    hide ExpireCut, DropsExpired, Sorted, OverflowCut, RebuildFrom, DeleteEvents, Flat, DataPrefix;
    RebuildSorted(s.kv, DataPrefix(s.ns), keys);
    var s1 := Rebuild(Reborn(s), keys);
    ExpireDrops(s1.index, s.flags.eventsExpiry, now);
    var kept := s1.index[ExpireCut(s1.index, s.flags.eventsExpiry, now)..];
    SurplusIs(kept, s.flags.eventsMax);
    assert DropsExpired(s1.index, kept, s.flags.eventsExpiry, now);
  }

  /** Every batch takes an id for each of its rows, stored or not. */
  lemma BatchTakesIds(s: Store, rows: seq<Row>, time: nat, later: nat)
    ensures AddBatch(s, rows, time, later).lastId == s.lastId + |rows|
    ensures !AnySerialises(rows) ==> AddBatch(s, rows, time, later).index == s.index
  {
    hide Insert, PutRows, ExpireCut, OverflowCut, DeleteEvents, Flat;
  }

  /** Of the events a scan collects, exactly those without a readable row lose
      their keys; every other key stays, with its value. */
  lemma DropExact(kv: Domain, ns: string, ids: seq<nat>, key: string)
    ensures var kv' := DropUnreadable(kv, ns, ids);
            && (key in kv' <==> key in kv && (kv[key].Data? || forall id | id in ids :: key != DataKey(ns, id)))
            && (key in kv' ==> kv'[key] == kv[key])
  {
    hide DataKey;
  }

  // ------------------------------------------------ what a rebuild takes in

  /** A key the start-up scan cannot use: no id in it, or no readable row. */
  ghost predicate Unusable(kv: Domain, prefix: string, key: string) {
    KeyId(prefix, key) == 0 || RowAt(kv, key).None?
  }

  ghost predicate FromKey(kv: Domain, prefix: string, keys: seq<string>, e: Event) {
    exists key | key in keys ::
      && !Unusable(kv, prefix, key) && KeyId(prefix, key) == e.id && RowAt(kv, key).value.time == e.time
  }

  /** Over any key list, the rebuilt index holds exactly the events of the usable
      keys, and exactly the others are deleted. */
  lemma {:induction false} RebuildExact(kv: Domain, prefix: string, keys: seq<string>, e: Event, k: string)
    ensures var r := RebuildFrom(kv, prefix, keys);
            && (e in Flat(r.index) <==> FromKey(kv, prefix, keys, e))
            && (k in r.invalid <==> k in keys && Unusable(kv, prefix, k))
    decreases |keys|
  {
    hide KeyId, Insert, Flat, RowAt;
    if keys == [] {
      FlatEmpty();
    } else {
      var init, key := keys[..|keys| - 1], keys[|keys| - 1];
      RebuildExact(kv, prefix, init, e, k);
      FromKeySnoc(kv, prefix, init, key, e);
      assert keys == init + [key];
      var r := RebuildFrom(kv, prefix, init);
      if !Unusable(kv, prefix, key) {
        var t, id := RowAt(kv, key).value.time, KeyId(prefix, key);
        InsertMembers(r.index, t, [id], e);
        assert Events(t, [id]) == [Event(t, id)];
      }
    }
  }

  /** Exactly the unusable keys of the subscriber leave the database. */
  lemma RebuildDeletes(s: Store, keys: seq<string>, key: string)
    requires IsScan(s.kv, DataPrefix(s.ns), keys)
    ensures var kv, prefix := Rebuild(s, keys).kv, DataPrefix(s.ns);
            && (key in kv <==> key in s.kv && !(prefix <= key && Unusable(s.kv, prefix, key)))
            && (key in kv ==> kv[key] == s.kv[key])
  {
    hide KeyId, RowAt, DataPrefix, RebuildFrom, Flat;
    RebuildExact(s.kv, DataPrefix(s.ns), keys, Event(0, 0), key);
  }

  lemma FromKeySnoc(kv: Domain, prefix: string, init: seq<string>, key: string, e: Event)
    ensures FromKey(kv, prefix, init + [key], e) <==>
            || FromKey(kv, prefix, init, e)
            || (!Unusable(kv, prefix, key) && KeyId(prefix, key) == e.id && RowAt(kv, key).value.time == e.time)
  {
    hide KeyId, RowAt;
    assert key in init + [key];
    if FromKey(kv, prefix, init, e) {
      var x :| x in init && !Unusable(kv, prefix, x) && KeyId(prefix, x) == e.id && RowAt(kv, x).value.time == e.time;
      assert x in init + [key];
    }
  }

  // ------------------------------------------------------ out-of-order times

  /** A new event, whatever its time, is in the next scan of a query exactly when
      it is not older than where that scan starts, one second before the cursor:
      an event that arrives later than that is passed over. */
  lemma CollectedIffTimely(w: World, rows: seq<Row>, time: nat, query: string, i: nat)
    requires Core(w) && query != "" && i < |rows|
    ensures w.store.lastId + 1 + i in Collected(Append(w.store, rows, time), query)
            <==> time + 1 >= CursorOf(w.store.kv, query).time
  {
    hide Core, CursorOf, Insert, PutRows, Flat, FilterIds, IdsAbove, Window, Sorted, Events;
    var s, c, id := w.store, CursorOf(w.store.kv, query), w.store.lastId + 1 + i;
    var ids := IdRange(s.lastId, |rows|);
    var ix := Insert(s.index, time, ids);
    CoreSorted(w);
    InsertSorted(s.index, time, ids);
    CursorsSurviveRows(s.kv, s.ns, time, s.lastId, rows, query);
    WindowIsFilter(ix, StartOf(c), 0, c.id);
    FilterMembers(Flat(ix), StartOf(c), 0, c.id, id);
    NewIdAbove(w, query);
    OnlyNewEvent(w, time, ids, i);
    if time >= StartOf(c) {
      var k :| 0 <= k < |Flat(ix)| && Flat(ix)[k] == Event(time, id);
      assert InRange(Flat(ix)[k], StartOf(c), 0);
    }
  }

  lemma OnlyNewEvent(w: World, time: nat, ids: seq<nat>, i: nat)
    requires ids == IdRange(w.store.lastId, |ids|) && i < |ids|
    requires forall e | e in Log(w) :: e.id <= w.store.lastId
    ensures var f := Flat(Insert(w.store.index, time, ids));
            && Event(time, w.store.lastId + 1 + i) in f
            && forall e | e in f && e.id == w.store.lastId + 1 + i :: e.time == time
  {
    hide Flat, Insert;
    var f, id := Flat(Insert(w.store.index, time, ids)), w.store.lastId + 1 + i;
    assert Events(time, ids)[i] == Event(time, id);
    InsertMembers(w.store.index, time, ids, Event(time, id));
    forall e | e in f && e.id == id ensures e.time == time {
      InsertMembers(w.store.index, time, ids, e);
    }
  }

  // -------------------------------------------------- ids given out again

  /** The id counter a rebuild ends with is the largest id in the keys. */
  lemma {:induction false} RebuildLast(kv: Domain, prefix: string, keys: seq<string>)
    ensures var last := RebuildFrom(kv, prefix, keys).lastId;
            && last >= 1 && (forall k | k in keys :: KeyId(prefix, k) <= last)
            && (last == 1 || exists k | k in keys :: KeyId(prefix, k) == last)
    decreases |keys|
  {
    hide KeyId, Insert;
    if keys != [] {
      var init, key := keys[..|keys| - 1], keys[|keys| - 1];
      RebuildLast(kv, prefix, init);
      assert forall k | k in keys :: k in init || k == key;
      assert forall k | k in init :: k in keys;
      assert key in keys;
    }
  }

  ghost predicate KeyUpTo(ns: string, key: string, n: nat) {
    exists id: nat | 1 <= id <= n :: key == DataKey(ns, id)
  }

  /** Every event key is that of an id up to the counter. */
  ghost predicate Keyed(kv: Domain, ns: string, last: nat) {
    last >= 1 && forall key | key in kv && DataPrefix(ns) <= key :: KeyUpTo(ns, key, last)
  }

  lemma {:induction false} BatchKeyed(kv: Domain, ns: string, time: nat, last: nat, rows: seq<Row>)
    requires Keyed(kv, ns, last)
    ensures Keyed(PutRows(kv, ns, time, last, rows), ns, last + |rows|)
    decreases |rows|
  {
    hide DataKey, DataPrefix, ToIndex;
    var n := |rows|;
    if n > 0 {
      BatchKeyed(kv, ns, time, last, rows[..n - 1]);
      var kv' := PutRows(kv, ns, time, last, rows);
      forall key | key in kv' && DataPrefix(ns) <= key
        ensures KeyUpTo(ns, key, last + n)
      {
        if key != DataKey(ns, last + n) {
          assert KeyUpTo(ns, key, last + n - 1);
        }
      }
    }
  }

  lemma UnusedKey(kv: Domain, ns: string, last: nat, id: nat)
    requires Keyed(kv, ns, last) && id > last
    ensures DataKey(ns, id) !in kv
  {
    hide DataKey, DataPrefix;
    DataKeysPrefixed(ns);
    if DataKey(ns, id) in kv {
      var x: nat :| 1 <= x <= last && DataKey(ns, id) == DataKey(ns, x);
      DataKeyInjective(ns, id, x);
    }
  }

  lemma NewestStored(kv: Domain, ns: string, time: nat, last: nat, rows: seq<Row>)
    requires Keyed(kv, ns, last) && rows != []
    ensures DataKey(ns, last + |rows|) in PutRows(kv, ns, time, last, rows) <==> rows[|rows| - 1].serialises
  {
    hide DataKey, DataPrefix, ToIndex, Keyed;
    BatchKeyed(kv, ns, time, last, rows[..|rows| - 1]);
    UnusedKey(PutRows(kv, ns, time, last, rows[..|rows| - 1]), ns, last + |rows| - 1, last + |rows|);
  }

  lemma DataKeyId(ns: string, id: nat)
    requires id < TEN10
    ensures KeyId(DataPrefix(ns), DataKey(ns, id)) == id
  {
    hide DataKey, DataPrefix, WholeUint64;
    DataKeyParses(ns, id);
  }

  /** A rebuild restores a counter exactly when the counter's own id is stored. */
  lemma RebuiltCounter(kv: Domain, ns: string, keys: seq<string>, newest: nat)
    requires Keyed(kv, ns, newest) && 1 < newest < TEN10 && IsScan(kv, DataPrefix(ns), keys)
    ensures var r := RebuildFrom(kv, DataPrefix(ns), keys).lastId;
            1 <= r <= newest && (r == newest <==> DataKey(ns, newest) in kv)
  {
    hide DataKey, DataPrefix, RebuildFrom, KeyId;
    RebuildLast(kv, DataPrefix(ns), keys);
    forall k | k in keys
      ensures KeyId(DataPrefix(ns), k) <= newest
      ensures KeyId(DataPrefix(ns), k) == newest ==> k == DataKey(ns, newest)
    {
      assert KeyUpTo(ns, k, newest);
      var id: nat :| 1 <= id <= newest && k == DataKey(ns, id);
      DataKeyId(ns, id);
    }
    DataKeyId(ns, newest);
    DataKeysPrefixed(ns);
  }

  /** A restart brings the id counter back exactly when the last row of the last
      batch was stored, whatever became of earlier rows. */
  lemma CounterRestored(s: Store, rows: seq<Row>, time: nat, keys: seq<string>)
    requires Keyed(s.kv, s.ns, s.lastId) && rows != [] && s.lastId + |rows| < TEN10
    requires IsScan(Append(s, rows, time).kv, DataPrefix(s.ns), keys)
    ensures Rebuild(Reborn(Append(s, rows, time)), keys).lastId == s.lastId + |rows|
            <==> rows[|rows| - 1].serialises
  {
    hide Keyed, DataKey, DataPrefix, PutRows, Insert, RebuildFrom, IsScan;
    CounterPositive(s);
    BatchKeyed(s.kv, s.ns, time, s.lastId, rows);
    RebuiltCounter(PutRows(s.kv, s.ns, time, s.lastId, rows), s.ns, keys, s.lastId + |rows|);
    NewestStored(s.kv, s.ns, time, s.lastId, rows);
  }

  lemma CounterPositive(s: Store)
    requires Keyed(s.kv, s.ns, s.lastId)
    ensures s.lastId >= 1
  {
  }

  /** An id a query's cursor has passed is never collected for it again. */
  lemma PassedIsSkipped(s: Store, query: string, id: nat)
    requires Sorted(s.index) && id <= CursorOf(s.kv, query).id
    ensures id !in Collected(s, query)
  {
    hide CursorOf, Flat, FilterIds, IdsAbove, Window;
    var c := CursorOf(s.kv, query);
    WindowIsFilter(s.index, StartOf(c), 0, c.id);
    FilterMembers(Flat(s.index), StartOf(c), 0, c.id, id);
  }


  // ------------------------------------------ keys over any sequence of steps

  /** A database without event keys beyond those of another. */
  ghost predicate NoNewEvents(kv: Domain, kv': Domain, ns: string) {
    forall key | key in kv' && DataPrefix(ns) <= key :: key in kv
  }

  lemma FewerKeyed(kv: Domain, kv': Domain, ns: string, last: nat, last': nat)
    requires Keyed(kv, ns, last) && NoNewEvents(kv, kv', ns) && last <= last'
    ensures Keyed(kv', ns, last')
  {
    hide DataKey, DataPrefix;
    forall key | key in kv' && DataPrefix(ns) <= key ensures KeyUpTo(ns, key, last') {
      assert KeyUpTo(ns, key, last);
    }
  }

  lemma CursorAddsNone(kv: Domain, ns: string, query: string, c: Cursor)
    ensures NoNewEvents(kv, SetCursor(kv, query, c), ns) && NoNewEvents(kv, SetCursorTime(kv, query, c.time), ns)
  {
    hide ToString, ToIndex;
    CursorKeysApart(ns, query, query);
  }

  lemma BegunKeyed(w: World, work: Work)
    requires Keyed(w.store.kv, w.store.ns, w.store.lastId)
    ensures var s := Begun(w, work).store; Keyed(s.kv, s.ns, s.lastId) && s.ns == w.store.ns
  {
    hide Keyed, PutRows, Insert, DropUnreadable, SetCursor, SetCursorTime, CursorOf, IdsAbove, Window, EndOf;
    hide NoNewEvents;
    var s := w.store;
    match work
    case Idle =>
    case Adding(rows, time) => BatchKeyed(s.kv, s.ns, time, s.lastId, rows);
    case Asking(name) => ScanAddsNone(s, name);
    case Cutting(name) => ScanAddsNone(s, name);
  }

  lemma ScanAddsNone(s: Store, query: string)
    requires Keyed(s.kv, s.ns, s.lastId)
    ensures Keyed(Deliver(s, query).kv, s.ns, s.lastId) && Keyed(DeliverCut(s, query).kv, s.ns, s.lastId)
  {
    hide Keyed, DataPrefix, UnreadableKeys, SetCursor, SetCursorTime, CursorOf, IdsAbove, Window;
    var c := CursorOf(s.kv, query);
    var win := Window(s.index, StartOf(c), 0);
    var kv := DropUnreadable(s.kv, s.ns, IdsAbove(win, c.id));
    FewerKeyed(s.kv, kv, s.ns, s.lastId, s.lastId);
    if win != [] {
      CursorAddsNone(kv, s.ns, query, EndOf(win));
      FewerKeyed(kv, SetCursor(kv, query, EndOf(win)), s.ns, s.lastId, s.lastId);
      FewerKeyed(kv, SetCursorTime(kv, query, EndOf(win).time), s.ns, s.lastId, s.lastId);
    }
  }

  lemma EvictKeyed(s: Store, k: nat)
    requires Keyed(s.kv, s.ns, s.lastId) && k <= |s.index|
    ensures Keyed(Evict(s, k).kv, s.ns, s.lastId)
  {
    hide Keyed, DataKey, DataPrefix, Flat;
    FewerKeyed(s.kv, Evict(s, k).kv, s.ns, s.lastId, s.lastId);
  }

  lemma SetUpKeyed(s: Store, last: nat, keys: seq<string>, now: nat)
    requires Keyed(s.kv, s.ns, last) && last < TEN10 && IsScan(s.kv, DataPrefix(s.ns), keys)
    ensures var s' := SetUp(s, keys, now); Keyed(s'.kv, s'.ns, s'.lastId) && s'.ns == s.ns
  {
    hide Keyed, DataPrefix, RebuildFrom, IsScan, Flat, DeleteEvents;
    RebuiltKeyed(s.kv, s.ns, last, keys);
    var s1 := Rebuild(s, keys);
    FewerKeyed(s.kv, s1.kv, s.ns, s1.lastId, s1.lastId);
    EvictKeyed(s1, ExpireCut(s1.index, MinExpiry(s1), now));
    var s2 := Expire(s1, MinExpiry(s1), now);
    EvictKeyed(s2, OverflowCut(s2.index, s2.flags.eventsMax));
  }

  lemma RebuiltKeyed(kv: Domain, ns: string, last: nat, keys: seq<string>)
    requires Keyed(kv, ns, last) && last < TEN10 && IsScan(kv, DataPrefix(ns), keys)
    ensures Keyed(kv, ns, RebuildFrom(kv, DataPrefix(ns), keys).lastId)
  {
    hide DataKey, DataPrefix, RebuildFrom, KeyId;
    RebuildLast(kv, DataPrefix(ns), keys);
    var r := RebuildFrom(kv, DataPrefix(ns), keys).lastId;
    forall key | key in kv && DataPrefix(ns) <= key ensures KeyUpTo(ns, key, r) {
      assert KeyUpTo(ns, key, last);
      var id: nat :| 1 <= id <= last && key == DataKey(ns, id);
      DataKeyId(ns, id);
      assert key in keys;
    }
  }

  /** The premises left: the database scan is exact, and ids keep to ten digits. */
  ghost predicate Scans(w: World, op: Op) {
    op.Restart? ==>
      var b := Begun(w, op.work).store;
      b.lastId < TEN10 && IsScan(Remains(b, op.lost).kv, DataPrefix(b.ns), op.keys)
  }

  lemma StepKeyed(w: World, op: Op)
    requires Keyed(w.store.kv, w.store.ns, w.store.lastId) && Scans(w, op)
    ensures var s := Step(w, op).store; Keyed(s.kv, s.ns, s.lastId)
  {
    hide Keyed, PutRows, Insert, Deliver, DropUnreadable, CursorOf, IdsAbove, Window, Begun, Evict, ExpireTime;
    hide Remains, SetUp, IsScan, DataPrefix;
    var s := w.store;
    match op
    case Batch(rows, time, later) => BatchStepKeyed(s, rows, time, later);
    case Query(name, now) =>
      ScanAddsNone(s, name);
      DeliverKeepsIds(s, name);
      var d := Deliver(s, name);
      EvictKeyed(d, ExpireCut(d.index, MinExpiry(d), ExpireTime(d, now)));
      EvictKeepsIds(d, ExpireCut(d.index, MinExpiry(d), ExpireTime(d, now)));
    case TimedQuery(start, stop, now) =>
      var d := s.(kv := DropUnreadable(s.kv, s.ns, IdsAbove(Window(s.index, start, stop), 0)));
      DropAddsNone(s.kv, s.ns, IdsAbove(Window(s.index, start, stop), 0));
      FewerKeyed(s.kv, d.kv, s.ns, s.lastId, s.lastId);
      EvictKeyed(d, ExpireCut(d.index, MinExpiry(d), ExpireTime(d, now)));
      EvictKeepsIds(d, ExpireCut(d.index, MinExpiry(d), ExpireTime(d, now)));
    case Schedule(_, _) =>
    case Restart(work, lost, keys, now) =>
      BegunKeyed(w, work);
      var b := Begun(w, work).store;
      RemainsKeyed(b, lost);
      SetUpKeyed(Reborn(Remains(b, lost)), b.lastId, keys, now);
  }

  lemma EvictKeepsIds(s: Store, k: nat)
    requires k <= |s.index|
    ensures Evict(s, k).ns == s.ns && Evict(s, k).lastId == s.lastId
  {
  }

  lemma DeliverKeepsIds(s: Store, query: string)
    ensures Deliver(s, query).ns == s.ns && Deliver(s, query).lastId == s.lastId
  {
  }

  lemma DropAddsNone(kv: Domain, ns: string, ids: seq<nat>)
    ensures NoNewEvents(kv, DropUnreadable(kv, ns, ids), ns)
  {
    hide DataPrefix, UnreadableKeys;
  }

  lemma RemainsKeyed(s: Store, lost: nat)
    requires Keyed(s.kv, s.ns, s.lastId)
    ensures Keyed(Remains(s, lost).kv, s.ns, s.lastId) && Remains(s, lost).ns == s.ns
  {
    hide Keyed, DataKey, DataPrefix, Flat;
    FewerKeyed(s.kv, Remains(s, lost).kv, s.ns, s.lastId, s.lastId);
  }

  lemma BatchStepKeyed(s: Store, rows: seq<Row>, time: nat, later: nat)
    requires Keyed(s.kv, s.ns, s.lastId)
    ensures var s' := AddBatch(s, rows, time, later); Keyed(s'.kv, s'.ns, s'.lastId)
  {
    hide Keyed, PutRows, Insert, Evict;
    BatchKeyed(s.kv, s.ns, time, s.lastId, rows);
    if !AnySerialises(rows) {
      FewerKeyed(s.kv, s.kv, s.ns, s.lastId, s.lastId + |rows|);
    } else if s.count % CHECKPOINT + |rows| >= CHECKPOINT {
      var s1 := Append(s, rows, time);
      EvictKeyed(s1, OverflowCut(s1.index, s1.flags.eventsMax));
      EvictKeepsIds(s1, OverflowCut(s1.index, s1.flags.eventsMax));
      var s2 := RemoveOverflowing(s1);
      EvictKeyed(s2, ExpireCut(s2.index, MinExpiry(s1), later));
      EvictKeepsIds(s2, ExpireCut(s2.index, MinExpiry(s1), later));
    }
  }

  /** Event keys never run ahead of the id counter, whatever rows fail to
      serialise and whatever order times come in. */
  lemma {:induction false} KeysBelowCounter(ws: seq<World>, ops: seq<Op>, k: nat)
    requires Steps(ws, ops) && Fresh(ws[0]) && k < |ws|
    requires forall j | 0 <= j < |ops| :: Scans(ws[j], ops[j])
    ensures Keyed(ws[k].store.kv, ws[k].store.ns, ws[k].store.lastId)
    decreases k
  {
    hide Step, Scans, CursorOf, DataPrefix, KeyUpTo;
    if k > 0 {
      KeysBelowCounter(ws, ops, k - 1);
      StepKeyed(ws[k - 1], ops[k - 1]);
    }
  }

  // ------------------------------------------------- lost to a reused id

  /** A batch, an optimised query that has caught up with it, a restart, and one
      more stored row. */
  ghost function AfterRestart(s: Store, rows: seq<Row>, time: nat, query: string, keys: seq<string>): Store {
    Rebuild(Reborn(Deliver(Append(s, rows, time), query)), keys)
  }

  /** A batch at the newest time and a cursor that is not ahead of it. */
  ghost predicate CatchesUp(s: Store, time: nat, query: string) {
    && Sorted(s.index) && Keyed(s.kv, s.ns, s.lastId) && query != "" && time < TWO63
    && (forall i | 0 <= i < |s.index| :: s.index[i].time <= time)
    && CursorOf(s.kv, query).time <= time
  }

  /** The scan after the batch reaches its last id and leaves the cursor there. */
  lemma CaughtUp(s: Store, rows: seq<Row>, time: nat, query: string)
    requires CatchesUp(s, time, query) && rows != [] && s.lastId + |rows| < TEN10
    ensures var s1 := Append(s, rows, time);
            CursorOf(Deliver(s1, query).kv, query) == Cursor(time, s.lastId + |rows|)
  {
    hide Keyed, PutRows, CursorOf, Deliver, Insert, Sorted;
    CursorsSurviveRows(s.kv, s.ns, time, s.lastId, rows, query);
    InsertLast(s.index, time, IdRange(s.lastId, |rows|));
    ScanToEnd(Append(s, rows, time), query);
  }

  /** A scan from a cursor no later than the newest bucket ends at its last id. */
  lemma ScanToEnd(s: Store, query: string)
    requires Sorted(s.index) && s.index != [] && query != ""
    requires var b := s.index[|s.index| - 1];
             CursorOf(s.kv, query).time <= b.time < TWO63 && b.ids != [] && b.ids[|b.ids| - 1] < TWO64
    ensures CursorOf(Deliver(s, query).kv, query) == EndOf(s.index)
  {
    hide CursorOf, SetCursor, DropUnreadable, IdsAbove;
    var c := CursorOf(s.kv, query);
    WindowBounds(s.index, StartOf(c), 0);
    hide Sorted;
    assert WindowLo(s.index, StartOf(c)) < |s.index|;
    var win := Window(s.index, StartOf(c), 0);
    assert win[|win| - 1] == s.index[|s.index| - 1];
    CursorReadsBack(DropUnreadable(s.kv, s.ns, IdsAbove(win, c.id)), query, EndOf(s.index));
  }

  /** At a time no older than any bucket, the new ids end the last bucket. */
  lemma InsertLast(ix: Index, t: nat, ids: seq<nat>)
    requires Sorted(ix) && ids != [] && (forall i | 0 <= i < |ix| :: ix[i].time <= t)
    ensures var r := Insert(ix, t, ids);
            && Sorted(r) && r != [] && r[|r| - 1].time == t
            && r[|r| - 1].ids != [] && r[|r| - 1].ids[|r[|r| - 1].ids| - 1] == ids[|ids| - 1]
  {
    InsertSorted(ix, t, ids);
    hide LowerBound;
    var p := LowerBound(ix, t);
    if p < |ix| {
      var l := |ix| - 1;
      assert ix[l].time <= t <= ix[p].time;
      assert ix[p].time == t && p == |ix| - 1;
    } else {
      assert ix[p..] == [];
    }
  }

  /** Which rows the restart leaves readable, for the last of the batch. */
  lemma LastRowKept(s: Store, rows: seq<Row>, time: nat, query: string)
    requires CatchesUp(s, time, query) && rows != []
    ensures var kv := Deliver(Append(s, rows, time), query).kv;
            && Keyed(kv, s.ns, s.lastId + |rows|)
            && (DataKey(s.ns, s.lastId + |rows|) in kv <==> rows[|rows| - 1].serialises)
  {
    hide Keyed, DataKey, DataPrefix, ToIndex, PutRows, CursorOf, IdsAbove, Window, RowAt, Insert, SetCursor, Sorted;
    var s1, id := Append(s, rows, time), s.lastId + |rows|;
    var c := CursorOf(s1.kv, query);
    var win := Window(s1.index, StartOf(c), 0);
    var ids := IdsAbove(win, c.id);
    BatchKeyed(s.kv, s.ns, time, s.lastId, rows);
    ScanAddsNone(s1, query);
    NewestStored(s.kv, s.ns, time, s.lastId, rows);
    PutRowsMeaning(s.kv, s.ns, time, s.lastId, rows, |rows| - 1);
    ReadableStays(s1.kv, s.ns, ids, id);
    DataKeysPrefixed(s.ns);
    if win != [] {
      CursorSparesData(s.ns, DropUnreadable(s1.kv, s1.ns, ids), query, EndOf(win));
    }
  }

  lemma ReadableStays(kv: Domain, ns: string, ids: seq<nat>, id: nat)
    ensures RowAt(kv, DataKey(ns, id)).Some? ==> DataKey(ns, id) in DropUnreadable(kv, ns, ids)
    ensures DataKey(ns, id) in DropUnreadable(kv, ns, ids) ==> DataKey(ns, id) in kv
  {
    hide DataKey;
  }

  lemma RebuildKeepsCursors(s: Store, keys: seq<string>, query: string)
    requires IsScan(s.kv, DataPrefix(s.ns), keys)
    ensures CursorOf(Rebuild(s, keys).kv, query) == CursorOf(s.kv, query)
  {
    hide DataPrefix, TryToLongLong, TryToUint64, RebuildFrom, TimeFromRecord;
    InvalidAreKeys(s.kv, DataPrefix(s.ns), keys);
    CursorKeysApart(s.ns, query, query);
    var kv' := Rebuild(s, keys).kv;
    assert TextAt(kv', TimeKey(query)) == TextAt(s.kv, TimeKey(query));
    assert TextAt(kv', EidKey(query)) == TextAt(s.kv, EidKey(query));
  }

  lemma {:induction false} InvalidAreKeys(kv: Domain, prefix: string, keys: seq<string>)
    ensures forall k | k in RebuildFrom(kv, prefix, keys).invalid :: k in keys
    decreases |keys|
  {
    hide KeyId, Insert, RowAt;
    if keys != [] {
      InvalidAreKeys(kv, prefix, keys[..|keys| - 1]);
      assert forall k | k in keys[..|keys| - 1] :: k in keys;
    }
  }

  /** Lost to a reused id. After the restart the next row is stored under the next
      id; the query that had caught up collects it exactly when the last row of
      the batch before the restart had been serialised. Otherwise the id is one
      the cursor has passed, and the event is never handed over. */
  lemma ReusedIdLost(s: Store, rows: seq<Row>, time: nat, query: string, keys: seq<string>, row: Row, later: nat)
    requires CatchesUp(s, time, query) && rows != [] && s.lastId + |rows| + 1 < TEN10 && time <= later
    requires IsScan(Deliver(Append(s, rows, time), query).kv, DataPrefix(s.ns), keys) && row.serialises
    ensures var s3 := AfterRestart(s, rows, time, query, keys);
            var s4 := Append(s3, [row], later);
            && RowAt(s4.kv, DataKey(s.ns, s4.lastId)) == Some(Record(later, ToIndex(s4.lastId), row.columns))
            && Event(later, s4.lastId) in Flat(s4.index)
            && (s4.lastId in Collected(s4, query) <==> rows[|rows| - 1].serialises)
  {
    hide CatchesUp, DataKey, DataPrefix, PutRows, CursorOf, Collected, Deliver, Append, Rebuild, IsScan, RowAt;
    hide Flat, ToIndex;
    var s2, newest := Deliver(Append(s, rows, time), query), s.lastId + |rows|;
    var s3 := AfterRestart(s, rows, time, query, keys);
    var s4 := Append(s3, [row], later);
    RestartedCounter(s, rows, time, query, keys);
    RestartedCursor(s, rows, time, query, keys);
    NextRow(s3, row, later);
    if s3.lastId < newest {
      PassedIsSkipped(s4, query, s4.lastId);
    } else {
      NextIsCollected(s3, row, later, query);
    }
  }

  lemma RestartedCounter(s: Store, rows: seq<Row>, time: nat, query: string, keys: seq<string>)
    requires CatchesUp(s, time, query) && rows != [] && s.lastId + |rows| < TEN10
    requires IsScan(Deliver(Append(s, rows, time), query).kv, DataPrefix(s.ns), keys)
    ensures var s3 := AfterRestart(s, rows, time, query, keys);
            && s3.lastId <= s.lastId + |rows|
            && (s3.lastId == s.lastId + |rows| <==> rows[|rows| - 1].serialises)
            && s3.ns == s.ns
            && (forall e | e in Flat(s3.index) :: e.id <= s3.lastId)
  {
    hide CatchesUp, Keyed, DataKey, DataPrefix, PutRows, CursorOf, Deliver, Insert, RebuildFrom, IsScan, Flat;
    var s2 := Deliver(Append(s, rows, time), query);
    DeliverKeepsIds(Append(s, rows, time), query);
    LastRowKept(s, rows, time, query);
    CatchesUpCounter(s, time, query);
    RebuiltCounter(s2.kv, s.ns, keys, s.lastId + |rows|);
    RebuiltIds(s2.kv, DataPrefix(s.ns), keys);
  }

  lemma CatchesUpCounter(s: Store, time: nat, query: string)
    requires CatchesUp(s, time, query)
    ensures s.lastId >= 1
  {
  }

  lemma {:induction false} RebuiltIds(kv: Domain, prefix: string, keys: seq<string>)
    ensures var r := RebuildFrom(kv, prefix, keys); forall e | e in Flat(r.index) :: e.id <= r.lastId
    decreases |keys|
  {
    hide KeyId, Insert, Flat, RowAt;
    if keys == [] {
      FlatEmpty();
    } else {
      RebuiltIds(kv, prefix, keys[..|keys| - 1]);
      var r, key := RebuildFrom(kv, prefix, keys[..|keys| - 1]), keys[|keys| - 1];
      if RowAt(kv, key).Some? {
        var t, id := RowAt(kv, key).value.time, KeyId(prefix, key);
        forall e | e in Flat(Insert(r.index, t, [id])) ensures e in Flat(r.index) || e.id == id {
          InsertMembers(r.index, t, [id], e);
        }
      }
    }
  }

  lemma RestartedCursor(s: Store, rows: seq<Row>, time: nat, query: string, keys: seq<string>)
    requires CatchesUp(s, time, query) && rows != [] && s.lastId + |rows| < TEN10
    requires IsScan(Deliver(Append(s, rows, time), query).kv, DataPrefix(s.ns), keys)
    ensures CursorOf(AfterRestart(s, rows, time, query, keys).kv, query) == Cursor(time, s.lastId + |rows|)
    ensures Sorted(AfterRestart(s, rows, time, query, keys).index)
  {
    hide CatchesUp, DataPrefix, PutRows, CursorOf, Deliver, Insert, RebuildFrom, IsScan, Sorted;
    var s2 := Deliver(Append(s, rows, time), query);
    DeliverKeepsIds(Append(s, rows, time), query);
    CaughtUp(s, rows, time, query);
    RebuildKeepsCursors(Reborn(s2), keys, query);
    RebuildSorted(s2.kv, DataPrefix(s.ns), keys);
  }

  lemma NextRow(s: Store, row: Row, time: nat)
    requires row.serialises && Sorted(s.index)
    ensures var s' := Append(s, [row], time);
            && s'.lastId == s.lastId + 1 && Sorted(s'.index)
            && RowAt(s'.kv, DataKey(s.ns, s'.lastId)) == Some(Record(time, ToIndex(s'.lastId), row.columns))
            && Event(time, s'.lastId) in Flat(s'.index)
            && (forall q :: CursorOf(s'.kv, q) == CursorOf(s.kv, q))
  {
    hide DataKey, ToIndex, RowAt, Insert, Flat, CursorOf, Sorted, PutRows, Events;
    PutRowsMeaning(s.kv, s.ns, time, s.lastId, [row], 0);
    var ids := IdRange(s.lastId, 1);
    InsertSorted(s.index, time, ids);
    InsertMembers(s.index, time, ids, Event(time, s.lastId + 1));
    assert Events(time, ids)[0] == Event(time, s.lastId + 1);
    forall q ensures CursorOf(Append(s, [row], time).kv, q) == CursorOf(s.kv, q) {
      CursorsSurviveRows(s.kv, s.ns, time, s.lastId, [row], q);
    }
  }

  lemma NextIsCollected(s: Store, row: Row, time: nat, query: string)
    requires row.serialises && Sorted(s.index) && s.lastId + 1 > CursorOf(s.kv, query).id
    requires time >= CursorOf(s.kv, query).time
    ensures s.lastId + 1 in Collected(Append(s, [row], time), query)
  {
    hide CursorOf, Append, Flat, FilterIds, IdsAbove, Window, RowAt, DataKey, ToIndex;
    var s', c := Append(s, [row], time), CursorOf(s.kv, query);
    NextRow(s, row, time);
    WindowIsFilter(s'.index, StartOf(c), 0, c.id);
    FilterMembers(Flat(s'.index), StartOf(c), 0, c.id, s.lastId + 1);
    var k :| 0 <= k < |Flat(s'.index)| && Flat(s'.index)[k] == Event(time, s.lastId + 1);
    assert InRange(Flat(s'.index)[k], StartOf(c), 0);
  }

  // -------------------------------------------------- such a loss, as a run

  lemma {:induction false} LexTotal(a: string, b: string)
    ensures a == b || LexLess(a, b) || LexLess(b, a)
  {
    if a != "" && b != "" && a[0] == b[0] {
      LexTotal(a[1..], b[1..]);
      assert a == [a[0]] + a[1..] && b == [b[0]] + b[1..];
    }
  }

  lemma {:induction false} LexTransitive(a: string, b: string, c: string)
    requires LexLess(a, b) && LexLess(b, c)
    ensures LexLess(a, c)
  {
    if a != "" && a[0] == b[0] && b[0] == c[0] {
      LexTransitive(a[1..], b[1..], c[1..]);
    }
  }

  /** A key put in its place in an ordered list. */
  lemma {:induction false} InOrder(keys: seq<string>, k: string) returns (all: seq<string>)
    requires LexAscending(keys) && k !in keys
    ensures LexAscending(all) && forall x :: x in all <==> x == k || x in keys
  {
    if keys == [] {
      all := [k];
    } else {
      LexTotal(keys[0], k);
      assert keys[0] in keys;
      if LexLess(k, keys[0]) {
        all := [k] + keys;
        forall j | 0 <= j < |keys| ensures LexLess(k, keys[j]) {
          if j > 0 {
            LexTransitive(k, keys[0], keys[j]);
          }
        }
      } else {
        var rest := InOrder(keys[1..], k);
        all := [keys[0]] + rest;
        forall j | 0 <= j < |rest| ensures LexLess(keys[0], rest[j]) {
          assert rest[j] in rest;
          if rest[j] != k {
            var i :| 0 <= i < |keys[1..]| && keys[1..][i] == rest[j];
            assert keys[1 + i] == rest[j];
          }
        }
        assert forall x :: x in keys <==> x == keys[0] || x in keys[1..] by {
          assert keys == [keys[0]] + keys[1..];
        }
      }
    }
  }

  lemma {:induction false} OrderedListing(s: set<string>) returns (keys: seq<string>)
    ensures LexAscending(keys) && forall k :: k in keys <==> k in s
    decreases |s|
  {
    if s == {} {
      keys := [];
    } else {
      var k :| k in s;
      var rest := OrderedListing(s - {k});
      keys := InOrder(rest, k);
    }
  }

  /** Any database can be scanned. */
  lemma ScanAlwaysExists(kv: Domain, prefix: string)
    ensures exists keys :: IsScan(kv, prefix, keys)
  {
    hide LexLess;
    var keys := OrderedListing(set k | k in kv && prefix <= k);
    assert IsScan(kv, prefix, keys);
  }

  /** Nothing is evicted where nothing is limited. */
  lemma UnlimitedSteps(s: Store, query: string, keys: seq<string>)
    requires s.flags == Flags(0, 0) && s.minExpiration == 0
    ensures OptimizedQuery(s, query, 0) == Deliver(s, query)
    ensures SetUp(Reborn(s), keys, 0) == Rebuild(Reborn(s), keys)
    ensures Remains(s, 0) == s
  {
    hide CursorOf, SetCursor, DropUnreadable, Window, IdsAbove, EndOf, RebuildFrom, DataPrefix, Evict, DeleteEvents;
    EvictNone(Deliver(s, query));
    EvictNone(Rebuild(Reborn(s), keys));
    DeleteOne(s.kv, s.ns, {}, 0);
    assert Ids(Flat(s.index)[..0]) == {};
  }

  lemma EvictNone(s: Store)
    ensures Evict(s, 0) == s
  {
    assert s.index[..0] == [] && s.index[0..] == s.index;
    assert s.kv - {} == s.kv;
  }

  /** Indexed and stored, but not in the next scan of a query. */
  ghost predicate PassedOver(s: Store, query: string, time: nat) {
    && Event(time, s.lastId) in Flat(s.index) && RowAt(s.kv, DataKey(s.ns, s.lastId)).Some?
    && s.lastId !in Collected(s, query)
  }

  /** A run that loses an event to a reused id: a batch whose second row cannot be
      serialised, a query, a restart, and a batch of one row. */
  lemma ReusedIdRun(query: string)
    requires query != ""
    ensures exists ws: seq<World>, ops: seq<Op> ::
              Steps(ws, ops) && Fresh(ws[0]) && PassedOver(ws[|ops|].store, query, 1)
  {
    hide Step, Fresh, PassedOver, Deliver, Append, FirstWorld, DataPrefix, IsScan, AfterRestart, CatchesUp;
    hide Collected, RowAt, DataKey, Flat, ToIndex;
    var good, bad := Row("", true), Row("", false);
    var w0 := FirstWorld();
    var s0 := w0.store;
    var s2 := Deliver(Append(s0, [good, bad], 1), query);
    ScanAlwaysExists(s2.kv, DataPrefix(s2.ns));
    var keys :| IsScan(s2.kv, DataPrefix(s2.ns), keys);
    var ops := [Batch([good, bad], 1, 0), Query(query, 0), Restart(Idle, 0, keys, 0), Batch([good], 1, 0)];
    var w1 := Step(w0, ops[0]);
    var w2 := Step(w1, ops[1]);
    var w3 := Step(w2, ops[2]);
    var w4 := Step(w3, ops[3]);
    FirstIsFresh();
    FirstCatchesUp(query);
    ReusedStores(w0, w1, w2, w3, w4, query, keys);
    ReusedIdLost(s0, [good, bad], 1, query, keys, good, 1);
    PassedOverIs(w4.store, query, 1);
    var ws := [w0, w1, w2, w3, w4];
    assert Steps(ws, ops);
  }

  lemma PassedOverIs(s: Store, query: string, time: nat)
    requires Event(time, s.lastId) in Flat(s.index) && RowAt(s.kv, DataKey(s.ns, s.lastId)).Some?
    requires s.lastId !in Collected(s, query)
    ensures PassedOver(s, query, time)
  {
  }

  lemma FirstCatchesUp(query: string)
    requires query != ""
    ensures CatchesUp(FirstWorld().store, 1, query) && FirstWorld().store.lastId == 1
  {
    assert CursorOf(map[], query) == Cursor(0, 0);
  }

  /** The stores of that run. */
  lemma ReusedStores(w0: World, w1: World, w2: World, w3: World, w4: World, query: string, keys: seq<string>)
    requires w0 == FirstWorld() && w1 == Step(w0, Batch([Row("", true), Row("", false)], 1, 0))
    requires w2 == Step(w1, Query(query, 0)) && w3 == Step(w2, Restart(Idle, 0, keys, 0))
    requires w4 == Step(w3, Batch([Row("", true)], 1, 0))
    ensures w2.store == Deliver(Append(w0.store, [Row("", true), Row("", false)], 1), query)
    ensures w3.store == AfterRestart(w0.store, [Row("", true), Row("", false)], 1, query, keys)
    ensures w4.store == Append(w3.store, [Row("", true)], 1)
    ensures w2.store.ns == w0.store.ns && w4.store.ns == w0.store.ns
  {
    hide PutRows, Insert, EverAfter, CursorOf, SetCursor, DropUnreadable, Window, IdsAbove, EndOf, RebuildFrom;
    hide Evict, Collected, Remains, SetUp, OptimizedQuery, DataPrefix;
    assert [Row("", true), Row("", false)][0].serialises && [Row("", true)][0].serialises;
    UnlimitedSteps(w1.store, query, keys);
    UnlimitedSteps(w2.store, query, keys);
  }

  // ----------------------------------------------------- one shared cursor

  /** A query that reads two subscribers has one cursor for both, whose ids are
      counted apart. After its scan of `a` it collects from `b`, which shares the
      database, exactly the events with an id above the newest of `a` that are not
      older than one second before it; the others are passed over. */
  lemma SharedCursorSkips(a: World, b: Store, query: string, e: Event)
    requires Core(a) && query != "" && a.store.index != [] && Sorted(b.index)
    requires e in Flat(b.index) && (forall x | x in Flat(b.index) && x.id == e.id :: x == e)
    ensures e.id in Collected(b.(kv := Deliver(a.store, query).kv), query)
            <==> e.id > a.store.lastId && e.time + 1 >= NewestTime(a)
  {
    hide Core, CursorOf, SetCursor, Flat, FilterIds, IdsAbove, Window, Deliver, Sorted;
    var b' := b.(kv := Deliver(a.store, query).kv);
    var c := Cursor(NewestTime(a), a.store.lastId);
    LogNotEmpty(a);
    DeliverShape(a, query);
    CounterSmall(a);
    CursorReadsBack(a.store.kv, query, c);
    WindowIsFilter(b.index, StartOf(c), 0, c.id);
    FilterMembers(Flat(b.index), StartOf(c), 0, c.id, e.id);
    var k :| 0 <= k < |Flat(b.index)| && Flat(b.index)[k] == e;
    assert InRange(e, StartOf(c), 0) <==> e.time >= StartOf(c);
    forall j | 0 <= j < |Flat(b.index)| && Flat(b.index)[j].id == e.id ensures Flat(b.index)[j] == e {
      assert Flat(b.index)[j] in Flat(b.index);
    }
  }

  lemma CounterSmall(w: World)
    requires Core(w)
    ensures w.store.lastId < TEN10
  {
  }
}

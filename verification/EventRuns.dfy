/** Runs of the subscriber: batches, optimised and windowed queries, schedule
    updates and restarts in any order. A `World` is the subscriber's state
    together with three histories: every row ever stored, by id; the ids each
    query name has been handed so far; and the ids it has been made to miss. */
module EventRuns {
  import opened Basics
  import opened Text
  import opened EventIndex
  import opened EventStore

  datatype World = World(store: Store, ever: map<nat, Record>, seen: map<string, seq<nat>>,
                         missed: map<string, set<nat>>)

  datatype Op =
    | Batch(rows: seq<Row>, time: nat, later: nat)
    | Query(name: string, now: nat)
    | TimedQuery(start: nat, stop: nat, now: nat)
    | Schedule(expiry: nat, queryCount: nat)
    | Restart(work: Work, lost: nat, keys: seq<string>, now: nat)

  /** What a process was doing when it died: nothing; the evictions that end a
      batch or an optimised query whose own writes were done; or an optimised
      query of whose two cursor writes only the first was done. */
  datatype Work = Idle | Adding(rows: seq<Row>, time: nat) | Asking(name: string) | Cutting(name: string)

  function Seen(w: World, query: string): seq<nat> {
    SeenBy(w.seen, query)
  }

  function SeenBy(seen: map<string, seq<nat>>, query: string): seq<nat> {
    if query in seen then seen[query] else []
  }

  function Missed(w: World, query: string): set<nat> {
    MissedBy(w.missed, query)
  }

  function MissedBy(missed: map<string, set<nat>>, query: string): set<nat> {
    if query in missed then missed[query] else {}
  }

  ghost predicate Ascending(ids: seq<nat>) {
    forall i, j | 0 <= i < j < |ids| :: ids[i] < ids[j]
  }

  function Log(w: World): seq<Event> {
    Flat(w.store.index)
  }

  /** Rows added to the history by a batch. */
  function EverAfter(ever: map<nat, Record>, time: nat, last: nat, rows: seq<Row>): map<nat, Record> {
    var n := |rows|;
    if n == 0 then ever
    else
      var before := EverAfter(ever, time, last, rows[..n - 1]);
      if !rows[n - 1].serialises then before
      else before[last + n := Record(time, ToIndex(last + n), rows[n - 1].columns)]
  }

  /** The database a dying process leaves: it may be caught having deleted only
      the first `lost` events of an eviction. */
  function Remains(s: Store, lost: nat): Store {
    var f := Flat(s.index);
    s.(kv := DeleteEvents(s.kv, s.ns, Ids(if lost <= |f| then f[..lost] else f)))
  }

  /** A batch and an optimised query before their evictions. */
  ghost function Appended(w: World, rows: seq<Row>, time: nat): World {
    w.(store := Append(w.store, rows, time), ever := EverAfter(w.ever, time, w.store.lastId, rows))
  }

  ghost function Delivered(w: World, query: string): World {
    w.(store := Deliver(w.store, query), seen := w.seen[query := Seen(w, query) + Collected(w.store, query)])
  }

  /** Events a cut cursor write puts out of the reach of a query: above its id and
      older than where its scans start from then on, one second before the
      newest event. */
  ghost predicate CutMisses(w: World, query: string, id: nat) {
    exists i | 0 <= i < |Log(w)| ::
      && Log(w)[i].id == id && id > CursorOf(w.store.kv, query).id
      && Log(w)[i].time + 1 < Log(w)[|Log(w)| - 1].time
  }

  ghost function CutSet(w: World, query: string): set<nat> {
    set e | e in Log(w) && CutMisses(w, query, e.id) :: e.id
  }

  /** An optimised query that dies between its cursor writes. Its results have not
      reached the log of the query by then, so it counts as not handed over. */
  ghost function DeliveredCut(w: World, query: string): World {
    w.(store := DeliverCut(w.store, query), missed := w.missed[query := Missed(w, query) + CutSet(w, query)])
  }

  ghost function Begun(w: World, work: Work): World {
    match work
    case Idle => w
    case Adding(rows, time) => if rows == [] then w else Appended(w, rows, time)
    case Asking(name) => Delivered(w, name)
    case Cutting(name) => DeliveredCut(w, name)
  }

  ghost function Step(w: World, op: Op): World {
    match op
    case Batch(rows, time, later) =>
      w.(store := AddBatch(w.store, rows, time, later),
         ever := EverAfter(w.ever, time, w.store.lastId, rows))
    case Query(name, now) =>
      w.(store := OptimizedQuery(w.store, name, now),
         seen := w.seen[name := Seen(w, name) + Collected(w.store, name)])
    case TimedQuery(start, stop, now) =>
      w.(store := WindowQuery(w.store, start, stop, now))
    case Schedule(expiry, queryCount) =>
      w.(store := Configure(w.store, expiry, queryCount))
    case Restart(work, lost, keys, now) =>
      var b := Begun(w, work);
      b.(store := SetUp(Reborn(Remains(b.store, lost)), keys, now))
  }

  ghost predicate AllSerialise(rows: seq<Row>) {
    forall i | 0 <= i < |rows| :: rows[i].serialises
  }

  /** The premises of a run: rows serialise, batch times never decrease and fit a
      signed 64-bit reading, ids keep to ten digits, a process dies with at most
      a proper part of its events deleted, and the database scan is exact. */
  ghost predicate Allowed(w: World, op: Op) {
    match op
    case Batch(rows, time, later) => Timely(w, rows, time)
    case Restart(work, lost, keys, now) =>
      var b := Begun(w, work);
      && (work.Adding? ==> Timely(w, work.rows, work.time))
      && (lost == 0 || lost < |Log(b)|)
      && IsScan(Remains(b.store, lost).kv, DataPrefix(b.store.ns), keys)
    case _ => true
  }

  ghost predicate Timely(w: World, rows: seq<Row>, time: nat) {
    && AllSerialise(rows)
    && w.store.lastId + |rows| < TEN10
    && time < TWO63
    && (Log(w) != [] ==> time >= Log(w)[|Log(w)| - 1].time)
  }

  /** A subscriber set up over a database that holds none of its events and no
      query cursors. */
  ghost predicate Fresh(w: World) {
    && w.ever == map[] && w.seen == map[] && w.missed == map[]
    && (forall k | k in w.store.kv :: !(DataPrefix(w.store.ns) <= k))
    && (forall q :: CursorOf(w.store.kv, q) == Cursor(0, 0))
    && w.store.index == [] && w.store.lastId == 1
    && w.store.count == 0 && w.store.queries == map[]
  }

  /** A run: the worlds it passes through and the operations between them. */
  ghost predicate Behaviour(ws: seq<World>, ops: seq<Op>) {
    && |ws| == |ops| + 1 && Fresh(ws[0])
    && (forall k | 0 <= k < |ops| :: Allowed(ws[k], ops[k]) && ws[k + 1] == Step(ws[k], ops[k]))
  }

  // ------------------------------------------------------------- invariant

  /** The event list against the history. */
  ghost predicate LogOk(f: seq<Event>, lastId: nat, ever: map<nat, Record>) {
    && Ordered(f)
    && 1 <= lastId < TEN10
    && (if f == [] then lastId == 1 && ever == map[] else lastId == f[|f| - 1].id)
    && (forall id | id in ever :: id <= lastId)
    && (forall i | 0 <= i < |f| ::
          && 1 <= f[i].id && f[i].time < TWO63
          && f[i].id in ever && ever[f[i].id].time == f[i].time && ever[f[i].id].eid == ToIndex(f[i].id))
  }

  /** The database holds exactly the listed events, with the rows first stored. */
  ghost predicate Holds(kv: Domain, ns: string, f: seq<Event>, ever: map<nat, Record>) {
    && (forall i | 0 <= i < |f| ::
          f[i].id in ever && DataKey(ns, f[i].id) in kv && kv[DataKey(ns, f[i].id)] == Data(ever[f[i].id]))
    && (forall k | k in kv && DataPrefix(ns) <= k :: exists i | 0 <= i < |f| :: k == DataKey(ns, f[i].id))
  }

  /** A cursor separates the events a query has been handed or made to miss from
      those it has not. */
  ghost predicate CursorOk(c: Cursor, f: seq<Event>, lastId: nat, seen: seq<nat>, missed: set<nat>) {
    && (if f == [] then c == Cursor(0, 0) else c.time <= f[|f| - 1].time && c.id <= lastId)
    && (forall i | 0 <= i < |f| && f[i].id > c.id :: f[i].id in missed <==> f[i].time + 1 < c.time)
    && (forall i | 0 <= i < |f| && f[i].id <= c.id :: f[i].id in seen <==> f[i].id !in missed)
    && Ascending(seen)
    && (forall id | id in seen :: id <= c.id && id !in missed)
    && (forall id | id in missed :: id <= lastId)
  }

  ghost predicate CursorsOk(kv: Domain, f: seq<Event>, lastId: nat, seen: map<string, seq<nat>>,
                            missed: map<string, set<nat>>) {
    forall q | q != "" :: CursorOk(CursorOf(kv, q), f, lastId, SeenBy(seen, q), MissedBy(missed, q))
  }

  ghost predicate QueriesOk(s: Store) {
    forall q | q in s.queries :: s.queries[q] <= StartOf(CursorOf(s.kv, q))
  }

  ghost predicate Bounded(s: Store) {
    s.flags.eventsMax > 0 ==> |s.index| <= s.flags.eventsMax + s.count % CHECKPOINT
  }

  /** Everything in the invariant except the buffer bound. */
  ghost predicate Core(w: World) {
    var s := w.store;
    && Sorted(s.index)
    && LogOk(Log(w), s.lastId, w.ever)
    && Holds(s.kv, s.ns, Log(w), w.ever)
    && CursorsOk(s.kv, Log(w), s.lastId, w.seen, w.missed)
    && QueriesOk(s)
  }

  ghost predicate Inv(w: World) {
    Core(w) && Bounded(w.store)
  }

  lemma FreshInv(w: World)
    requires Fresh(w)
    ensures Inv(w)
  {
    hide CursorOf, DataPrefix, DataKey;
  }

  // -------------------------------------------------- eviction keeps it

  lemma CursorsSurviveDeletes(kv: Domain, ns: string, ids: set<nat>)
    ensures forall q :: CursorOf(DeleteEvents(kv, ns, ids), q) == CursorOf(kv, q)
  {
    forall q
      ensures CursorOf(DeleteEvents(kv, ns, ids), q) == CursorOf(kv, q)
    {
      CursorKeysApart(ns, q, q);
      var kv' := DeleteEvents(kv, ns, ids);
      assert forall id :: DataPrefix(ns) <= DataKey(ns, id);
      assert TextAt(kv', TimeKey(q)) == TextAt(kv, TimeKey(q));
      assert TextAt(kv', EidKey(q)) == TextAt(kv, EidKey(q));
    }
  }

  lemma SuffixHolds(kv: Domain, ns: string, f: seq<Event>, ever: map<nat, Record>, k: nat)
    requires Holds(kv, ns, f, ever) && Ordered(f) && k <= |f|
    ensures Holds(DeleteEvents(kv, ns, Ids(f[..k])), ns, f[k..], ever)
  {
    hide DataKey, DataPrefix, ToIndex;
    var kv' := DeleteEvents(kv, ns, Ids(f[..k]));
    forall i | k <= i < |f|
      ensures DataKey(ns, f[i].id) in kv'
    {
      forall id | id in Ids(f[..k])
        ensures DataKey(ns, id) != DataKey(ns, f[i].id)
      {
        var e :| e in f[..k] && e.id == id;
        if DataKey(ns, id) == DataKey(ns, f[i].id) {
          DataKeyInjective(ns, id, f[i].id);
          assert false;
        }
      }
    }
    forall key | key in kv' && DataPrefix(ns) <= key
      ensures exists i | 0 <= i < |f[k..]| :: key == DataKey(ns, f[k..][i].id)
    {
      var i :| 0 <= i < |f| && key == DataKey(ns, f[i].id);
      if i < k {
        assert false;
      }
      assert key == DataKey(ns, f[k..][i - k].id);
    }
  }

  lemma SuffixLog(f: seq<Event>, lastId: nat, ever: map<nat, Record>, k: nat)
    requires LogOk(f, lastId, ever) && (k == 0 || k < |f|)
    ensures LogOk(f[k..], lastId, ever)
  {
    hide DataKey, DataPrefix, ToIndex;
  }

  lemma SuffixCursor(c: Cursor, f: seq<Event>, lastId: nat, seen: seq<nat>, missed: set<nat>, k: nat)
    requires CursorOk(c, f, lastId, seen, missed) && (k == 0 || k < |f|)
    ensures CursorOk(c, f[k..], lastId, seen, missed)
  {
  }

  /** The event list, database and cursors after losing the oldest `k` events. */
  lemma SuffixOk(w: World, kv: Domain, f: seq<Event>, k: nat)
    requires LogOk(f, w.store.lastId, w.ever) && (k == 0 || k < |f|)
    requires Holds(kv, w.store.ns, f, w.ever) && CursorsOk(kv, f, w.store.lastId, w.seen, w.missed)
    ensures var kv' := DeleteEvents(kv, w.store.ns, Ids(f[..k]));
            && LogOk(f[k..], w.store.lastId, w.ever)
            && Holds(kv', w.store.ns, f[k..], w.ever)
            && CursorsOk(kv', f[k..], w.store.lastId, w.seen, w.missed)
            && (forall q :: CursorOf(kv', q) == CursorOf(kv, q))
  {
    SuffixLog(f, w.store.lastId, w.ever, k);
    SuffixHolds(kv, w.store.ns, f, w.ever, k);
    CursorsSurviveDeletes(kv, w.store.ns, Ids(f[..k]));
    forall q | q != ""
      ensures CursorOk(CursorOf(kv, q), f[k..], w.store.lastId, Seen(w, q), Missed(w, q))
    {
      SuffixCursor(CursorOf(kv, q), f, w.store.lastId, Seen(w, q), Missed(w, q), k);
    }
  }

  /** How many events `k` buckets hold, short of the whole list. */
  lemma CutLength(ix: Index, k: nat) returns (n: nat)
    requires Sorted(ix) && k <= |ix| && (ix != [] ==> k < |ix|)
    ensures n <= |Flat(ix)| && (n == 0 || n < |Flat(ix)|)
    ensures Flat(ix[..k]) == Flat(ix)[..n] && Flat(ix[k..]) == Flat(ix)[n..]
    ensures Sorted(ix[k..])
  {
    FlatSplit(ix, k);
    CutIsSuffix(ix, k);
    n := |Flat(ix[..k])|;
    if ix != [] {
      FlatLast(ix[k..]);
    }
  }

  lemma EvictCore(w: World, k: nat)
    requires Core(w) && k <= |w.store.index| && (w.store.index != [] ==> k < |w.store.index|)
    ensures Core(w.(store := Evict(w.store, k)))
    ensures Evict(w.store, k).count == w.store.count && Evict(w.store, k).flags == w.store.flags
    ensures |Evict(w.store, k).index| == |w.store.index| - k
  {
    hide LogOk, Holds, Sorted, CursorOf, CursorsOk, DeleteEvents, Flat;
    var n := CutLength(w.store.index, k);
    SuffixOk(w, w.store.kv, Log(w), n);
  }

  // ---------------------------------------------------- a batch keeps it

  lemma LogOne(f: seq<Event>, last: nat, ever: map<nat, Record>, row: Record)
    requires LogOk(f, last, ever) && last + 1 < TEN10 && row.time < TWO63 && row.eid == ToIndex(last + 1)
    requires f != [] ==> row.time >= f[|f| - 1].time
    ensures LogOk(f + [Event(row.time, last + 1)], last + 1, ever[last + 1 := row])
  {
    hide ToIndex;
  }

  lemma HoldsOne(kv: Domain, ns: string, f: seq<Event>, last: nat, ever: map<nat, Record>, row: Record)
    requires LogOk(f, last, ever) && Holds(kv, ns, f, ever)
    ensures Holds(kv[DataKey(ns, last + 1) := Data(row)], ns, f + [Event(row.time, last + 1)], ever[last + 1 := row])
  {
    hide DataKey, DataPrefix, ToIndex;
    var f' := f + [Event(row.time, last + 1)];
    var kv' := kv[DataKey(ns, last + 1) := Data(row)];
    forall i | 0 <= i < |f|
      ensures DataKey(ns, f[i].id) != DataKey(ns, last + 1)
    {
      if DataKey(ns, f[i].id) == DataKey(ns, last + 1) {
        DataKeyInjective(ns, f[i].id, last + 1);
        assert false;
      }
    }
    forall k | k in kv' && DataPrefix(ns) <= k
      ensures exists i | 0 <= i < |f'| :: k == DataKey(ns, f'[i].id)
    {
      if k == DataKey(ns, last + 1) {
        assert k == DataKey(ns, f'[|f|].id);
      } else {
        var i :| 0 <= i < |f| && k == DataKey(ns, f[i].id);
        assert k == DataKey(ns, f'[i].id);
      }
    }
  }

  /** The event list after a batch of `n` rows. */
  function Grown(f: seq<Event>, last: nat, time: nat, n: nat): seq<Event> {
    f + Events(time, IdRange(last, n))
  }

  lemma GrownNone(f: seq<Event>, last: nat, time: nat)
    ensures Grown(f, last, time, 0) == f
  {
  }

  lemma GrownOne(f: seq<Event>, last: nat, time: nat, n: nat)
    requires n > 0
    ensures Grown(f, last, time, n) == Grown(f, last, time, n - 1) + [Event(time, last + n)]
    ensures Grown(f, last, time, n)[|f| + n - 1].time == time
    ensures |Grown(f, last, time, n)| == |f| + n
  {
  }

  lemma {:induction false} AppendRows(kv: Domain, ns: string, f: seq<Event>, last: nat, ever: map<nat, Record>,
                                      rows: seq<Row>, time: nat)
    requires LogOk(f, last, ever) && Holds(kv, ns, f, ever)
    requires AllSerialise(rows) && last + |rows| < TEN10 && time < TWO63
    requires f != [] ==> time >= f[|f| - 1].time
    ensures LogOk(Grown(f, last, time, |rows|), last + |rows|, EverAfter(ever, time, last, rows))
    ensures Holds(PutRows(kv, ns, time, last, rows), ns, Grown(f, last, time, |rows|),
                  EverAfter(ever, time, last, rows))
    decreases |rows|
  {
    hide DataKey, ToIndex, LogOk, Holds, Grown;
    var n := |rows|;
    if n == 0 {
      GrownNone(f, last, time);
    } else {
      var before := rows[..n - 1];
      AppendRows(kv, ns, f, last, ever, before, time);
      GrownOne(f, last, time, n);
      if n > 1 { GrownOne(f, last, time, n - 1); } else { GrownNone(f, last, time); }
      var g, ever' := Grown(f, last, time, n - 1), EverAfter(ever, time, last, before);
      var row := Record(time, ToIndex(last + n), rows[n - 1].columns);
      LogOne(g, last + n - 1, ever', row);
      HoldsOne(PutRows(kv, ns, time, last, before), ns, g, last + n - 1, ever', row);
    }
  }

  lemma CursorSurvivesRow(kv: Domain, ns: string, id: nat, v: Value, q: string)
    ensures CursorOf(kv[DataKey(ns, id) := v], q) == CursorOf(kv, q)
  {
    hide TryToLongLong, TryToUint64, ToIndex, TimeFromRecord;
    CursorKeysApart(ns, q, q);
    assert DataPrefix(ns) <= DataKey(ns, id);
    var kv' := kv[DataKey(ns, id) := v];
    assert TextAt(kv', TimeKey(q)) == TextAt(kv, TimeKey(q));
    assert TextAt(kv', EidKey(q)) == TextAt(kv, EidKey(q));
  }

  lemma {:induction false} CursorsSurviveRows(kv: Domain, ns: string, time: nat, last: nat, rows: seq<Row>, q: string)
    ensures CursorOf(PutRows(kv, ns, time, last, rows), q) == CursorOf(kv, q)
    decreases |rows|
  {
    hide CursorOf, DataKey, ToIndex;
    var n := |rows|;
    if n > 0 {
      var before := rows[..n - 1];
      CursorsSurviveRows(kv, ns, time, last, before, q);
      CursorSurvivesRow(PutRows(kv, ns, time, last, before), ns, last + n,
                        Data(Record(time, ToIndex(last + n), rows[n - 1].columns)), q);
    }
  }

  lemma GrownCursor(c: Cursor, f: seq<Event>, lastId: nat, seen: seq<nat>, missed: set<nat>, time: nat, n: nat)
    requires CursorOk(c, f, lastId, seen, missed) && n > 0
    requires f != [] ==> time >= f[|f| - 1].time
    ensures CursorOk(c, Grown(f, lastId, time, n), lastId + n, seen, missed)
  {
  }

  lemma AppendCursors(w: World, kv: Domain, time: nat, n: nat)
    requires CursorsOk(w.store.kv, Log(w), w.store.lastId, w.seen, w.missed) && n > 0
    requires Log(w) != [] ==> time >= Log(w)[|Log(w)| - 1].time
    requires forall q :: CursorOf(kv, q) == CursorOf(w.store.kv, q)
    ensures CursorsOk(kv, Grown(Log(w), w.store.lastId, time, n), w.store.lastId + n, w.seen, w.missed)
  {
    forall q | q != ""
      ensures CursorOk(CursorOf(kv, q), Grown(Log(w), w.store.lastId, time, n), w.store.lastId + n,
                       Seen(w, q), Missed(w, q))
    {
      GrownCursor(CursorOf(w.store.kv, q), Log(w), w.store.lastId, Seen(w, q), Missed(w, q), time, n);
    }
  }

  lemma AppendIndex(s: Store, time: nat, n: nat)
    requires Sorted(s.index) && n > 0
    requires Flat(s.index) != [] ==> time >= Flat(s.index)[|Flat(s.index)| - 1].time
    ensures var ix := Insert(s.index, time, IdRange(s.lastId, n));
            && Sorted(ix) && |ix| <= |s.index| + 1
            && Flat(ix) == Grown(Flat(s.index), s.lastId, time, n)
  {
    var ids := IdRange(s.lastId, n);
    InsertSorted(s.index, time, ids);
    if s.index != [] { FlatLast(s.index); }
    InsertAppends(s.index, time, ids);
  }

  lemma AppendCore(w: World, rows: seq<Row>, time: nat)
    requires Core(w) && rows != [] && Timely(w, rows, time)
    ensures Core(Appended(w, rows, time))
  {
    hide DataKey, ToIndex, LogOk, Holds, Grown, Sorted, CursorOf, PutRows, Insert, IdRange, EverAfter, Flat;
    var s, w' := w.store, Appended(w, rows, time);
    AppendIndex(s, time, |rows|);
    AppendRows(s.kv, s.ns, Log(w), s.lastId, w.ever, rows, time);
    forall q
      ensures CursorOf(w'.store.kv, q) == CursorOf(s.kv, q)
    {
      CursorsSurviveRows(s.kv, s.ns, time, s.lastId, rows, q);
    }
    AppendCursors(w, w'.store.kv, time, |rows|);
    assert CursorsOk(w'.store.kv, Log(w'), w'.store.lastId, w'.seen, w'.missed);
  }

  lemma NoCheckpoint(count: nat, n: nat)
    requires count % CHECKPOINT + n < CHECKPOINT
    ensures (count + n) % CHECKPOINT == count % CHECKPOINT + n
  {
  }

  lemma SomeSerialise(rows: seq<Row>)
    requires AllSerialise(rows) && rows != []
    ensures AnySerialises(rows)
  {
    assert rows[0].serialises;
  }

  lemma NoRows(w: World, time: nat, later: nat)
    ensures Step(w, Batch([], time, later)) == w
  {
  }

  lemma BatchInv(w: World, rows: seq<Row>, time: nat, later: nat)
    requires Inv(w) && Allowed(w, Batch(rows, time, later))
    ensures Inv(Step(w, Batch(rows, time, later)))
  {
    hide Core, PutRows, Insert, IdRange, EverAfter, MinExpiry, Flat, Sorted, AnySerialises;
    if rows == [] {
      NoRows(w, time, later);
    } else {
      SomeSerialise(rows);
      CoreSorted(w);
      AppendCore(w, rows, time);
      AppendIndex(w.store, time, |rows|);
      var w' := Appended(w, rows, time);
      var s' := w'.store;
      if w.store.count % CHECKPOINT + |rows| >= CHECKPOINT {
        EvictCore(w', OverflowCut(s'.index, s'.flags.eventsMax));
        var s'' := RemoveOverflowing(s');
        EvictCore(w'.(store := s''), ExpireCut(s''.index, MinExpiry(s'), later));
      } else {
        NoCheckpoint(w.store.count, |rows|);
      }
    }
  }

  // ---------------------------------------------------- a query keeps it

  lemma {:induction false} FilterMembers(f: seq<Event>, start: nat, end: nat, eid: nat, x: nat)
    ensures x in FilterIds(f, start, end, eid) <==>
            exists i | 0 <= i < |f| :: f[i].id == x && x > eid && InRange(f[i], start, end)
  {
    if f != [] {
      FilterMembers(f[1..], start, end, eid, x);
      if i :| 0 <= i < |f[1..]| && f[1..][i].id == x && x > eid && InRange(f[1..][i], start, end) {
        assert f[i + 1].id == x && InRange(f[i + 1], start, end);
      }
      if i :| 1 <= i < |f| && f[i].id == x && x > eid && InRange(f[i], start, end) {
        assert f[1..][i - 1].id == x && InRange(f[1..][i - 1], start, end);
      }
    }
  }

  lemma {:induction false} FilterAscending(f: seq<Event>, start: nat, end: nat, eid: nat)
    requires Ordered(f)
    ensures Ascending(FilterIds(f, start, end, eid))
  {
    if f != [] {
      var rest := FilterIds(f[1..], start, end, eid);
      FilterAscending(f[1..], start, end, eid);
      forall x | x in rest
        ensures f[0].id < x
      {
        FilterMembers(f[1..], start, end, eid, x);
      }
      assert forall i | 0 <= i < |rest| :: rest[i] in rest;
    }
  }

  ghost predicate InReach(f: seq<Event>, c: Cursor, id: nat) {
    exists i | 0 <= i < |f| :: f[i].id == id && id > c.id && f[i].time + 1 >= c.time
  }

  /** An optimised scan collects exactly the indexed events above the cursor that
      are not older than one second before it, in id order. */
  lemma CollectedMeaning(w: World, query: string)
    requires Core(w) && query != ""
    ensures Ascending(Collected(w.store, query))
    ensures forall x: nat :: x in Collected(w.store, query) <==> InReach(Log(w), CursorOf(w.store.kv, query), x)
  {
    hide CursorOf, LogOk, Holds, Flat, FilterIds, IdsAbove, Window;
    var f, c := Log(w), CursorOf(w.store.kv, query);
    WindowIsFilter(w.store.index, StartOf(c), 0, c.id);
    assert Ordered(f) by { OrderedOf(f, w.store.lastId, w.ever); }
    FilterAscending(f, StartOf(c), 0, c.id);
    forall x: nat
      ensures x in Collected(w.store, query) <==> InReach(f, c, x)
    {
      FilterMembers(f, StartOf(c), 0, c.id, x);
    }
  }

  lemma OrderedOf(f: seq<Event>, lastId: nat, ever: map<nat, Record>)
    requires LogOk(f, lastId, ever)
    ensures Ordered(f)
  {
  }

  ghost predicate Listed(f: seq<Event>, id: nat) {
    exists i | 0 <= i < |f| :: f[i].id == id
  }

  /** Rows as they were first stored. */
  ghost function Originals(ever: map<nat, Record>, ids: seq<nat>): seq<Record>
    requires forall x | x in ids :: x in ever
  {
    seq(|ids|, i requires 0 <= i < |ids| => assert ids[i] in ids; ever[ids[i]])
  }

  lemma ListedReadable(kv: Domain, ns: string, f: seq<Event>, ever: map<nat, Record>, ids: seq<nat>)
    requires Holds(kv, ns, f, ever) && forall x | x in ids :: Listed(f, x)
    ensures forall x | x in ids :: x in ever && RowAt(kv, DataKey(ns, x)) == Some(ever[x])
  {
    hide DataKey, ToIndex;
  }

  /** Nothing a scan of a consistent store collects is unreadable, and the rows
      read back are the rows first stored under the collected ids. */
  lemma {:induction false} CollectedReadable(kv: Domain, ns: string, f: seq<Event>, ever: map<nat, Record>,
                                             ids: seq<nat>)
    requires Holds(kv, ns, f, ever) && forall x | x in ids :: Listed(f, x)
    ensures forall x | x in ids :: x in ever
    ensures RowsOf(kv, ns, ids) == Originals(ever, ids)
    ensures DropUnreadable(kv, ns, ids) == kv
    decreases |ids|
  {
    hide DataKey, ToIndex, Holds, Listed, RowAt;
    ListedReadable(kv, ns, f, ever, ids);
    var n := |ids|;
    if n > 0 {
      assert ids[n - 1] in ids;
      assert forall x | x in ids[..n - 1] :: x in ids;
      CollectedReadable(kv, ns, f, ever, ids[..n - 1]);
    }
    assert UnreadableKeys(kv, ns, ids) == {};
  }

  /** A scan from a good cursor always reaches the newest event. */
  lemma ScanReachesEnd(w: World, query: string)
    requires Core(w) && query != "" && w.store.index != []
    ensures var win := Window(w.store.index, StartOf(CursorOf(w.store.kv, query)), 0);
            && win != []
            && EndOf(win) == Cursor(Log(w)[|Log(w)| - 1].time, w.store.lastId)
    ensures Log(w) != [] && CursorOf(w.store.kv, query).time <= Log(w)[|Log(w)| - 1].time
  {
    hide CursorOf, Holds, Flat, QueriesOk, LogOk;
    var s, c := w.store, CursorOf(w.store.kv, query);
    FlatLast(s.index);
    NewestIs(Log(w), s.lastId, w.ever);
    assert CursorOk(c, Log(w), s.lastId, Seen(w, query), Missed(w, query));
    hide Core, CursorsOk, CursorOk, Seen;
    WindowBounds(s.index, StartOf(c), 0);
    assert WindowLo(s.index, StartOf(c)) < |s.index|;
  }

  lemma NewestIs(f: seq<Event>, lastId: nat, ever: map<nat, Record>)
    requires LogOk(f, lastId, ever) && f != []
    ensures f[|f| - 1].id == lastId
  {
  }

  lemma AscendingConcat(a: seq<nat>, b: seq<nat>, mid: nat)
    requires Ascending(a) && Ascending(b)
    requires (forall x | x in a :: x <= mid) && (forall x | x in b :: x > mid)
    ensures Ascending(a + b)
  {
    forall i, j | 0 <= i < j < |a + b|
      ensures (a + b)[i] < (a + b)[j]
    {
      if i < |a| <= j {
        assert (a + b)[i] in a && (a + b)[j] in b;
      }
    }
  }

  lemma InReachOwn(f: seq<Event>, c: Cursor, i: nat)
    requires Ordered(f) && i < |f|
    ensures InReach(f, c, f[i].id) <==> f[i].id > c.id && f[i].time + 1 >= c.time
  {
  }

  lemma AdvancedCursor(w: World, query: string, collected: seq<nat>, c: Cursor)
    requires CursorOk(c, Log(w), w.store.lastId, Seen(w, query), Missed(w, query))
    requires LogOk(Log(w), w.store.lastId, w.ever) && Log(w) != []
    requires Ascending(collected)
    requires forall x: nat :: x in collected <==> InReach(Log(w), c, x)
    ensures CursorOk(Cursor(Log(w)[|Log(w)| - 1].time, w.store.lastId), Log(w), w.store.lastId,
                     Seen(w, query) + collected, Missed(w, query))
  {
    hide Flat, ToIndex;
    var f, seen, missed := Log(w), Seen(w, query) + collected, Missed(w, query);
    var newest := Cursor(f[|f| - 1].time, w.store.lastId);
    forall id | id in seen
      ensures id <= w.store.lastId && id !in missed
    {
      if id in collected {
        assert InReach(f, c, id);
      }
    }
    forall i | 0 <= i < |f|
      ensures f[i].id in seen <==> f[i].id !in missed
    {
      assert f[i].id in collected <==> InReach(f, c, f[i].id);
      InReachOwn(f, c, i);
    }
    AscendingConcat(Seen(w, query), collected, c.id);
  }

  lemma WindowReadable(w: World, start: nat, end: nat, eid: nat)
    requires Core(w)
    ensures var ids := IdsAbove(Window(w.store.index, start, end), eid);
            && (forall x | x in ids :: x in w.ever && Listed(Log(w), x))
            && RowsOf(w.store.kv, w.store.ns, ids) == Originals(w.ever, ids)
            && DropUnreadable(w.store.kv, w.store.ns, ids) == w.store.kv
  {
    hide Holds, Flat, LogOk, CursorsOk, QueriesOk, RowsOf, DropUnreadable, CursorOf, IdsAbove, Window;
    var ids := IdsAbove(Window(w.store.index, start, end), eid);
    WindowIsFilter(w.store.index, start, end, eid);
    forall x | x in ids
      ensures Listed(Log(w), x)
    {
      FilterMembers(Log(w), start, end, eid, x);
    }
    CollectedReadable(w.store.kv, w.store.ns, Log(w), w.ever, ids);
  }

  /** What a scan leaves behind in the database. */
  ghost function AfterScan(w: World, query: string): Domain
    requires Core(w)
  {
    if w.store.index == [] then w.store.kv
    else
      FlatLast(w.store.index);
      SetCursor(w.store.kv, query, Cursor(Log(w)[|Log(w)| - 1].time, w.store.lastId))
  }

  lemma DeliverShape(w: World, query: string)
    requires Core(w)
    ensures Deliver(w.store, query) ==
            w.store.(queries := w.store.queries[query := StartOf(CursorOf(w.store.kv, query))],
                     kv := AfterScan(w, query))
  {
    hide Flat, LogOk, Holds, CursorOf, DropUnreadable, IdsAbove;
    var c := CursorOf(w.store.kv, query);
    WindowReadable(w, StartOf(c), 0, c.id);
    if w.store.index != [] && query != "" {
      ScanReachesEnd(w, query);
    }
  }

  lemma ScanCursor(w: World, query: string, q: string)
    requires Core(w) && q != ""
    ensures var w' := Delivered(w, query);
            && CursorOk(CursorOf(AfterScan(w, query), q), Log(w), w.store.lastId, Seen(w', q), Missed(w', q))
            && CursorOf(AfterScan(w, query), q).time >= CursorOf(w.store.kv, q).time
  {
    hide Collected, CursorOf, SetCursor, Deliver, CursorOk, Holds, Flat, ToIndex;
    assert CursorOk(CursorOf(w.store.kv, q), Log(w), w.store.lastId, Seen(w, q), Missed(w, q));
    if query == q {
      CollectedMeaning(w, q);
      if w.store.index != [] {
        ScanReachesEnd(w, q);
        AdvancedCursor(w, q, Collected(w.store, q), CursorOf(w.store.kv, q));
        CursorReadsBack(w.store.kv, q, Cursor(Log(w)[|Log(w)| - 1].time, w.store.lastId));
      } else {
        EmptyLog(w, q);
        assert Seen(w, q) + Collected(w.store, q) == Seen(w, q);
      }
    } else if w.store.index != [] {
      FlatLast(w.store.index);
      if query != "" {
        CursorIsPrivate(w.store.kv, query, Cursor(Log(w)[|Log(w)| - 1].time, w.store.lastId), q);
      } else {
        UnnamedWritesNothing(w.store.kv, Cursor(Log(w)[|Log(w)| - 1].time, w.store.lastId));
      }
    }
  }

  lemma EmptyLog(w: World, query: string)
    requires w.store.index == []
    ensures Log(w) == [] && Collected(w.store, query) == []
  {
    hide CursorOf;
  }

  lemma UnnamedWritesNothing(kv: Domain, c: Cursor)
    ensures SetCursor(kv, "", c) == kv
  {
  }

  lemma ScanHolds(w: World, query: string)
    requires Core(w)
    ensures Holds(AfterScan(w, query), w.store.ns, Log(w), w.ever)
  {
    hide Flat, LogOk, DataKey, SetCursor, CursorOf, ToIndex;
    if w.store.index != [] {
      FlatLast(w.store.index);
      DataKeysPrefixed(w.store.ns);
      CursorSparesData(w.store.ns, w.store.kv, query, Cursor(Log(w)[|Log(w)| - 1].time, w.store.lastId));
    }
  }

  lemma DataKeysPrefixed(ns: string)
    ensures forall id :: DataPrefix(ns) <= DataKey(ns, id)
  {
  }

  lemma DeliverCore(w: World, query: string)
    requires Core(w)
    ensures Core(Delivered(w, query))
    ensures Deliver(w.store, query).index == w.store.index
  {
    hide Flat, LogOk, Holds, Deliver, Collected, CursorOf, CursorOk, Sorted, AfterScan;
    DeliverShape(w, query);
    ScanHolds(w, query);
    var w' := Delivered(w, query);
    forall q | q != ""
      ensures CursorOk(CursorOf(w'.store.kv, q), Log(w), w.store.lastId, Seen(w', q), Missed(w', q))
      ensures CursorOf(w'.store.kv, q).time >= CursorOf(w.store.kv, q).time
    {
      ScanCursor(w, query, q);
    }
    UnnamedCursor(w.store.kv);
    UnnamedCursor(w'.store.kv);
  }

  // ------------------------------------- a cut cursor write keeps it, too

  lemma CutShape(w: World, query: string)
    requires Core(w) && query != ""
    ensures DeliverCut(w.store, query) ==
            if w.store.index == [] then w.store
            else w.store.(kv := SetCursorTime(w.store.kv, query, NewestTime(w)))
  {
    hide Flat, LogOk, Holds, CursorOf, DropUnreadable, IdsAbove;
    var c := CursorOf(w.store.kv, query);
    WindowReadable(w, StartOf(c), 0, c.id);
    if w.store.index != [] {
      ScanReachesEnd(w, query);
    }
  }

  ghost function NewestTime(w: World): nat
  {
    if Log(w) == [] then 0 else Log(w)[|Log(w)| - 1].time
  }

  /** The cursor of the query itself after the cut: new time, old id. */
  lemma CutOwnCursor(c: Cursor, f: seq<Event>, lastId: nat, seen: seq<nat>, missed: set<nat>, cut: set<nat>)
    requires CursorOk(c, f, lastId, seen, missed) && f != []
    requires forall i | 0 <= i < |f| ::
               f[i].id in cut <==> f[i].id > c.id && f[i].time + 1 < f[|f| - 1].time
    requires forall id | id in cut :: c.id < id <= lastId
    ensures CursorOk(Cursor(f[|f| - 1].time, c.id), f, lastId, seen, missed + cut)
  {
  }

  lemma CutSetMeaning(w: World, query: string)
    requires Ordered(Log(w)) && (forall e | e in Log(w) :: e.id <= w.store.lastId)
    ensures forall i | 0 <= i < |Log(w)| ::
              Log(w)[i].id in CutSet(w, query) <==>
              Log(w)[i].id > CursorOf(w.store.kv, query).id && Log(w)[i].time + 1 < NewestTime(w)
    ensures forall id | id in CutSet(w, query) :: CursorOf(w.store.kv, query).id < id <= w.store.lastId
  {
    hide Flat, CursorOf, Ordered, CutMisses;
    forall i | 0 <= i < |Log(w)|
      ensures Log(w)[i].id in CutSet(w, query) <==>
              Log(w)[i].id > CursorOf(w.store.kv, query).id && Log(w)[i].time + 1 < NewestTime(w)
    {
      assert Log(w)[i] in Log(w);
      CutMissesOwn(w, query, i);
    }
    forall e | e in Log(w) && CutMisses(w, query, e.id) ensures CursorOf(w.store.kv, query).id < e.id {
      CutMissesAbove(w, query, e.id);
    }
  }

  lemma CutMissesAbove(w: World, query: string, id: nat)
    requires CutMisses(w, query, id)
    ensures CursorOf(w.store.kv, query).id < id
  {
    hide CursorOf, Flat;
  }

  lemma CutMissesOwn(w: World, query: string, i: nat)
    requires Ordered(Log(w)) && i < |Log(w)|
    ensures CutMisses(w, query, Log(w)[i].id) <==>
            Log(w)[i].id > CursorOf(w.store.kv, query).id && Log(w)[i].time + 1 < NewestTime(w)
  {
    hide CursorOf, Flat;
  }

  lemma CutCursor(w: World, query: string, q: string)
    requires Core(w) && query != "" && q != "" && w.store.index != []
    ensures var w', kv := DeliveredCut(w, query), SetCursorTime(w.store.kv, query, NewestTime(w));
            && CursorOk(CursorOf(kv, q), Log(w), w.store.lastId, Seen(w', q), Missed(w', q))
            && CursorOf(kv, q).time >= CursorOf(w.store.kv, q).time
  {
    hide Core, CursorOf, SetCursorTime, DeliverCut, CursorOk, Flat, CutSet, Ordered;
    CoreCursor(w, q);
    LogNotEmpty(w);
    CutCursorReads(w.store.ns, w.store.kv, query, NewestTime(w), q);
    if q == query {
      NewIdAbove(w, q);
      OrderedLog(w);
      CutSetMeaning(w, q);
      ScanReachesEnd(w, q);
      CutOwnCursor(CursorOf(w.store.kv, q), Log(w), w.store.lastId, Seen(w, q), Missed(w, q), CutSet(w, q));
    }
  }

  lemma CoreCursor(w: World, q: string)
    requires Core(w) && q != ""
    ensures CursorOk(CursorOf(w.store.kv, q), Log(w), w.store.lastId, Seen(w, q), Missed(w, q))
  {
  }

  lemma CutCore(w: World, query: string)
    requires Core(w)
    ensures Core(DeliveredCut(w, query))
    ensures DeliverCut(w.store, query).index == w.store.index
  {
    hide Flat, LogOk, Holds, DeliverCut, CursorOf, CursorOk, Sorted, SetCursorTime, CutMisses;
    var w' := DeliveredCut(w, query);
    if query == "" {
      CutUnnamed(w);
    } else if w.store.index == [] {
      CutShape(w, query);
      CutEmpty(w, query);
    } else {
      CutShape(w, query);
      CutHolds(w, query);
      forall q | q != ""
        ensures CursorOk(CursorOf(w'.store.kv, q), Log(w), w.store.lastId, Seen(w', q), Missed(w', q))
        ensures CursorOf(w'.store.kv, q).time >= CursorOf(w.store.kv, q).time
      {
        CutCursor(w, query, q);
      }
      UnnamedCursor(w.store.kv);
      UnnamedCursor(w'.store.kv);
    }
  }

  lemma CutUnnamed(w: World)
    requires Core(w)
    ensures DeliverCut(w.store, "") == w.store
  {
    hide Flat, LogOk, Holds, DropUnreadable, IdsAbove, Window;
    UnnamedCursor(w.store.kv);
    WindowReadable(w, 0, 0, 0);
  }

  lemma CutEmpty(w: World, query: string)
    requires w.store.index == []
    ensures Missed(DeliveredCut(w, query), query) == Missed(w, query)
  {
    hide CursorOf, DeliverCut;
  }

  lemma CutHolds(w: World, query: string)
    requires Core(w) && query != "" && w.store.index != []
    ensures Holds(SetCursorTime(w.store.kv, query, NewestTime(w)), w.store.ns, Log(w), w.ever)
  {
    hide Flat, DataKey, SetCursorTime, CursorOf, ToIndex;
    FlatLast(w.store.index);
    DataKeysPrefixed(w.store.ns);
    CutCursorReads(w.store.ns, w.store.kv, query, NewestTime(w), query);
  }

  /** What a cut cursor write costs: of the events above the old cursor, the next
      scan of the query collects exactly those not older than one second before
      the newest. */
  lemma CutCollectsIff(w: World, query: string, i: nat)
    requires Core(w) && query != "" && i < |Log(w)| && Log(w)[i].id > CursorOf(w.store.kv, query).id
    ensures Log(w)[i].id in Collected(DeliverCut(w.store, query), query)
            <==> Log(w)[i].time + 1 >= NewestTime(w)
  {
    hide Core, CursorOf, SetCursorTime, DeliverCut, Collected, Flat, CutMisses, InReach, LogOk;
    var w' := DeliveredCut(w, query);
    CutCore(w, query);
    CutShape(w, query);
    LogNotEmpty(w);
    OrderedLog(w);
    CutCursorReads(w.store.ns, w.store.kv, query, NewestTime(w), query);
    CollectedMeaning(w', query);
    InReachOwn(Log(w), CursorOf(w'.store.kv, query), i);
  }

  lemma LogNotEmpty(w: World)
    requires Core(w)
    ensures w.store.index == [] <==> Log(w) == []
    ensures NewestTime(w) < TWO63
  {
    hide Holds, CursorsOk, QueriesOk;
    if w.store.index != [] {
      FlatLast(w.store.index);
    }
  }

  lemma OrderedLog(w: World)
    requires Core(w)
    ensures Ordered(Log(w))
  {
  }

  lemma UnnamedCursor(kv: Domain)
    ensures CursorOf(kv, "") == Cursor(0, 0)
  {
  }

  lemma ExpireInv(w: World, now: nat)
    requires Core(w) && Bounded(w.store)
    ensures Inv(w.(store := ExpireAfterQuery(w.store, now)))
  {
    hide Sorted, LogOk, Holds, CursorsOk, QueriesOk, Evict, ExpireTime;
    if ExecutedAll(w.store) {
      EvictCore(w, ExpireCut(w.store.index, MinExpiry(w.store), ExpireTime(w.store, now)));
    }
  }

  lemma QueryInv(w: World, op: Op)
    requires Inv(w) && (op.Query? || op.TimedQuery? || op.Schedule?)
    ensures Inv(Step(w, op))
  {
    hide Sorted, LogOk, Holds, CursorsOk, Deliver, Collected, ExpireAfterQuery, DropUnreadable, IdsAbove, Window;
    match op
    case Query(name, now) =>
      DeliverCore(w, name);
      DeliverShape(w, name);
      ExpireInv(Delivered(w, name), now);
    case TimedQuery(start, stop, now) =>
      WindowReadable(w, start, stop, 0);
      ExpireInv(w, now);
    case Schedule(expiry, queryCount) =>
  }

  // -------------------------------------------------- a restart keeps it

  lemma {:induction false} LexAsymmetric(a: string, b: string)
    requires LexLess(a, b)
    ensures !LexLess(b, a)
  {
    if a != "" && a[0] == b[0] {
      LexAsymmetric(a[1..], b[1..]);
    }
  }

  ghost predicate LexAscending(keys: seq<string>) {
    forall i, j | 0 <= i < j < |keys| :: LexLess(keys[i], keys[j])
  }

  /** A key list in byte order is determined by its elements. */
  lemma {:induction false} SortedUnique(a: seq<string>, b: seq<string>)
    requires LexAscending(a) && LexAscending(b)
    requires forall k :: k in a <==> k in b
    ensures a == b
  {
    HasMember(a);
    HasMember(b);
    if a != [] {
      assert a[0] in a;
      assert b[0] in b;
      LeastFirst(a, b);
      forall k
        ensures k in a[1..] <==> k in b[1..]
      {
        TailMembers(a, k);
        TailMembers(b, k);
      }
      SortedUnique(a[1..], b[1..]);
      assert a == [a[0]] + a[1..] && b == [b[0]] + b[1..];
    }
  }

  lemma HasMember(a: seq<string>)
    ensures a == [] || exists k :: k in a
  {
    assert a != [] ==> a[0] in a;
  }

  lemma LeastFirst(a: seq<string>, b: seq<string>)
    requires LexAscending(a) && LexAscending(b) && a != [] && b != []
    requires a[0] in b && b[0] in a
    ensures a[0] == b[0]
  {
    assert a[0] != b[0] ==> LexLess(a[0], b[0]) && LexLess(b[0], a[0]);
    if LexLess(a[0], b[0]) {
      LexAsymmetric(a[0], b[0]);
    }
  }

  lemma TailMembers(a: seq<string>, k: string)
    requires LexAscending(a) && a != []
    ensures k in a[1..] <==> k in a && k != a[0]
  {
    if k in a[1..] && k == a[0] {
      LexAsymmetric(a[0], a[0]);
      assert false;
    }
    if k in a && k != a[0] {
      var i :| 0 <= i < |a| && a[i] == k;
      assert a[1..][i - 1] == k;
    }
  }

  function KeysOf(ns: string, f: seq<Event>): (keys: seq<string>)
    ensures |keys| == |f|
    ensures forall i | 0 <= i < |f| :: keys[i] == DataKey(ns, f[i].id)
  {
    seq(|f|, i requires 0 <= i < |f| => DataKey(ns, f[i].id))
  }

  /** The scan of a consistent database lists the event keys in id order. */
  lemma ScanListsEvents(kv: Domain, ns: string, f: seq<Event>, lastId: nat, ever: map<nat, Record>, keys: seq<string>)
    requires LogOk(f, lastId, ever) && Holds(kv, ns, f, ever)
    requires IsScan(kv, DataPrefix(ns), keys)
    ensures keys == KeysOf(ns, f)
  {
    hide DataKey, DataPrefix, ToIndex, LogOk, Holds, KeysOf;
    KeysAreScan(kv, ns, f, lastId, ever);
    SortedUnique(keys, KeysOf(ns, f));
  }

  lemma DataKeyOrder(ns: string, i: nat, j: nat)
    requires i < j < TEN10
    ensures LexLess(DataKey(ns, i), DataKey(ns, j))
  {
    hide ToIndex;
    IndexOrder(i, j);
    LexPrefix(DataPrefix(ns), ToIndex(i), ToIndex(j));
  }

  lemma DataKeyParses(ns: string, id: nat)
    requires id < TEN10
    ensures var p, k := DataPrefix(ns), DataKey(ns, id); |p| <= |k| && WholeUint64(k[|p|..]) == Some(id)
  {
    hide ToIndex, WholeUint64;
    NumbersReadBack(id);
    assert DataKey(ns, id)[|DataPrefix(ns)|..] == ToIndex(id);
  }

  /** The scan loop rebuilds the index bucket by bucket. */
  lemma {:induction false} RebuildsPrefix(kv: Domain, ns: string, f: seq<Event>, lastId: nat, ever: map<nat, Record>,
                                          n: nat)
    requires LogOk(f, lastId, ever) && Holds(kv, ns, f, ever) && n <= |f|
    ensures var r := RebuildFrom(kv, DataPrefix(ns), KeysOf(ns, f)[..n]);
            && Sorted(r.index) && Flat(r.index) == f[..n] && r.invalid == {}
            && r.lastId == if n == 0 then 1 else f[n - 1].id
    decreases n
  {
    hide DataKey, DataPrefix, ToIndex, RebuildKey, RebuildFrom, LogOk, Holds, KeysOf, Insert, Sorted, Flat;
    var keys := KeysOf(ns, f);
    if n == 0 {
      EmptyIndex();
      RebuildNone(kv, DataPrefix(ns));
      assert keys[..0] == [] && f[..0] == [];
    } else {
      RebuildsPrefix(kv, ns, f, lastId, ever, n - 1);
      RebuildNext(kv, DataPrefix(ns), keys, n - 1);
      var r := RebuildFrom(kv, DataPrefix(ns), keys[..n - 1]);
      KeyRebuilds(kv, ns, f, lastId, ever, n - 1, r);
      OrderedOf(f, lastId, ever);
      RebuildsOne(r.index, f, n - 1);
      assert f[..n] == f[..n - 1] + [f[n - 1]];
    }
  }

  lemma RebuildNone(kv: Domain, prefix: string)
    ensures RebuildFrom(kv, prefix, []) == Rebuilt([], 1, {})
  {
  }

  lemma RebuildNext(kv: Domain, prefix: string, keys: seq<string>, n: nat)
    requires n < |keys|
    ensures RebuildFrom(kv, prefix, keys[..n + 1]) ==
            RebuildKey(kv, prefix, RebuildFrom(kv, prefix, keys[..n]), keys[n])
  {
    hide RebuildKey;
    assert keys[..n + 1][..n] == keys[..n];
  }

  /** What the key of the next event adds to the index under construction. */
  lemma KeyRebuilds(kv: Domain, ns: string, f: seq<Event>, lastId: nat, ever: map<nat, Record>, n: nat, r: Rebuilt)
    requires LogOk(f, lastId, ever) && Holds(kv, ns, f, ever) && n < |f|
    requires r.lastId == if n == 0 then 1 else f[n - 1].id
    ensures RebuildKey(kv, DataPrefix(ns), r, KeysOf(ns, f)[n]) ==
            r.(lastId := f[n].id, index := Insert(r.index, f[n].time, [f[n].id]))
  {
    hide DataKey, DataPrefix, ToIndex, WholeUint64, Insert;
    DataKeyParses(ns, f[n].id);
    assert RowAt(kv, DataKey(ns, f[n].id)) == Some(ever[f[n].id]);
  }

  lemma EmptyIndex()
    ensures Sorted([]) && Flat([]) == []
  {
  }

  lemma RebuildsOne(ix: Index, f: seq<Event>, n: nat)
    requires Sorted(ix) && Ordered(f) && n < |f| && Flat(ix) == f[..n]
    ensures Sorted(Insert(ix, f[n].time, [f[n].id]))
    ensures Flat(Insert(ix, f[n].time, [f[n].id])) == f[..n] + [f[n]]
  {
    if ix != [] { FlatLast(ix); }
    InsertSorted(ix, f[n].time, [f[n].id]);
    InsertAppends(ix, f[n].time, [f[n].id]);
    assert Events(f[n].time, [f[n].id]) == [f[n]];
  }

  lemma RebuildOk(s: Store, f: seq<Event>, lastId: nat, ever: map<nat, Record>, keys: seq<string>)
    requires LogOk(f, lastId, ever) && Holds(s.kv, s.ns, f, ever)
    requires IsScan(s.kv, DataPrefix(s.ns), keys)
    ensures var s' := Rebuild(s, keys);
            && Sorted(s'.index) && Flat(s'.index) == f && s'.lastId == lastId
            && s' == s.(index := s'.index, lastId := lastId)
  {
    hide Holds, DataPrefix, IsScan, Sorted, Flat;
    ScanListsEvents(s.kv, s.ns, f, lastId, ever, keys);
    RebuildsPrefix(s.kv, s.ns, f, lastId, ever, |f|);
    assert KeysOf(s.ns, f)[..|f|] == keys && f[..|f|] == f;
    assert s.kv - {} == s.kv;
  }

  lemma BegunCore(w: World, work: Work)
    requires Core(w) && (work.Adding? ==> Timely(w, work.rows, work.time))
    ensures Core(Begun(w, work))
  {
    hide Core, Timely, Appended, Delivered, DeliveredCut;
    match work
    case Idle =>
    case Adding(rows, time) =>
      if rows != [] {
        AppendCore(w, rows, time);
      }
    case Asking(name) => DeliverCore(w, name);
    case Cutting(name) => CutCore(w, name);
  }

  lemma RestartCore(w: World, lost: nat, keys: seq<string>, now: nat)
    requires Core(w) && (lost == 0 || lost < |Log(w)|)
    requires IsScan(Remains(w.store, lost).kv, DataPrefix(w.store.ns), keys)
    ensures Inv(w.(store := SetUp(Reborn(Remains(w.store, lost)), keys, now)))
  {
    hide Holds, Sorted, Flat, LogOk, IsScan, Rebuild, Evict, CursorOk;
    var f := Log(w);
    SuffixOk(w, w.store.kv, f, lost);
    var s := Reborn(Remains(w.store, lost));
    RebuildOk(s, f[lost..], w.store.lastId, w.ever, keys);
    var s' := Rebuild(s, keys);
    var w' := w.(store := s');
    assert Core(w');
    EvictCore(w', ExpireCut(s'.index, MinExpiry(s'), now));
    var s'' := Expire(s', MinExpiry(s'), now);
    EvictCore(w'.(store := s''), OverflowCut(s''.index, s''.flags.eventsMax));
  }

  lemma RestartInv(w: World, work: Work, lost: nat, keys: seq<string>, now: nat)
    requires Inv(w) && Allowed(w, Restart(work, lost, keys, now))
    ensures Inv(Step(w, Restart(work, lost, keys, now)))
  {
    hide Core, Begun, Timely, IsScan, Remains, SetUp, Log, Bounded;
    BegunCore(w, work);
    RestartCore(Begun(w, work), lost, keys, now);
  }

  // ----------------------------------------------------------------- runs

  lemma StepInv(w: World, op: Op)
    requires Inv(w) && Allowed(w, op)
    ensures Inv(Step(w, op))
  {
    match op
    case Batch(rows, time, later) => BatchInv(w, rows, time, later);
    case Restart(work, lost, keys, now) => RestartInv(w, work, lost, keys, now);
    case _ => QueryInv(w, op);
  }

  lemma {:induction false} BehaviourInv(ws: seq<World>, ops: seq<Op>, k: nat)
    requires Behaviour(ws, ops) && k < |ws|
    ensures Inv(ws[k])
    decreases k
  {
    hide Inv, Step, Allowed, Fresh;
    if k == 0 {
      FreshInv(ws[0]);
    } else {
      BehaviourInv(ws, ops, k - 1);
      StepInv(ws[k - 1], ops[k - 1]);
    }
  }

  /** What a query name has had and what its next optimised scan hands it: each
      event id at most once and in id order; together every event still indexed
      except the missed ones, which are in neither; and the rows are the rows
      first stored under the ids. */
  ghost predicate Delivers(w: World, query: string) {
    var ids := Collected(w.store, query);
    && Ascending(Seen(w, query) + ids)
    && (forall i | 0 <= i < |Log(w)| ::
          Log(w)[i].id in Seen(w, query) || Log(w)[i].id in ids <==> Log(w)[i].id !in Missed(w, query))
    && (forall x | x in ids :: x in w.ever && Listed(Log(w), x) && x !in Seen(w, query))
    && RowsOf(w.store.kv, w.store.ns, ids) == Originals(w.ever, ids)
  }

  /** Delivery. At every point of every run, a query name has been handed each
      event id at most once and in id order; its next optimised scan hands it
      exactly the events still indexed that it has neither had nor been made to
      miss; and the rows it is handed are the rows first stored under those ids. */
  lemma ExactlyOnceDelivery(ws: seq<World>, ops: seq<Op>, k: nat, query: string)
    requires Behaviour(ws, ops) && k < |ws| && query != ""
    ensures Delivers(ws[k], query)
  {
    hide Inv, Behaviour, Delivers;
    BehaviourInv(ws, ops, k);
    DeliveryHolds(ws[k], query);
  }

  /** An operation in which a cursor write of `query` is cut short. */
  predicate Cuts(op: Op, query: string) {
    op.Restart? && op.work == Cutting(query)
  }

  ghost predicate CutBefore(ws: seq<World>, ops: seq<Op>, k: nat, query: string, id: nat)
    requires |ws| == |ops| + 1 && k <= |ops|
  {
    exists j | 0 <= j < k :: Cuts(ops[j], query) && CutMisses(ws[j], query, id)
  }

  lemma StepMisses(w: World, op: Op, query: string, id: nat)
    ensures id in Missed(Step(w, op), query) <==>
            id in Missed(w, query) || (Cuts(op, query) && CutMisses(w, query, id))
  {
    hide AddBatch, Append, EverAfter, Deliver, DeliverCut, Collected, OptimizedQuery, WindowQuery, SetUp, Remains;
    hide CursorOf;
    if Cuts(op, query) && CutMisses(w, query, id) {
      var i :| 0 <= i < |Log(w)| && Log(w)[i].id == id;
      assert Log(w)[i] in Log(w);
    }
  }

  /** Which events are missed: exactly those that a cursor write of the query, cut
      short by a death, found above the old id and older than one second before
      the newest event. */
  lemma {:induction false} MissedIffCut(ws: seq<World>, ops: seq<Op>, k: nat, query: string, id: nat)
    requires Behaviour(ws, ops) && k < |ws|
    ensures id in Missed(ws[k], query) <==> CutBefore(ws, ops, k, query, id)
    decreases k
  {
    hide Step, Allowed, CutMisses, Cuts;
    if k > 0 {
      MissedIffCut(ws, ops, k - 1, query, id);
      StepMisses(ws[k - 1], ops[k - 1], query, id);
    }
  }

  /** Hence where no cursor write is cut short nothing is missed: every event still
      indexed has been handed over or is in the next scan. */
  lemma UncutMissesNothing(ws: seq<World>, ops: seq<Op>, k: nat, query: string, i: nat)
    requires Behaviour(ws, ops) && k < |ws| && query != "" && i < |Log(ws[k])|
    requires forall j | 0 <= j < k :: !Cuts(ops[j], query)
    ensures Log(ws[k])[i].id in Seen(ws[k], query) || Log(ws[k])[i].id in Collected(ws[k].store, query)
  {
    hide Step, Allowed, Fresh, CutMisses, Cuts, Collected, Seen, Missed, RowsOf, Log;
    ExactlyOnceDelivery(ws, ops, k, query);
    MissedIffCut(ws, ops, k, query, Log(ws[k])[i].id);
  }

  // ------------------------------------------------ a run that loses an event

  /** Stored and indexed, but neither handed over nor in the next scan. */
  ghost predicate Lost(w: World, query: string, id: nat) {
    Listed(Log(w), id) && id in w.ever && id !in Seen(w, query) && id !in Collected(w.store, query)
  }

  function FirstWorld(): World {
    World(Store("", Flags(0, 0), map[], [], 1, 0, map[], 0, 0), map[], map[], map[])
  }

  lemma FirstIsFresh()
    ensures Fresh(FirstWorld())
  {
    forall q ensures CursorOf(map[], q) == Cursor(0, 0) {
    }
  }

  /** One row added between checkpoints. */
  lemma OneRow(w: World, time: nat, query: string)
    requires Inv(w) && Allowed(w, Batch([Row("", true)], time, 0)) && w.store.count < 10
    ensures var w' := Step(w, Batch([Row("", true)], time, 0));
            && Inv(w') && Log(w') == Log(w) + [Event(time, w.store.lastId + 1)]
            && w'.store.lastId == w.store.lastId + 1 && w'.store.count == w.store.count + 1
            && w'.store.flags == w.store.flags
            && CursorOf(w'.store.kv, query) == CursorOf(w.store.kv, query)
  {
    hide Core, PutRows, Insert, EverAfter, Flat, Sorted, CursorOf, Bounded, IdRange, Events;
    var rows := [Row("", true)];
    BatchInv(w, rows, time, 0);
    CoreSorted(w);
    SomeSerialise(rows);
    AppendIndex(w.store, time, 1);
    CursorsSurviveRows(w.store.kv, w.store.ns, time, w.store.lastId, rows, query);
    GrownOne(Log(w), w.store.lastId, time, 1);
    GrownNone(Log(w), w.store.lastId, time);
  }

  /** Without limits a restart evicts nothing. */
  lemma UnlimitedRestart(w: World, keys: seq<string>)
    requires Core(w) && w.store.flags == Flags(0, 0)
    requires IsScan(Remains(w.store, 0).kv, DataPrefix(w.store.ns), keys)
    ensures Flat(SetUp(Reborn(Remains(w.store, 0)), keys, 0).index) == Log(w)
  {
    hide Core, Flat, IsScan, Rebuild, DataPrefix, LogOk, Holds, CursorsOk;
    CoreParts(w);
    SuffixOk(w, w.store.kv, Log(w), 0);
    assert Log(w)[0..] == Log(w);
    var s := Reborn(Remains(w.store, 0));
    RebuildOk(s, Log(w), w.store.lastId, w.ever, keys);
    var s' := Rebuild(s, keys);
    assert s'.index[0..] == s'.index;
  }

  lemma CoreParts(w: World)
    requires Core(w)
    ensures LogOk(Log(w), w.store.lastId, w.ever) && Holds(w.store.kv, w.store.ns, Log(w), w.ever)
    ensures CursorsOk(w.store.kv, Log(w), w.store.lastId, w.seen, w.missed)
  {
  }

  /** A run that loses an event: two events four seconds apart, and the first query
      dies between its cursor writes. */
  lemma CutLosesEvent(query: string)
    requires query != ""
    ensures exists ws: seq<World>, ops: seq<Op> :: Behaviour(ws, ops) && Lost(ws[|ops|], query, 2)
  {
    hide Inv, Step, Allowed, Fresh, Lost, CursorOf, FirstWorld, Log;
    var batch1, batch2 := Batch([Row("", true)], 1, 0), Batch([Row("", true)], 5, 0);
    var w0 := FirstWorld();
    var w1 := Step(w0, batch1);
    var w2 := Step(w1, batch2);
    TwoRows(w0, w1, w2, query);
    ScanReady(w2, query);
    var keys :| Allowed(w2, Restart(Cutting(query), 0, keys, 0));
    var cut := Restart(Cutting(query), 0, keys, 0);
    var w3 := Step(w2, cut);
    CutLoses(w2, query, keys);
    var ws, ops := [w0, w1, w2, w3], [batch1, batch2, cut];
    assert Behaviour(ws, ops);
  }

  lemma TwoRows(w0: World, w1: World, w2: World, query: string)
    requires w0 == FirstWorld() && w1 == Step(w0, Batch([Row("", true)], 1, 0))
    requires w2 == Step(w1, Batch([Row("", true)], 5, 0))
    ensures Fresh(w0) && Allowed(w0, Batch([Row("", true)], 1, 0)) && Allowed(w1, Batch([Row("", true)], 5, 0))
    ensures Inv(w2) && w2.store.flags == Flags(0, 0) && CursorOf(w2.store.kv, query) == Cursor(0, 0)
    ensures Log(w2) == [Event(1, 2), Event(5, 3)]
  {
    hide Inv, Step, CursorOf;
    FirstIsFresh();
    FreshInv(w0);
    OneRow(w0, 1, query);
    OneRow(w1, 5, query);
  }

  lemma ScanReady(w: World, query: string)
    requires Inv(w)
    ensures exists keys :: Allowed(w, Restart(Cutting(query), 0, keys, 0))
  {
    hide Inv, Allowed;
    ScanExists(w, Cutting(query), 0);
  }

  lemma CutLoses(w: World, query: string, keys: seq<string>)
    requires query != "" && Inv(w) && w.store.flags == Flags(0, 0) && CursorOf(w.store.kv, query) == Cursor(0, 0)
    requires Log(w) == [Event(1, 2), Event(5, 3)] && Allowed(w, Restart(Cutting(query), 0, keys, 0))
    ensures Lost(Step(w, Restart(Cutting(query), 0, keys, 0)), query, 2)
  {
    hide Core, Flat, CursorOf, DeliverCut, SetUp, Remains, IsScan, Collected, RowsOf, CutMisses, Bounded;
    var op := Restart(Cutting(query), 0, keys, 0);
    var b, w' := Begun(w, Cutting(query)), Step(w, op);
    StepInv(w, op);
    CutCore(w, query);
    CutShape(w, query);
    UnlimitedRestart(b, keys);
    assert Log(w') == Log(w) && Log(w')[0].id == 2;
    assert CutMisses(w, query, 2) by { CutMissesFirst(w, query); }
    StepMisses(w, op, query, 2);
    DeliveryHolds(w', query);
    CoreListsStored(w');
  }

  lemma CutMissesFirst(w: World, query: string)
    requires CursorOf(w.store.kv, query) == Cursor(0, 0) && Log(w) == [Event(1, 2), Event(5, 3)]
    ensures CutMisses(w, query, 2)
  {
    hide CursorOf, Flat;
    assert Log(w)[0].id == 2;
  }

  lemma CoreListsStored(w: World)
    requires Core(w)
    ensures forall i | 0 <= i < |Log(w)| :: Log(w)[i].id in w.ever && Listed(Log(w), Log(w)[i].id)
  {
    hide Flat;
  }

  lemma DeliveryHolds(w: World, query: string)
    requires Inv(w) && query != ""
    ensures Delivers(w, query)
  {
    hide Flat, LogOk, Holds, RowsOf, DropUnreadable, CursorOf, IdsAbove, Window, Ascending, Sorted, QueriesOk, Bounded;
    var c := CursorOf(w.store.kv, query);
    var ids, seen := Collected(w.store, query), Seen(w, query);
    WindowReadable(w, StartOf(c), 0, c.id);
    CollectedMeaning(w, query);
    assert CursorOk(c, Log(w), w.store.lastId, seen, Missed(w, query));
    AscendingConcat(seen, ids, c.id);
  }

  /** Ids are never reused: nothing later in a run overwrites a row once stored,
      and the id counter stays at the newest indexed event, above every stored id. */
  lemma {:induction false} IdsNeverReused(ws: seq<World>, ops: seq<Op>, k: nat, m: nat)
    requires Behaviour(ws, ops) && k <= m < |ws|
    ensures Extends(ws[k].ever, ws[m].ever)
    ensures NewestKept(ws[m])
    decreases m
  {
    hide Step, Inv, Allowed, NewestKept, Fresh;
    BehaviourInv(ws, ops, m);
    InvKeepsNewest(ws[m]);
    if k < m {
      IdsNeverReused(ws, ops, k, m - 1);
      BehaviourInv(ws, ops, m - 1);
      StepExtends(ws[m - 1], ops[m - 1]);
    }
  }

  ghost predicate Extends(a: map<nat, Record>, b: map<nat, Record>) {
    forall id | id in a :: id in b && b[id] == a[id]
  }

  ghost predicate NewestKept(w: World) {
    && (forall id | id in w.ever :: id <= w.store.lastId)
    && (w.ever != map[] ==> Log(w) != [] && Log(w)[|Log(w)| - 1].id == w.store.lastId)
  }

  lemma InvKeepsNewest(w: World)
    requires Inv(w)
    ensures NewestKept(w)
  {
  }

  lemma StepExtends(w: World, op: Op)
    requires Inv(w)
    ensures Extends(w.ever, Step(w, op).ever)
  {
    hide EverAfter, AddBatch, Append, Deliver, Collected, SetUp, OptimizedQuery, WindowQuery, Remains, Core, Bounded;
    CoreIds(w);
    if op.Batch? {
      HistoryGrows(w.ever, op.time, w.store.lastId, op.rows);
    } else if op.Restart? && op.work.Adding? {
      HistoryGrows(w.ever, op.work.time, w.store.lastId, op.work.rows);
    }
  }

  lemma CoreIds(w: World)
    requires Core(w)
    ensures forall id | id in w.ever :: id <= w.store.lastId
  {
  }

  lemma {:induction false} HistoryGrows(ever: map<nat, Record>, time: nat, last: nat, rows: seq<Row>)
    requires forall id | id in ever :: id <= last
    ensures Extends(ever, EverAfter(ever, time, last, rows))
    decreases |rows|
  {
    if rows != [] {
      HistoryGrows(ever, time, last, rows[..|rows| - 1]);
    }
  }

  /** Restart is invisible: a process that dies between operations comes back
      with the same index, the same id counter and the same database, before
      the start-up evictions. */
  lemma RestartInvisible(w: World, keys: seq<string>)
    requires Inv(w) && IsScan(w.store.kv, DataPrefix(w.store.ns), keys)
    ensures var s := Rebuild(Reborn(w.store), keys);
            s.index == w.store.index && s.lastId == w.store.lastId && s.kv == w.store.kv
  {
    RebuildOk(Reborn(w.store), Log(w), w.store.lastId, w.ever, keys);
    FlatInjective(Rebuild(Reborn(w.store), keys).index, w.store.index);
  }

  /** A restart is always possible: the database can list what it holds. */
  lemma ScanExists(w: World, work: Work, lost: nat)
    requires Inv(w) && (work.Adding? ==> Timely(w, work.rows, work.time))
    requires lost == 0 || lost < |Log(Begun(w, work))|
    ensures exists keys :: Allowed(w, Restart(work, lost, keys, 0))
  {
    hide DataKey, DataPrefix, ToIndex, Flat, DeleteEvents, Begun, Timely, IsScan;
    BegunCore(w, work);
    var b := Begun(w, work);
    var f := Log(b)[lost..];
    SuffixOk(b, b.store.kv, Log(b), lost);
    var keys := KeysOf(b.store.ns, f);
    KeysAreScan(Remains(b.store, lost).kv, b.store.ns, f, b.store.lastId, b.ever);
    assert Allowed(w, Restart(work, lost, keys, 0));
  }

  lemma KeysAreScan(kv: Domain, ns: string, f: seq<Event>, lastId: nat, ever: map<nat, Record>)
    requires LogOk(f, lastId, ever) && Holds(kv, ns, f, ever)
    ensures IsScan(kv, DataPrefix(ns), KeysOf(ns, f))
  {
    hide DataKey, DataPrefix, ToIndex;
    var all := KeysOf(ns, f);
    DataKeysPrefixed(ns);
    forall i, j | 0 <= i < j < |f|
      ensures LexLess(all[i], all[j])
    {
      DataKeyOrder(ns, f[i].id, f[j].id);
    }
    forall k
      ensures k in all <==> k in kv && DataPrefix(ns) <= k
    {
      if k in all {
        var i :| 0 <= i < |all| && all[i] == k;
      }
      if k in kv && DataPrefix(ns) <= k {
        var i :| 0 <= i < |f| && k == DataKey(ns, f[i].id);
        assert all[i] == k;
      }
    }
  }

  lemma LeastIs(s: Store, now: nat)
    requires s.queryCount > 0 && s.queries != map[]
    ensures IsLeast(s.queries, ExpireTime(s, now))
  {
    LeastExists(s.queries);
  }

  lemma AllExecutedRecorded(s: Store)
    requires s.queryCount > 0 && ExecutedAll(s)
    ensures s.queries != map[]
  {
  }

  /** A recorded query still at start time 0 blocks expiry altogether. */
  lemma StartZeroBlocks(s: Store, now: nat, query: string)
    requires s.queryCount > 0 && query in s.queries && s.queries[query] == 0
    ensures ExpireAfterQuery(s, now).index == s.index && ExpireAfterQuery(s, now).kv == s.kv
  {
    if ExecutedAll(s) {
      LeastIs(s, now);
      assert ExpireTime(s, now) == 0;
      assert s.index[..0] == [] && s.index[0..] == s.index;
      assert DeleteEvents(s.kv, s.ns, {}) == s.kv;
    }
  }

  /** A cursor is never ahead of the id counter, and neither is the index. */
  lemma NewIdAbove(w: World, query: string)
    requires Core(w) && query != ""
    ensures CursorOf(w.store.kv, query).id <= w.store.lastId
    ensures forall e | e in Log(w) :: e.id <= w.store.lastId
  {
    hide CursorOf, Flat, Holds;
    assert CursorOk(CursorOf(w.store.kv, query), Log(w), w.store.lastId, Seen(w, query), Missed(w, query));
    forall e | e in Log(w) ensures e.id <= w.store.lastId {
      var i :| 0 <= i < |Log(w)| && Log(w)[i] == e;
    }
  }

  /** Some recorded query is at start time 0, or none is below the expiry. */
  ghost predicate NoWrapping(s: Store) {
    || (exists q | q in s.queries :: s.queries[q] == 0)
    || (forall q | q in s.queries :: MinExpiry(s) <= s.queries[q] < TWO64)
  }

  /** What query-path expiry removes is older than every recorded start time. */
  lemma RemovedIsOld(w: World, now: nat, i: nat)
    requires Sorted(w.store.index) && w.store.queryCount > 0 && i < |Log(w)|
    requires NoWrapping(w.store)
    requires !Listed(Flat(ExpireAfterQuery(w.store, now).index), Log(w)[i].id)
    ensures forall q | q in w.store.queries :: Log(w)[i].time < w.store.queries[q]
  {
    hide IsLeast, ExpireTime, ExpireCut, MinExpiry, OldestValid, NoWrapping;
    var s, e := w.store, Log(w)[i];
    if !ExecutedAll(s) {
      assert false;
    }
    AllExecutedRecorded(s);
    LeastIs(s, now);
    var expiry, t := MinExpiry(s), ExpireTime(s, now);
    LeastNoWrap(s, t);
    var k := ExpireCut(s.index, expiry, t);
    CutMember(s.index, k, i);
    FlatTimes(s.index[..k]);
    var b :| 0 <= b < |s.index[..k]| && s.index[..k][b].time == e.time;
    ExpireCutMeaning(s.index, expiry, t, b);
    NoWrap(expiry, t);
    BelowLeast(s.queries, t, e.time);
  }

  lemma LeastNoWrap(s: Store, t: nat)
    requires NoWrapping(s) && IsLeast(s.queries, t)
    ensures t == 0 || MinExpiry(s) <= t < TWO64
  {
    hide MinExpiry;
  }

  lemma CutMember(ix: Index, k: nat, i: nat)
    requires k <= |ix| && i < |Flat(ix)| && !Listed(Flat(ix[k..]), Flat(ix)[i].id)
    ensures Flat(ix)[i] in Flat(ix[..k])
  {
    hide Flat;
    FlatSplit(ix, k);
    assert forall j | 0 <= j < |Flat(ix[k..])| :: Listed(Flat(ix[k..]), Flat(ix[k..])[j].id);
  }

  lemma NoWrap(expiry: nat, t: nat)
    requires 0 < expiry <= t < TWO64
    ensures OldestValid(expiry, t) < t
  {
  }

  lemma BelowLeast(m: map<string, nat>, v: nat, x: nat)
    requires IsLeast(m, v) && x < v
    ensures forall q | q in m :: x < m[q]
  {
  }

  lemma OldIsSeen(w: World, i: nat, q: string)
    requires Core(w) && i < |Log(w)| && q in w.store.queries && Log(w)[i].time < w.store.queries[q]
    ensures q != "" && (Log(w)[i].id in Seen(w, q) || Log(w)[i].id in Missed(w, q))
  {
    hide Flat, LogOk, Holds, CursorOf;
    UnnamedCursor(w.store.kv);
    assert w.store.queries[q] <= StartOf(CursorOf(w.store.kv, q));
    assert CursorOk(CursorOf(w.store.kv, q), Log(w), w.store.lastId, Seen(w, q), Missed(w, q));
  }

  lemma ExpireKeepsSettings(s: Store, now: nat)
    ensures ExpireAfterQuery(s, now).queries == s.queries
    ensures NoWrapping(ExpireAfterQuery(s, now)) ==> NoWrapping(s)
  {
  }

  /** Handed to every recorded query, none of them unnamed, that has not been made
      to miss it. */
  ghost predicate SeenByAll(w: World, id: nat) {
    forall q | q in w.store.queries :: q != "" && (id in Seen(w, q) || id in Missed(w, q))
  }

  /** A query, optimised or windowed, is its scan followed by expiry. */
  lemma QueryShape(w: World, op: Op) returns (d: World)
    requires Core(w) && (op.Query? || op.TimedQuery?)
    ensures Core(d) && Sorted(d.store.index) && Log(d) == Log(w) && d.store.queryCount == w.store.queryCount
    ensures Step(w, op) == d.(store := ExpireAfterQuery(d.store, op.now))
  {
    hide Core, Flat, Deliver, Collected, ExpireAfterQuery, DropUnreadable, IdsAbove, Window, CursorOf;
    if op.Query? {
      d := Delivered(w, op.name);
      DeliverCore(w, op.name);
      DeliverShape(w, op.name);
    } else {
      d := w;
      WindowReadable(w, op.start, op.stop, 0);
      assert w.store.(kv := w.store.kv) == w.store;
    }
    CoreSorted(d);
  }

  /** What the expiry after a query removes, every recorded query has had. */
  lemma RemovedIsSeen(w: World, op: Op, i: nat)
    requires Inv(w) && w.store.queryCount > 0 && i < |Log(w)| && (op.Query? || op.TimedQuery?)
    requires NoWrapping(Step(w, op).store)
    requires !Listed(Log(Step(w, op)), Log(w)[i].id)
    ensures SeenByAll(Step(w, op), Log(w)[i].id)
  {
    hide Step, Flat, ExpireAfterQuery, ExpireTime, MinExpiry, Core, Listed, NoWrapping, Bounded, Sorted;
    var d := QueryShape(w, op);
    ExpireKeepsSettings(d.store, op.now);
    RemovedIsOld(d, op.now, i);
    forall q | q in d.store.queries
      ensures q != "" && (Log(w)[i].id in Seen(d, q) || Log(w)[i].id in Missed(d, q))
    {
      OldIsSeen(d, i, q);
    }
  }

  /** Whatever is indexed before and not after, every recorded query has had. */
  ghost predicate RemovesOnlySeen(w: World, w': World) {
    forall i | 0 <= i < |Log(w)| && !Listed(Log(w'), Log(w)[i].id) :: SeenByAll(w', Log(w)[i].id)
  }

  /** Expiry after a scan, optimised or windowed. With at least one query counted,
      and start times from which the expiry can be subtracted, an event it removes
      has been handed to every recorded query. */
  lemma QueryExpirySafe(ws: seq<World>, ops: seq<Op>, k: nat)
    requires Behaviour(ws, ops) && k < |ops| && (ops[k].Query? || ops[k].TimedQuery?)
    requires ws[k].store.queryCount > 0 && NoWrapping(ws[k + 1].store)
    ensures RemovesOnlySeen(ws[k], ws[k + 1])
  {
    hide Inv, Step, Allowed, Fresh, Listed, NoWrapping, SeenByAll, Log;
    BehaviourInv(ws, ops, k);
    forall i | 0 <= i < |Log(ws[k])| && !Listed(Log(ws[k + 1]), Log(ws[k])[i].id)
      ensures SeenByAll(ws[k + 1], Log(ws[k])[i].id)
    {
      RemovedIsSeen(ws[k], ops[k], i);
    }
  }

  // ------------------------------------- expiry waits for the counted queries

  /** Query names run since the last schedule update or restart. */
  function NamesSince(ops: seq<Op>): set<string> {
    if ops == [] then {}
    else
      var before, op := NamesSince(ops[..|ops| - 1]), ops[|ops| - 1];
      if op.Query? then before + {op.name} else if op.Schedule? || op.Restart? then {} else before
  }

  /** How many queries the last schedule update counted; none after a restart. */
  function CountSince(first: nat, ops: seq<Op>): nat {
    if ops == [] then first
    else
      var op := ops[|ops| - 1];
      if op.Schedule? then op.queryCount else if op.Restart? then 0 else CountSince(first, ops[..|ops| - 1])
  }

  /** The minimum expiry of the last schedule update; none after a restart. */
  function ExpirySince(first: nat, ops: seq<Op>): nat {
    if ops == [] then first
    else
      var op := ops[|ops| - 1];
      if op.Schedule? then op.expiry else if op.Restart? then 0 else ExpirySince(first, ops[..|ops| - 1])
  }

  lemma StepRecords(w: World, op: Op)
    ensures var s, s' := w.store, Step(w, op).store;
            if op.Schedule? then s'.queries == map[] && s'.queryCount == op.queryCount && s'.minExpiration == op.expiry
            else if op.Restart? then s'.queries == map[] && s'.queryCount == 0 && s'.minExpiration == 0
            else && s'.queryCount == s.queryCount && s'.minExpiration == s.minExpiration
                 && s'.queries.Keys == (if op.Query? then s.queries.Keys + {op.name} else s.queries.Keys)
  {
    hide PutRows, Insert, EverAfter, CursorOf, SetCursor, DropUnreadable, Window, IdsAbove, EndOf, ExpireTime, Flat;
    hide RebuildFrom, DeleteEvents, ExpireCut, OverflowCut, Begun;
  }

  /** What the subscriber has recorded, over any run: the names run since the last
      schedule update or restart, and the count and the expiry of that update. */
  lemma {:induction false} RecordedSince(ws: seq<World>, ops: seq<Op>, k: nat)
    requires Behaviour(ws, ops) && k < |ws|
    ensures ws[k].store.queries.Keys == NamesSince(ops[..k])
    ensures ws[k].store.queryCount == CountSince(ws[0].store.queryCount, ops[..k])
    ensures ws[k].store.minExpiration == ExpirySince(ws[0].store.minExpiration, ops[..k])
    decreases k
  {
    hide Step, Allowed;
    if k == 0 {
      assert ops[..0] == [];
    } else {
      RecordedSince(ws, ops, k - 1);
      StepRecords(ws[k - 1], ops[k - 1]);
      assert ops[..k][..k - 1] == ops[..k - 1];
    }
  }

  /** The same rows under all event keys. */
  ghost predicate SameEvents(kv: Domain, kv': Domain, ns: string) {
    forall key | DataPrefix(ns) <= key :: (key in kv <==> key in kv') && (key in kv ==> kv'[key] == kv[key])
  }

  lemma WaitsFrom(w: World, op: Op)
    requires Core(w) && (op.Query? || op.TimedQuery?)
    requires |Step(w, op).store.queries| < w.store.queryCount
    ensures Step(w, op).store.index == w.store.index
    ensures SameEvents(w.store.kv, Step(w, op).store.kv, w.store.ns)
  {
    hide Core, Flat, CursorOf, SetCursor, DropUnreadable, IdsAbove, Window, ExpireTime, Evict, DataPrefix;
    if op.Query? {
      DeliverShape(w, op.name);
      hide Deliver;
      ExpireKeepsSettings(Deliver(w.store, op.name), op.now);
      if w.store.index != [] {
        LogNotEmpty(w);
        CursorSparesData(w.store.ns, w.store.kv, op.name, Cursor(NewestTime(w), w.store.lastId));
      }
    } else {
      WindowReadable(w, op.start, op.stop, 0);
      assert w.store.(kv := w.store.kv) == w.store;
      ExpireKeepsSettings(w.store, op.now);
    }
  }

  /** While fewer names have run since the schedule update than it counted, no query
      expires anything: index and rows stay as they were. */
  lemma QueryWaitsForAll(ws: seq<World>, ops: seq<Op>, k: nat)
    requires Behaviour(ws, ops) && k < |ops| && (ops[k].Query? || ops[k].TimedQuery?)
    requires |NamesSince(ops[..k + 1])| < CountSince(ws[0].store.queryCount, ops[..k])
    ensures ws[k + 1].store.index == ws[k].store.index
    ensures SameEvents(ws[k].store.kv, ws[k + 1].store.kv, ws[k].store.ns)
  {
    hide Step, Allowed, Fresh, Core, Bounded, SameEvents, NamesSince, CountSince;
    BehaviourInv(ws, ops, k);
    RecordedSince(ws, ops, k);
    RecordedSince(ws, ops, k + 1);
    KeysCount(ws[k + 1].store.queries);
    WaitsFrom(ws[k], ops[k]);
  }

  lemma KeysCount(m: map<string, nat>)
    ensures |m| == |m.Keys|
  {
  }

  lemma {:induction false} SubsetOfSize(a: set<string>, b: set<string>)
    requires a <= b && |a| >= |b|
    ensures a == b
  {
    if b != {} {
      if a == {} {
        assert false;
      }
      var x :| x in a;
      assert |a - {x}| == |a| - 1 && |b - {x}| == |b| - 1;
      SubsetOfSize(a - {x}, b - {x});
      assert a == (a - {x}) + {x} && b == (b - {x}) + {x};
    }
  }

  /** Handed to every one of some names, or missed by it. */
  ghost predicate ServedAll(w: World, names: set<string>, id: nat) {
    forall q | q in names :: q != "" && (id in Seen(w, q) || id in Missed(w, q))
  }

  /** Expiry serves all counted queries. If `names` are as many as the schedule
      counts and no other name has run since its last update, an event that the
      expiry after a query removes has been handed to, or missed by, each of them,
      whether it has run since then or not. */
  lemma CountedQueriesServed(ws: seq<World>, ops: seq<Op>, k: nat, names: set<string>, i: nat)
    requires Behaviour(ws, ops) && k < |ops| && (ops[k].Query? || ops[k].TimedQuery?)
    requires 0 < |names| == CountSince(ws[0].store.queryCount, ops[..k]) && NamesSince(ops[..k + 1]) <= names
    requires NoWrapping(ws[k + 1].store)
    requires i < |Log(ws[k])| && !Listed(Log(ws[k + 1]), Log(ws[k])[i].id)
    ensures ServedAll(ws[k + 1], names, Log(ws[k])[i].id)
  {
    hide Step, Allowed, Fresh, Inv, Listed, NoWrapping, SameEvents, NamesSince, CountSince, Log;
    RecordedSince(ws, ops, k);
    RecordedSince(ws, ops, k + 1);
    QueryExpirySafe(ws, ops, k);
    if |NamesSince(ops[..k + 1])| < |names| {
      QueryWaitsForAll(ws, ops, k);
      SameLog(ws[k], ws[k + 1], i);
    } else {
      SubsetOfSize(NamesSince(ops[..k + 1]), names);
    }
  }

  lemma SameLog(w: World, w': World, i: nat)
    requires w'.store.index == w.store.index && i < |Log(w)|
    ensures Listed(Log(w'), Log(w)[i].id)
  {
  }

  lemma CoreSorted(w: World)
    requires Core(w)
    ensures Sorted(w.store.index)
  {
  }
}

/** The subscriber's state and what each of its operations does to it, with the
    whole `events` domain of the database as a map from key text to value.
    The class in EventSubscriber.dfy carries these operations out. */
module EventStore {
  import opened Basics
  import opened Text
  import opened EventIndex

  const CHECKPOINT: nat := 256

  /** A stored row; `Data` stands for its serialised form. */
  datatype Record = Record(time: nat, eid: string, columns: string)
  /** A row as handed to `addBatch`, and whether it can be serialised. */
  datatype Row = Row(columns: string, serialises: bool)
  datatype Value = Data(row: Record) | Content(text: string)
  type Domain = map<string, Value>

  datatype Cursor = Cursor(time: nat, id: nat)
  datatype Flags = Flags(eventsMax: nat, eventsExpiry: nat)

  datatype Store = Store(
    ns: string, flags: Flags, kv: Domain,
    index: Index, lastId: nat, count: nat,
    queries: map<string, nat>, queryCount: nat, minExpiration: nat)

  // ------------------------------------------------------------------ keys

  function DataPrefix(ns: string): string {
    "data." + ns + "."
  }

  function DataKey(ns: string, id: nat): string {
    DataPrefix(ns) + ToIndex(id)
  }

  function TimeKey(query: string): string {
    "optimize." + query
  }

  function EidKey(query: string): string {
    "optimize_eid." + query
  }

  lemma DataKeyInjective(ns: string, i: nat, j: nat)
    requires DataKey(ns, i) == DataKey(ns, j)
    ensures i == j
  {
    var n := |DataPrefix(ns)|;
    assert DataKey(ns, i)[n..] == ToIndex(i) && DataKey(ns, j)[n..] == ToIndex(j);
    ValueOfToIndex(i);
    ValueOfToIndex(j);
  }

  /** The key texts, spelled out: an id is written in ten digits. */
  lemma KeysSpelled(ns: string, id: nat, query: string)
    ensures id < 10 ==> DataKey(ns, id) == "data." + ns + "." + "000000000" + [DigitChar(id)]
    ensures TimeKey(query) == "optimize." + query && EidKey(query) == "optimize_eid." + query
  {
    if id < 10 {
      assert Zeros(9) == "000000000";
      assert ToString(id) == [DigitChar(id)];
    }
  }

  lemma CursorKeysApart(ns: string, p: string, q: string)
    ensures TimeKey(p) != EidKey(q)
    ensures TimeKey(p) == TimeKey(q) ==> p == q
    ensures EidKey(p) == EidKey(q) ==> p == q
    ensures !(DataPrefix(ns) <= TimeKey(p)) && !(DataPrefix(ns) <= EidKey(p))
  {
    assert TimeKey(p)[8] == '.' && EidKey(q)[8] == '_';
    assert TimeKey(p)[9..] == p && TimeKey(q)[9..] == q;
    assert EidKey(p)[13..] == p && EidKey(q)[13..] == q;
    assert DataPrefix(ns)[0] == 'd' && TimeKey(p)[0] == 'o' && EidKey(p)[0] == 'o';
  }

  // --------------------------------------------------------------- cursors

  function TextAt(kv: Domain, key: string): string {
    if key in kv && kv[key].Content? then kv[key].text else ""
  }

  /** `timeFromRecord`: a signed reading stored in an unsigned time. */
  function TimeFromRecord(record: string): nat {
    TryToLongLong(record).GetOr(0) % TWO64
  }

  /** `getOptimizeData`. */
  function CursorOf(kv: Domain, query: string): Cursor {
    if query == "" then Cursor(0, 0)
    else Cursor(TimeFromRecord(TextAt(kv, TimeKey(query))), TryToUint64(TextAt(kv, EidKey(query))).GetOr(0))
  }

  /** The first of the two writes of `setOptimizeData`. */
  function SetCursorTime(kv: Domain, query: string, time: nat): Domain {
    if query == "" then kv else kv[TimeKey(query) := Content(ToString(time))]
  }

  /** `setOptimizeData`. */
  function SetCursor(kv: Domain, query: string, c: Cursor): Domain {
    if query == "" then kv else SetCursorTime(kv, query, c.time)[EidKey(query) := Content(ToIndex(c.id))]
  }

  /** A cursor written for one query name is read back by that name, exactly when
      its time fits the signed reading; from there on it reads as time 0 ... */
  lemma CursorReadsBack(kv: Domain, query: string, c: Cursor)
    requires query != "" && c.time < TWO64 && c.id < TWO64
    ensures CursorOf(SetCursor(kv, query, c), query) == Cursor(if c.time < TWO63 then c.time else 0, c.id)
    ensures CursorOf(SetCursor(kv, query, c), query) == c <==> c.time < TWO63
  {
    hide ToString, ToIndex, TryToLongLong, TryToUint64;
    NumbersReadBack(c.time);
    NumbersReadBack(c.id);
    CursorKeysApart("", query, query);
    var kv' := SetCursor(kv, query, c);
    assert TextAt(kv', TimeKey(query)) == ToString(c.time);
    assert TextAt(kv', EidKey(query)) == ToIndex(c.id);
  }

  /** ... and by no other, ... */
  lemma CursorIsPrivate(kv: Domain, query: string, c: Cursor, other: string)
    requires other != query
    ensures CursorOf(SetCursor(kv, query, c), other) == CursorOf(kv, other)
  {
    CursorKeysApart("", query, other);
    CursorKeysApart("", other, query);
    var kv' := SetCursor(kv, query, c);
    assert TextAt(kv', TimeKey(other)) == TextAt(kv, TimeKey(other));
    assert TextAt(kv', EidKey(other)) == TextAt(kv, EidKey(other));
  }

  /** ... and touches no stored event. */
  lemma CursorSparesData(ns: string, kv: Domain, query: string, c: Cursor)
    ensures forall k | DataPrefix(ns) <= k :: k in kv <==> k in SetCursor(kv, query, c)
    ensures forall k | DataPrefix(ns) <= k && k in kv :: SetCursor(kv, query, c)[k] == kv[k]
  {
    CursorKeysApart(ns, query, query);
  }

  /** A process that dies between the two writes leaves a cursor with the new time
      and the old id, other cursors and events as they were. */
  lemma CutCursorReads(ns: string, kv: Domain, query: string, time: nat, other: string)
    requires query != "" && time < TWO63
    ensures CursorOf(SetCursorTime(kv, query, time), other) ==
            if other == query then Cursor(time, CursorOf(kv, query).id) else CursorOf(kv, other)
    ensures forall k | DataPrefix(ns) <= k :: k in kv <==> k in SetCursorTime(kv, query, time)
    ensures forall k | DataPrefix(ns) <= k && k in kv :: SetCursorTime(kv, query, time)[k] == kv[k]
  {
    hide ToString, ToIndex, TryToLongLong, TryToUint64;
    NumbersReadBack(time);
    CursorKeysApart(ns, query, other);
    CursorKeysApart(ns, other, query);
    var kv' := SetCursorTime(kv, query, time);
    assert TextAt(kv', EidKey(other)) == TextAt(kv, EidKey(other));
    assert TextAt(kv', TimeKey(other)) == if other == query then ToString(time) else TextAt(kv, TimeKey(other));
  }

  // -------------------------------------------------------- database edits

  function DeleteEvents(kv: Domain, ns: string, ids: set<nat>): Domain {
    kv - set id | id in ids :: DataKey(ns, id)
  }

  lemma DeleteOne(kv: Domain, ns: string, ids: set<nat>, id: nat)
    ensures DeleteEvents(kv, ns, ids) - {DataKey(ns, id)} == DeleteEvents(kv, ns, ids + {id})
    ensures DeleteEvents(kv, ns, {}) == kv
  {
    hide DataKey;
  }

  /** The batch write of `addBatch`: row `i` takes id `last + 1 + i`, and is stored
      under it if it can be serialised. */
  function PutRows(kv: Domain, ns: string, time: nat, last: nat, rows: seq<Row>): Domain {
    var n := |rows|;
    if n == 0 then kv
    else
      var before := PutRows(kv, ns, time, last, rows[..n - 1]);
      if !rows[n - 1].serialises then before
      else before[DataKey(ns, last + n) := Data(Record(time, ToIndex(last + n), rows[n - 1].columns))]
  }

  /** Each id of a batch has its own row, or what was there before where the row
      did not serialise. */
  lemma {:induction false} PutRowsMeaning(kv: Domain, ns: string, time: nat, last: nat, rows: seq<Row>, i: nat)
    requires i < |rows|
    ensures var id, kv' := last + 1 + i, PutRows(kv, ns, time, last, rows);
            if rows[i].serialises
            then RowAt(kv', DataKey(ns, id)) == Some(Record(time, ToIndex(id), rows[i].columns))
            else RowAt(kv', DataKey(ns, id)) == RowAt(kv, DataKey(ns, id))
    decreases |rows|
  {
    hide DataKey, ToIndex;
    var n := |rows|;
    if i < n - 1 {
      PutRowsMeaning(kv, ns, time, last, rows[..n - 1], i);
      if DataKey(ns, last + n) == DataKey(ns, last + 1 + i) {
        DataKeyInjective(ns, last + n, last + 1 + i);
      }
    } else {
      PutRowsBelow(kv, ns, time, last, rows[..n - 1], last + n);
    }
  }

  /** A batch touches no id above its own. */
  lemma {:induction false} PutRowsBelow(kv: Domain, ns: string, time: nat, last: nat, rows: seq<Row>, id: nat)
    requires id > last + |rows|
    ensures RowAt(PutRows(kv, ns, time, last, rows), DataKey(ns, id)) == RowAt(kv, DataKey(ns, id))
    decreases |rows|
  {
    hide DataKey, ToIndex;
    var n := |rows|;
    if n > 0 {
      PutRowsBelow(kv, ns, time, last, rows[..n - 1], id);
      if DataKey(ns, last + n) == DataKey(ns, id) {
        DataKeyInjective(ns, last + n, id);
      }
    }
  }

  predicate AnySerialises(rows: seq<Row>) {
    exists i | 0 <= i < |rows| :: rows[i].serialises
  }

  function IdRange(last: nat, n: nat): (ids: seq<nat>)
    ensures |ids| == n
    ensures forall i | 0 <= i < n :: ids[i] == last + 1 + i
  {
    seq(n, i => last + 1 + i)
  }

  function Ids(f: seq<Event>): set<nat> {
    set e | e in f :: e.id
  }

  // ------------------------------------------------------------ operations

  /** Erase the first `k` buckets and delete their rows. */
  function Evict(s: Store, k: nat): Store
    requires k <= |s.index|
  {
    s.(index := s.index[k..], kv := DeleteEvents(s.kv, s.ns, Ids(Flat(s.index[..k]))))
  }

  function RemoveOverflowing(s: Store): Store {
    Evict(s, OverflowCut(s.index, s.flags.eventsMax))
  }

  function Expire(s: Store, expiry: nat, current: nat): Store {
    Evict(s, ExpireCut(s.index, expiry, current))
  }

  function MinExpiry(s: Store): nat {
    if s.flags.eventsExpiry < s.minExpiration then s.minExpiration else s.flags.eventsExpiry
  }

  function Append(s: Store, rows: seq<Row>, time: nat): Store {
    var n := |rows|;
    s.(kv := PutRows(s.kv, s.ns, time, s.lastId, rows),
       index := Insert(s.index, time, IdRange(s.lastId, n)),
       lastId := s.lastId + n,
       count := s.count + n)
  }

  /** `addBatch` at the resolved event time. A batch of which no row serialises is
      an error; its ids stay taken. */
  function AddBatch(s: Store, rows: seq<Row>, time: nat, later: nat): Store {
    if !AnySerialises(rows) then s.(lastId := s.lastId + |rows|)
    else
      var s' := Append(s, rows, time);
      if s.count % CHECKPOINT + |rows| >= CHECKPOINT
      then Expire(RemoveOverflowing(s'), MinExpiry(s'), later)
      else s'
  }

  ghost predicate IsLeast(m: map<string, nat>, v: nat) {
    && (exists q | q in m :: m[q] == v)
    && (forall q | q in m :: v <= m[q])
  }

  lemma {:induction false} LeastExists(m: map<string, nat>)
    requires m != map[]
    ensures exists v :: IsLeast(m, v)
    decreases |m|
  {
    var q :| q in m;
    var rest := m - {q};
    if rest == map[] {
      assert forall p | p in m && p != q :: p in rest;
      assert IsLeast(m, m[q]);
    } else {
      assert |rest| < |m| by {
        assert m.Keys == rest.Keys + {q};
      }
      LeastExists(rest);
      var v :| IsLeast(rest, v);
      var w := if v <= m[q] then v else m[q];
      var p :| p in rest && rest[p] == v;
      assert m[p] == v;
      forall x | x in m ensures w <= m[x] {
        if x != q { assert x in rest; }
      }
      assert IsLeast(m, w);
    }
  }

  /** `getExpireTime`: the current time while no query is counted or recorded,
      otherwise the oldest recorded start time. */
  ghost function ExpireTime(s: Store, now: nat): nat {
    if s.queryCount == 0 || s.queries == map[] then now
    else
      LeastExists(s.queries);
      var v :| IsLeast(s.queries, v);
      v
  }

  predicate ExecutedAll(s: Store) {
    |s.queries| >= s.queryCount
  }

  function StartOf(c: Cursor): nat {
    if c.time == 0 then 0 else c.time - 1
  }

  /** Where a scan leaves the cursor: at the last id of the last bucket visited. */
  function EndOf(w: Index): Cursor
    requires w != []
  {
    var b := w[|w| - 1];
    Cursor(b.time, if b.ids == [] then 0 else b.ids[|b.ids| - 1])
  }

  function RowAt(kv: Domain, key: string): Option<Record> {
    if key in kv && kv[key].Data? then Some(kv[key].row) else None
  }

  /** Rows read back for the collected ids; unreadable ones are skipped ... */
  function RowsOf(kv: Domain, ns: string, ids: seq<nat>): seq<Record> {
    var n := |ids|;
    if n == 0 then []
    else
      var r := RowAt(kv, DataKey(ns, ids[n - 1]));
      RowsOf(kv, ns, ids[..n - 1]) + if r.Some? then [r.value] else []
  }

  /** ... and their keys deleted. */
  function DropUnreadable(kv: Domain, ns: string, ids: seq<nat>): Domain {
    kv - UnreadableKeys(kv, ns, ids)
  }

  function UnreadableKeys(kv: Domain, ns: string, ids: seq<nat>): set<string> {
    set id | id in ids && RowAt(kv, DataKey(ns, id)).None? :: DataKey(ns, id)
  }

  lemma ReadOne(kv: Domain, ns: string, ids: seq<nat>, id: nat)
    ensures var r := RowAt(kv, DataKey(ns, id));
            && RowsOf(kv, ns, ids + [id]) == RowsOf(kv, ns, ids) + (if r.Some? then [r.value] else [])
            && UnreadableKeys(kv, ns, ids + [id]) ==
               UnreadableKeys(kv, ns, ids) + (if r.None? then {DataKey(ns, id)} else {})
  {
    hide DataKey, RowAt;
    assert (ids + [id])[..|ids|] == ids;
  }

  /** Expiry that follows every scan once all counted queries have run. */
  ghost function ExpireAfterQuery(s: Store, now: nat): Store {
    if ExecutedAll(s) then Expire(s, MinExpiry(s), ExpireTime(s, now)) else s
  }

  /** An optimised scan by a scheduled query, before expiry. */
  function Deliver(s: Store, query: string): Store {
    var c := CursorOf(s.kv, query);
    var w := Window(s.index, StartOf(c), 0);
    var kv := DropUnreadable(s.kv, s.ns, IdsAbove(w, c.id));
    s.(queries := s.queries[query := StartOf(c)],
       kv := if w == [] then kv else SetCursor(kv, query, EndOf(w)))
  }

  /** An optimised scan whose process dies between the two cursor writes. */
  function DeliverCut(s: Store, query: string): Store {
    var c := CursorOf(s.kv, query);
    var w := Window(s.index, StartOf(c), 0);
    var kv := DropUnreadable(s.kv, s.ns, IdsAbove(w, c.id));
    s.(kv := if w == [] then kv else SetCursorTime(kv, query, EndOf(w).time))
  }

  /** Ids an optimised scan by `query` collects. */
  function Collected(s: Store, query: string): seq<nat> {
    var c := CursorOf(s.kv, query);
    IdsAbove(Window(s.index, StartOf(c), 0), c.id)
  }

  ghost function OptimizedQuery(s: Store, query: string, now: nat): Store {
    ExpireAfterQuery(Deliver(s, query), now)
  }

  /** A scan under a `time` constraint: no cursor, no record of the query. */
  ghost function WindowQuery(s: Store, start: nat, stop: nat, now: nat): Store {
    var ids := IdsAbove(Window(s.index, start, stop), 0);
    ExpireAfterQuery(s.(kv := DropUnreadable(s.kv, s.ns, ids)), now)
  }

  /** The part of `configUpdate` that reaches a subscriber. */
  function Configure(s: Store, expiry: nat, queryCount: nat): Store {
    s.(minExpiration := expiry, queryCount := queryCount, queries := map[])
  }

  // --------------------------------------------------------------- restart

  /** What the database hands back for a prefix scan. */
  ghost predicate IsScan(kv: Domain, prefix: string, keys: seq<string>) {
    && (forall i, j | 0 <= i < j < |keys| :: LexLess(keys[i], keys[j]))
    && (forall k :: k in keys <==> k in kv && prefix <= k)
  }

  datatype Rebuilt = Rebuilt(index: Index, lastId: nat, invalid: set<string>)

  /** The scan loop of `generateEventDataIndex` over the first keys. */
  function RebuildFrom(kv: Domain, prefix: string, keys: seq<string>): Rebuilt {
    if keys == [] then Rebuilt([], 1, {})
    else
      var r := RebuildFrom(kv, prefix, keys[..|keys| - 1]);
      RebuildKey(kv, prefix, r, keys[|keys| - 1])
  }

  /** The id in a key, 0 where there is none. */
  function KeyId(prefix: string, key: string): nat {
    if |prefix| <= |key| then WholeUint64(key[|prefix|..]).GetOr(0) else 0
  }

  function RebuildKey(kv: Domain, prefix: string, r: Rebuilt, key: string): Rebuilt {
    var id := KeyId(prefix, key);
    if id == 0 then r.(invalid := r.invalid + {key})
    else
      var row := RowAt(kv, key);
      if row.None? then r.(lastId := Max(r.lastId, id), invalid := r.invalid + {key})
      else r.(lastId := Max(r.lastId, id), index := Insert(r.index, row.value.time, [id]))
  }

  function Rebuild(s: Store, keys: seq<string>): Store {
    var r := RebuildFrom(s.kv, DataPrefix(s.ns), keys);
    s.(index := r.index, lastId := r.lastId, kv := s.kv - r.invalid)
  }

  /** What survives a process: the database and the flags. */
  function Reborn(s: Store): Store {
    s.(index := [], lastId := 0, count := 0, queries := map[], queryCount := 0, minExpiration := 0)
  }

  /** `setUp` of a fresh process. */
  function SetUp(s: Store, keys: seq<string>, now: nat): Store {
    var s' := Rebuild(s, keys);
    RemoveOverflowing(Expire(s', MinExpiry(s'), now))
  }
}

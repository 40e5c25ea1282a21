/** The differential log where executions are cut short: each of the writes of an
    execution, and the log call after them, may be the last thing a process does.
    What the database and the log hold then, exactly when replaying the log still
    gives the stored rows, and which losses a consumer can see in the counters. */
module QueryCrashes {
  import opened Basics
  import opened Text
  import opened QueryLog

  function Step(d: Daemon, e: Execution, cut: Cut): Daemon {
    var u := AddNewResults(d.kv, e);
    if u.None? then d
    else
      var item := Emitted(u.value, e);
      Daemon(Written(d.kv, e, cut),
             if !cut.Completed? || item.None? then d.logs else d.logs[e.name := LogOf(d, e.name) + [item.value]])
  }

  /** An execution that runs to its end is the one without crashes. */
  lemma CompletedIsStep(d: Daemon, e: Execution)
    ensures Step(d, e, Completed) == QueryLog.Step(d, e)
  {
    hide AddNewResults, Written;
    CompletedWrites(d.kv, e);
  }

  // --------------------------------------------------------------- the ledger

  /** What executions and cuts amount to, database and log apart: the rows, epoch
      and counter stored, where they are, and what the log replays to. */
  datatype Ledger = Ledger(rows: Option<multiset<Row>>, epoch: Option<nat>, counter: Option<nat>, replay: multiset<Row>)

  const BLANK: Ledger := Ledger(None, None, None, multiset{})

  /** An execution that stores and logs its rows in full. An epoch that was never
      stored reads as 0. */
  predicate Full(l: Ledger, e: Execution) {
    l.rows.None? || l.epoch.GetOr(0) != e.epoch
  }

  function Next(l: Ledger): nat {
    if l.counter.None? then 0 else l.counter.value + 1
  }

  predicate Unchanged(l: Ledger, e: Execution) {
    !Full(l, e) && l.rows == Some(multiset(e.rows))
  }

  /** What the log replays to after an execution that runs to its end: an item with
      counter 0 replaces what came before, any other patches it. */
  function Replayed(l: Ledger, e: Execution): multiset<Row> {
    var now := multiset(e.rows);
    if Full(l, e) then now
    else
      var before := l.rows.GetOr(multiset{});
      if Next(l) == 0 then now - before
      else l.replay - (if e.reportRemoved then before - now else multiset{}) + (now - before)
  }

  function Post(l: Ledger, e: Execution, cut: Cut): Ledger {
    if Unchanged(l, e) then l
    else
      Ledger(if cut.AfterStatus? then l.rows else Some(multiset(e.rows)),
             if cut.AfterStatus? || cut.AfterResults? then l.epoch else Some(e.epoch),
             if cut.AfterCounter? || cut.Completed? then Some(if Full(l, e) then 0 else Next(l)) else l.counter,
             if cut.Completed? then Replayed(l, e) else l.replay)
  }

  // ------------------------------------------------------ one execution of it

  ghost predicate HoldsText(kv: Domain, key: string, n: Option<nat>) {
    if n.None? then key !in kv else n.value < TWO64 && key in kv && kv[key] == Content(ToString(n.value))
  }

  ghost predicate HoldsRows(kv: Domain, name: string, rows: Option<multiset<Row>>) {
    if rows.None? then name !in kv else name in kv && kv[name].Results? && multiset(kv[name].rows) == rows.value
  }

  /** The database holds of a name what the ledger says. */
  ghost predicate Kept(kv: Domain, name: string, l: Ledger) {
    && HoldsRows(kv, name, l.rows)
    && HoldsText(kv, EpochKey(name), l.epoch) && HoldsText(kv, CounterKey(name), l.counter)
  }

  lemma KeptReads(kv: Domain, name: string, l: Ledger)
    requires Kept(kv, name, l) && Next(l) < TWO64
    ensures PreviousEpoch(kv, name) == Some(l.epoch.GetOr(0))
    ensures NextCounter(kv, name) == Some(Next(l))
    ensures HoldsRows(kv, name, l.rows)
  {
    hide ToString, ToIndex, TryToUint64, TryToLongLong, WholeUint64, EpochKey, CounterKey, HoldsRows;
    if l.epoch.Some? {
      NumbersReadBack(l.epoch.value);
    }
    if l.counter.Some? {
      NumbersReadBack(l.counter.value);
    }
  }

  lemma SqlLeavesKept(kv: Domain, name: string, sql: string, l: Ledger)
    requires Kept(kv, name, l)
    ensures Kept(kv[SqlKey(name) := Content(sql)], name, l)
  {
    hide ToString, EpochKey, CounterKey, SqlKey;
    OwnKeysDistinct(name);
  }

  /** The status checks see what the ledger says. */
  lemma StatusIs(kv: Domain, e: Execution, l: Ledger) returns (kv': Domain)
    requires Kept(kv, e.name, l) && Next(l) < TWO64
    ensures StatusOf(kv, e).Some? && StatusOf(kv, e).value.kv == kv'
    ensures StatusOf(kv, e).value.newEpoch <==> Full(l, e)
    ensures Kept(kv', e.name, l)
  {
    hide Kept, PreviousEpoch, NextCounter, SqlOf, SqlKey;
    KeptReads(kv, e.name, l);
    SqlLeavesKept(kv, e.name, e.sql, l);
    kv' := StatusOf(kv, e).value.kv;
  }

  /** What an execution computes, by the ledger. */
  lemma UpdateIs(kv: Domain, e: Execution, l: Ledger) returns (u: Update, kv': Domain)
    requires Kept(kv, e.name, l) && Next(l) < TWO64
    ensures AddNewResults(kv, e) == Some(u) && Kept(kv', e.name, l)
    ensures StatusOf(kv, e).Some? && StatusOf(kv, e).value.kv == kv'
    ensures Unchanged(l, e) ==> u == Update(kv', None, multiset{}, multiset{})
    ensures Full(l, e) ==> u.counter == Some(0) && u.added == multiset(e.rows) && u.removed == multiset{}
    ensures !Full(l, e) && !Unchanged(l, e) ==>
              && u.counter == Some(Next(l))
              && u.added == multiset(e.rows) - l.rows.value && u.removed == l.rows.value - multiset(e.rows)
  {
    hide Kept, StatusOf, NextCounter, Save;
    kv' := StatusIs(kv, e, l);
    KeptReads(kv', e.name, l);
    u := AddNewResults(kv, e).value;
  }

  lemma SaveKept(kv: Domain, e: Execution, l: Ledger, counter: nat, cut: Cut)
    requires Kept(kv, e.name, l) && e.epoch < TWO64 && counter < TWO64
    ensures Kept(SaveUpTo(kv, e, counter, cut), e.name,
                 Ledger(if cut.AfterStatus? then l.rows else Some(multiset(e.rows)),
                        if cut.AfterStatus? || cut.AfterResults? then l.epoch else Some(e.epoch),
                        if cut.AfterCounter? || cut.Completed? then Some(counter) else l.counter, l.replay))
  {
    hide ToString, EpochKey, CounterKey, SqlKey;
    OwnKeysDistinct(e.name);
  }

  lemma PostShape(l: Ledger, e: Execution, cut: Cut)
    requires !Unchanged(l, e)
    ensures var p := Post(l, e, cut);
            && p.rows == (if cut.AfterStatus? then l.rows else Some(multiset(e.rows)))
            && p.epoch == (if cut.AfterStatus? || cut.AfterResults? then l.epoch else Some(e.epoch))
            && p.counter == (if cut.AfterCounter? || cut.Completed?
                             then Some(if Full(l, e) then 0 else Next(l)) else l.counter)
            && p.replay == (if cut.Completed? then Replayed(l, e) else l.replay)
  {
  }

  /** The database after an execution that is cut or not. */
  lemma WrittenKept(kv: Domain, e: Execution, cut: Cut, l: Ledger)
    requires Kept(kv, e.name, l) && Next(l) < TWO64 && e.epoch < TWO64
    ensures Kept(Written(kv, e, cut), e.name, Post(l, e, cut))
  {
    hide Kept, AddNewResults, StatusOf, SaveUpTo, Replayed;
    var u, kv' := UpdateIs(kv, e, l);
    if !Unchanged(l, e) {
      PostShape(l, e, cut);
      SaveKept(kv', e, l, if Full(l, e) then 0 else Next(l), cut);
      KeptForgets(Written(kv, e, cut), e.name, Post(l, e, cut), l.replay);
    }
  }

  /** What the log replays to is no matter of the database. */
  lemma KeptForgets(kv: Domain, name: string, l: Ledger, replay: multiset<Row>)
    requires Kept(kv, name, l.(replay := replay))
    ensures Kept(kv, name, l)
  {
    hide HoldsRows, HoldsText;
  }

  /** What the log replays to after a logged item. */
  lemma LoggedReplays(log: seq<Item>, u: Update, e: Execution, l: Ledger)
    requires Replay(log) == l.replay && !Unchanged(l, e)
    requires Full(l, e) ==> u.counter == Some(0) && u.added == multiset(e.rows) && u.removed == multiset{}
    requires !Full(l, e) ==> && u.counter == Some(Next(l)) && l.rows.Some?
                             && u.added == multiset(e.rows) - l.rows.value
                             && u.removed == l.rows.value - multiset(e.rows)
    ensures var item := Emitted(u, e);
            Replay(if item.None? then log else log + [item.value]) == Replayed(l, e)
  {
    hide Replay;
    var item := Emitted(u, e);
    if item.Some? {
      ReplaySnoc(log, item.value);
    } else {
      NothingPatched(l.replay);
    }
  }

  lemma NothingPatched(m: multiset<Row>)
    ensures m - multiset{} + multiset{} == m
  {
  }

  ghost predicate Tracks(d: Daemon, name: string, l: Ledger, n: nat) {
    Kept(d.kv, name, l) && Next(l) <= n && Replay(LogOf(d, name)) == l.replay
  }

  lemma OwnStep(d: Daemon, e: Execution, cut: Cut, l: Ledger, n: nat)
    requires Tracks(d, e.name, l, n) && n < TWO64 && e.epoch < TWO64
    ensures Tracks(Step(d, e, cut), e.name, Post(l, e, cut), n + 1)
  {
    hide Kept, AddNewResults, Written, Emitted, Replay, Replayed;
    var u, kv' := UpdateIs(d.kv, e, l);
    WrittenKept(d.kv, e, cut, l);
    if Unchanged(l, e) {
      UnchangedEmitted(u, e);
    } else {
      PostShape(l, e, cut);
      LoggedReplays(LogOf(d, e.name), u, e, l);
    }
  }

  /** However far it gets, an execution writes only under its own name's keys. */
  lemma WritesOwn(kv: Domain, e: Execution, cut: Cut, k: string)
    requires k !in Keys(e.name)
    ensures var kv' := Written(kv, e, cut); (k in kv <==> k in kv') && (k in kv ==> kv'[k] == kv[k])
  {
    hide EpochKey, CounterKey, SqlKey, NextCounter, PreviousEpoch, SqlOf, ToString;
    if AddNewResults(kv, e).Some? {
      var st := StatusOf(kv, e).value;
      assert (k in kv <==> k in st.kv) && (k in kv ==> st.kv[k] == kv[k]);
      hide StatusOf, AddNewResults;
    }
  }

  lemma OtherStep(d: Daemon, e: Execution, cut: Cut, name: string, l: Ledger, n: nat)
    requires Tracks(d, name, l, n) && name != e.name && Keys(name) !! Keys(e.name)
    ensures Tracks(Step(d, e, cut), name, l, n + 1)
  {
    hide ToString, EpochKey, CounterKey, SqlKey, AddNewResults, Written, Emitted, Replay;
    assert name in Keys(name) && EpochKey(name) in Keys(name) && CounterKey(name) in Keys(name);
    WritesOwn(d.kv, e, cut, name);
    WritesOwn(d.kv, e, cut, EpochKey(name));
    WritesOwn(d.kv, e, cut, CounterKey(name));
  }

  // ----------------------------------------------------------------- all runs

  /** A run of executions, each cut somewhere or run to its end, over a database
      that holds nothing of these names at first. */
  ghost predicate Behaviour(ds: seq<Daemon>, es: seq<Execution>, cuts: seq<Cut>, names: set<string>) {
    && Apart(names) && |es| < TWO64 && |cuts| == |es|
    && (forall k | 0 <= k < |es| :: es[k].name in names && es[k].epoch < TWO64)
    && |ds| == |es| + 1 && ds[0].logs == map[] && (forall p | p in names :: Keys(p) !! ds[0].kv.Keys)
    && (forall k | 0 <= k < |es| :: ds[k + 1] == Step(ds[k], es[k], cuts[k]))
  }

  function LedgerOf(es: seq<Execution>, cuts: seq<Cut>, name: string): Ledger
    requires |cuts| == |es|
  {
    if es == [] then BLANK
    else
      var n := |es| - 1;
      var l := LedgerOf(es[..n], cuts[..n], name);
      if es[n].name == name then Post(l, es[n], cuts[n]) else l
  }

  lemma {:induction false} RunTracks(ds: seq<Daemon>, es: seq<Execution>, cuts: seq<Cut>, names: set<string>,
                                     name: string, k: nat)
    requires Behaviour(ds, es, cuts, names) && name in names && k < |ds|
    ensures Tracks(ds[k], name, LedgerOf(es[..k], cuts[..k], name), k)
    decreases k
  {
    hide Tracks, Step, Post, Keys;
    if k == 0 {
      Untouched(ds[0], name);
    } else {
      RunTracks(ds, es, cuts, names, name, k - 1);
      assert es[..k][..k - 1] == es[..k - 1] && cuts[..k][..k - 1] == cuts[..k - 1];
      var l := LedgerOf(es[..k - 1], cuts[..k - 1], name);
      if es[k - 1].name == name {
        OwnStep(ds[k - 1], es[k - 1], cuts[k - 1], l, k - 1);
      } else {
        OtherStep(ds[k - 1], es[k - 1], cuts[k - 1], name, l, k - 1);
      }
    }
  }

  lemma Untouched(d: Daemon, name: string)
    requires d.logs == map[] && Keys(name) !! d.kv.Keys
    ensures Tracks(d, name, BLANK, 0)
  {
    assert name in Keys(name) && EpochKey(name) in Keys(name) && CounterKey(name) in Keys(name);
  }

  /** Rows the consumer of a log lacks, and rows it has that are not stored. */
  function Owed(l: Ledger): multiset<Row> {
    l.rows.GetOr(multiset{}) - l.replay
  }

  function Extra(l: Ledger): multiset<Row> {
    l.replay - l.rows.GetOr(multiset{})
  }

  predicate Exact(l: Ledger) {
    l.rows.GetOr(multiset{}) == l.replay
  }

  /** The differential log under crashes. At every point of every run, wherever its
      executions are cut, the database holds the rows the ledger says, and the log
      replays to exactly those rows if and only if the ledger owes nothing and has
      nothing extra. */
  lemma CrashedLogReplays(ds: seq<Daemon>, es: seq<Execution>, cuts: seq<Cut>, names: set<string>,
                          name: string, k: nat)
    requires Behaviour(ds, es, cuts, names) && name in names && k < |ds|
    ensures var l := LedgerOf(es[..k], cuts[..k], name);
            && HoldsRows(ds[k].kv, name, l.rows)
            && Replay(LogOf(ds[k], name)) == l.replay
            && (Replay(LogOf(ds[k], name)) == l.rows.GetOr(multiset{}) <==>
                Owed(l) == multiset{} && Extra(l) == multiset{})
  {
    hide Step, LedgerOf, LogOf, Replay, HoldsRows, HoldsText;
    RunTracks(ds, es, cuts, names, name, k);
    var l := LedgerOf(es[..k], cuts[..k], name);
    SameMultisets(l.rows.GetOr(multiset{}), l.replay);
  }

  // ------------------------------------------- exactly when it stays exact

  /** An exact log stays exact exactly when the execution gets no further than the
      status checks, stores the rows that were there, or runs to its end; and in
      the last case, unless it is full, a counter must have been stored and it
      must report its removals or have none. Where no counter is stored the item
      counts as full and must be one. */
  lemma StaysExactIff(l: Ledger, e: Execution, cut: Cut)
    requires Exact(l)
    ensures var now := multiset(e.rows);
            Exact(Post(l, e, cut)) <==>
            || cut.AfterStatus? || now == l.replay
            || (cut.Completed? &&
                (Full(l, e) || if l.counter.None? then now !! l.replay else e.reportRemoved || l.replay <= now))
  {
    hide Replayed, Full;
    var now := multiset(e.rows);
    if !Unchanged(l, e) {
      PostShape(l, e, cut);
      if cut.Completed? {
        ReplayedExactIff(l, e);
      }
    }
  }

  lemma ReplayedExactIff(l: Ledger, e: Execution)
    requires Exact(l) && !Unchanged(l, e)
    ensures var now := multiset(e.rows);
            Replayed(l, e) == now <==>
            || now == l.replay || Full(l, e)
            || (if l.counter.None? then now !! l.replay else e.reportRemoved || l.replay <= now)
  {
    var now, before := multiset(e.rows), l.replay;
    if !Full(l, e) {
      if l.counter.None? {
        DisjointIff(before, now);
      } else if e.reportRemoved {
        PatchRestores(before, now, multiset{});
        assert before + multiset{} == before && now + multiset{} == now;
      } else {
        UnreportedIff(before, now);
      }
    }
  }

  lemma DisjointIff(before: multiset<Row>, now: multiset<Row>)
    ensures now - before == now <==> now !! before
  {
    if now - before == now {
      forall x ensures !(x in now && x in before) {
        assert (now - before)[x] == now[x];
      }
    }
  }

  lemma UnreportedIff(before: multiset<Row>, now: multiset<Row>)
    ensures before - multiset{} + (now - before) == now <==> before <= now
  {
    if before - multiset{} + (now - before) == now {
      forall x ensures before[x] <= now[x] {
        assert (before - multiset{} + (now - before))[x] == now[x];
      }
    }
  }

  // -------------------------------------------------- how a loss is made good

  /** A full result makes good whatever was lost. */
  lemma FullSettles(l: Ledger, e: Execution)
    requires Full(l, e)
    ensures Exact(Post(l, e, Completed))
  {
  }

  /** A reported difference takes away nothing extra, and a row the log has missed
      stays missed exactly while it stays among the rows. */
  lemma DifferenceKeepsLoss(l: Ledger, e: Execution)
    requires !Full(l, e) && l.counter.Some? && e.reportRemoved
    ensures var p := Post(l, e, Completed);
            Extra(p) == Extra(l) && Owed(p) == Owed(l) * multiset(e.rows)
  {
    hide Full;
    var now, before := multiset(e.rows), l.rows.GetOr(multiset{});
    if Unchanged(l, e) {
      OwedWithin(before, l.replay);
    } else {
      PostShape(l, e, Completed);
      ReplayedIs(l, e);
      PatchedDiscrepancy(l.replay, before, now);
    }
  }

  lemma ReplayedIs(l: Ledger, e: Execution)
    requires !Full(l, e) && l.counter.Some? && e.reportRemoved
    ensures var now, before := multiset(e.rows), l.rows.GetOr(multiset{});
            Replayed(l, e) == l.replay - (before - now) + (now - before)
  {
  }

  lemma OwedWithin(before: multiset<Row>, replay: multiset<Row>)
    ensures (before - replay) * before == before - replay
  {
  }

  lemma PatchedDiscrepancy(replay: multiset<Row>, before: multiset<Row>, now: multiset<Row>)
    ensures var r := replay - (before - now) + (now - before);
            r - now == replay - before && now - r == (before - replay) * now
  {
    var r := replay - (before - now) + (now - before);
    forall x ensures (r - now)[x] == (replay - before)[x] && (now - r)[x] == ((before - replay) * now)[x] {
      PatchedCount(replay, before, now, x);
    }
  }

  lemma PatchedCount(replay: multiset<Row>, before: multiset<Row>, now: multiset<Row>, x: Row)
    ensures var r := replay - (before - now) + (now - before);
            (r - now)[x] == (replay - before)[x] && (now - r)[x] == ((before - replay) * now)[x]
  {
  }

  /** So within an epoch the log is exact again exactly when it has nothing extra
      and none of the missed rows is left. */
  lemma RecoversIff(l: Ledger, e: Execution)
    requires !Full(l, e) && l.counter.Some? && e.reportRemoved
    ensures Exact(Post(l, e, Completed)) <==> Extra(l) == multiset{} && Owed(l) * multiset(e.rows) == multiset{}
  {
    hide Post, Full;
    DifferenceKeepsLoss(l, e);
    var p := Post(l, e, Completed);
    SameMultisets(p.rows.GetOr(multiset{}), p.replay);
  }

  // ------------------------------------------------------ what counters show

  /** A lost difference leaves a gap in the counters exactly when its counter was
      written before the process died. */
  lemma LossLeavesGap(l: Ledger, e: Execution, cut: Cut)
    requires !Full(l, e) && !Unchanged(l, e) && !cut.Completed?
    ensures Next(Post(l, e, cut)) == Next(l) + if cut.AfterCounter? then 1 else 0
  {
  }

  /** A lost full result is stored in full by the next execution of the epoch
      exactly when the process died before its epoch, or an equal one, was stored.
      Otherwise the next item is a difference, numbered 1 if the counter was
      written and as if nothing had happened if not. */
  lemma FullLossThenNext(l: Ledger, e: Execution, cut: Cut, e': Execution)
    requires Full(l, e) && !cut.Completed? && e'.epoch == e.epoch
    ensures var p := Post(l, e, cut);
            && (Full(p, e') <==> cut.AfterStatus? || (cut.AfterResults? && l.epoch.GetOr(0) != e.epoch))
            && Next(p) == if cut.AfterCounter? then 1 else Next(l)
  {
    hide Replayed;
  }

  /** An item with counter 0 is a full result, except that it is a difference where
      rows are stored under the epoch and no counter is. */
  lemma ZeroCounterIff(kv: Domain, e: Execution, l: Ledger)
    requires Kept(kv, e.name, l) && Next(l) < TWO64
    ensures var u := AddNewResults(kv, e);
            && u.Some?
            && (u.value.counter == Some(0) <==> Full(l, e) || (!Unchanged(l, e) && l.counter.None?))
            && (u.value.counter == Some(0) && !Full(l, e) ==>
                u.value.added == multiset(e.rows) - l.rows.value)
  {
    hide Kept, AddNewResults;
    var u, kv' := UpdateIs(kv, e, l);
  }

  ghost predicate PartialZero(log: seq<Item>, a: Row, b: Row) {
    log == [Item(0, 0, multiset{b}, multiset{})] && Replay(log) != multiset{a, b}
  }

  /** Such a run: the first execution of a name in epoch 0 dies after its results
      are written, and the next, with one more row, logs only that row, under
      counter 0. */
  lemma CutFirstExecution(name: string, sql: string, a: Row, b: Row)
    requires a != b
    ensures exists ds: seq<Daemon>, es: seq<Execution>, cuts: seq<Cut> ::
              && Behaviour(ds, es, cuts, {name}) && PartialZero(LogOf(ds[|es|], name), a, b)
              && HoldsRows(ds[|es|].kv, name, Some(multiset{a, b}))
  {
    hide Step, LogOf, HoldsRows, Keys, PartialZero;
    var e1, e2 := Execution(name, sql, 0, [a], true), Execution(name, sql, 0, [a, b], true);
    var d0 := Daemon(map[], map[]);
    var d1 := Step(d0, e1, AfterResults);
    var ds := [d0, d1, Step(d1, e2, Completed)];
    var es, cuts := [e1, e2], [AfterResults, Completed];
    assert Behaviour(ds, es, cuts, {name});
    CutFirstSteps(d0, d1, ds[2], e1, e2, a, b);
  }

  lemma CutFirstSteps(d0: Daemon, d1: Daemon, d2: Daemon, e1: Execution, e2: Execution, a: Row, b: Row)
    requires a != b && e1.rows == [a] && e2.rows == [a, b] && e1.name == e2.name && e1.epoch == 0 && e2.epoch == 0
    requires d0 == Daemon(map[], map[]) && d1 == Step(d0, e1, AfterResults) && d2 == Step(d1, e2, Completed)
    ensures PartialZero(LogOf(d2, e1.name), a, b) && HoldsRows(d2.kv, e1.name, Some(multiset{a, b}))
  {
    hide Kept, AddNewResults, Written, Emitted, Keys;
    var l1 := Ledger(Some(multiset{a}), None, None, multiset{});
    assert Keys(e1.name) !! d0.kv.Keys;
    Untouched(d0, e1.name);
    WrittenKept(d0.kv, e1, AfterResults, BLANK);
    assert Post(BLANK, e1, AfterResults) == l1;
    var u1, kv1 := UpdateIs(d0.kv, e1, BLANK);
    assert d1 == Daemon(Written(d0.kv, e1, AfterResults), map[]);
    TwoRowsDiffer(a, b);
    assert !Full(l1, e2) && !Unchanged(l1, e2);
    var u2, kv2 := UpdateIs(d1.kv, e2, l1);
    ZeroEmitted(u2, e2);
    WrittenKept(d1.kv, e2, Completed, l1);
    KeptRows(d2.kv, e1.name, Post(l1, e2, Completed));
    PartialZeroIs(LogOf(d2, e1.name), a, b);
  }

  lemma TwoRowsDiffer(a: Row, b: Row)
    requires a != b
    ensures multiset([a, b]) == multiset{a, b} && multiset{a} != multiset{a, b}
    ensures multiset{a, b} - multiset{a} == multiset{b} && multiset{b} != multiset{a, b}
  {
    assert multiset{a, b}[b] == 1 && multiset{a}[b] == 0 && multiset{a, b}[a] == 1 && multiset{b}[a] == 0;
  }

  lemma ZeroEmitted(u: Update, e: Execution)
    requires u.counter == Some(0)
    ensures Emitted(u, e) == Some(Item(e.epoch, 0, u.added, if e.reportRemoved then u.removed else multiset{}))
  {
  }

  lemma KeptRows(kv: Domain, name: string, l: Ledger)
    requires Kept(kv, name, l)
    ensures HoldsRows(kv, name, l.rows)
  {
  }

  lemma PartialZeroIs(log: seq<Item>, a: Row, b: Row)
    requires log == [Item(0, 0, multiset{b}, multiset{})] && a != b
    ensures PartialZero(log, a, b)
  {
    TwoRowsDiffer(a, b);
  }
}

/** The differential log of scheduled queries: what `Query` keeps in the
    `queries` domain of the database and what `launchQuery` emits. */
module QueryLog {
  import opened Basics
  import opened Text

  type Row = string
  datatype Value = Results(rows: seq<Row>) | Content(text: string)
  type Domain = map<string, Value>

  /** A logged item; rows as multisets, their order carries no meaning. */
  datatype Item = Item(epoch: nat, counter: nat, added: multiset<Row>, removed: multiset<Row>)

  /** One execution of a scheduled query. */
  datatype Execution = Execution(name: string, sql: string, epoch: nat, rows: seq<Row>, reportRemoved: bool)

  function EpochKey(name: string): string { name + "epoch" }
  function CounterKey(name: string): string { name + "counter" }
  function SqlKey(name: string): string { "query." + name }

  function Keys(name: string): set<string> {
    {name, EpochKey(name), CounterKey(name), SqlKey(name)}
  }

  /** A name's own four keys never collide: their lengths differ. */
  lemma OwnKeysDistinct(name: string)
    ensures |{name, EpochKey(name), CounterKey(name), SqlKey(name)}| == 4
    ensures name != EpochKey(name) && name != CounterKey(name) && name != SqlKey(name)
    ensures EpochKey(name) != CounterKey(name) && EpochKey(name) != SqlKey(name) && CounterKey(name) != SqlKey(name)
  {
    assert |EpochKey(name)| == |name| + 5 && |CounterKey(name)| == |name| + 7 && |SqlKey(name)| == |name| + 6;
    assert {name, EpochKey(name), CounterKey(name), SqlKey(name)} ==
           {name} + {EpochKey(name)} + {CounterKey(name)} + {SqlKey(name)};
  }

  // -------------------------------------------------------------- database

  /** `getPreviousEpoch`: 0 when absent, None when the text does not parse and
      `stoull` throws. */
  function PreviousEpoch(kv: Domain, name: string): Option<nat> {
    if EpochKey(name) !in kv then Some(0)
    else if kv[EpochKey(name)].Content? then TryToUint64(kv[EpochKey(name)].text) else None
  }

  /** `getQueryCounter` for a differential; the sum wraps at 64 bits. */
  function NextCounter(kv: Domain, name: string): Option<nat> {
    if CounterKey(name) !in kv then Some(0)
    else if kv[CounterKey(name)].Content? then
      var c := TryToUint64(kv[CounterKey(name)].text);
      if c.Some? then Some((c.value + 1) % TWO64) else None
    else None
  }

  function SqlOf(kv: Domain, name: string): string {
    if SqlKey(name) in kv && kv[SqlKey(name)].Content? then kv[SqlKey(name)].text else ""
  }

  datatype QueryStatus = QueryStatus(newEpoch: bool, newSql: bool, kv: Domain)

  /** `getQueryStatus`; None where reading the epoch throws. */
  function StatusOf(kv: Domain, e: Execution): Option<QueryStatus> {
    var saved := kv[SqlKey(e.name) := Content(e.sql)];
    if e.name !in kv then Some(QueryStatus(true, true, saved))
    else
      var epoch := PreviousEpoch(kv, e.name);
      if epoch.None? then None
      else if epoch.value != e.epoch then Some(QueryStatus(true, false, kv))
      else if SqlOf(kv, e.name) != e.sql then Some(QueryStatus(false, true, saved))
      else Some(QueryStatus(false, false, kv))
  }

  function Save(kv: Domain, e: Execution, counter: nat): Domain {
    kv[e.name := Results(e.rows)][EpochKey(e.name) := Content(ToString(e.epoch))]
      [CounterKey(e.name) := Content(ToString(counter))]
  }

  /** How far an execution gets before its process dies: past the status checks,
      which may store the SQL text; past each of its three further writes; or to
      its end, where the item has been logged. */
  datatype Cut = AfterStatus | AfterResults | AfterEpoch | AfterCounter | Completed

  /** The writes of an execution up to where it is cut. */
  function SaveUpTo(kv: Domain, e: Execution, counter: nat, cut: Cut): Domain {
    match cut
    case AfterStatus => kv
    case AfterResults => kv[e.name := Results(e.rows)]
    case AfterEpoch => kv[e.name := Results(e.rows)][EpochKey(e.name) := Content(ToString(e.epoch))]
    case _ => Save(kv, e, counter)
  }

  /** What `addNewResults` stores and the difference it computes; None when a
      read fails. The counter is None when it is left as the caller set it. */
  datatype Update = Update(kv: Domain, counter: Option<nat>, added: multiset<Row>, removed: multiset<Row>)

  function AddNewResults(kv: Domain, e: Execution): Option<Update> {
    var st := StatusOf(kv, e);
    if st.None? then None
    else if st.value.newEpoch then Some(Update(Save(st.value.kv, e, 0), Some(0), multiset(e.rows), multiset{}))
    else DifferenceFrom(st.value.kv, e)
  }

  /** The same past the status checks, within an epoch. */
  function DifferenceFrom(kv: Domain, e: Execution): Option<Update> {
    if e.name !in kv || kv[e.name].Content? then None
    else
      var now, before := multiset(e.rows), multiset(kv[e.name].rows);
      var counter := NextCounter(kv, e.name);
      if now == before then Some(Update(kv, None, multiset{}, multiset{}))
      else if counter.None? then None
      else Some(Update(Save(kv, e, counter.value), counter, now - before, before - now))
  }

  /** The database an execution leaves where it is cut. */
  function Written(kv: Domain, e: Execution, cut: Cut): Domain {
    var st, u := StatusOf(kv, e), AddNewResults(kv, e);
    if u.None? then kv
    else if u.value.counter.None? then st.value.kv
    else SaveUpTo(st.value.kv, e, u.value.counter.value, cut)
  }

  /** `launchQuery` for a differential query: the item it logs, if any. The
      counter it starts from is 1, and a full result is logged even if empty. */
  function Emitted(u: Update, e: Execution): Option<Item> {
    var removed := if e.reportRemoved then u.removed else multiset{};
    var counter := u.counter.GetOr(1);
    if u.added == multiset{} && removed == multiset{} && counter != 0 then None
    else Some(Item(e.epoch, counter, u.added, removed))
  }

  // --------------------------------------------------------------- the code

  /** `diff`: match current rows against the previous ones, one by one. */
  method Diff(previous: multiset<Row>, current: seq<Row>) returns (added: seq<Row>, removed: seq<Row>)
    ensures multiset(added) == multiset(current) - previous
    ensures multiset(removed) == previous - multiset(current)
  {
    added := [];
    var rest := previous;
    var i := 0;
    while i < |current|
      invariant i <= |current|
      invariant multiset(added) == multiset(current[..i]) - previous
      invariant rest == previous - multiset(current[..i])
    {
      assert multiset(current[..i + 1]) == multiset(current[..i]) + multiset{current[i]} by {
        assert current[..i + 1] == current[..i] + [current[i]];
      }
      DiffOne(multiset(current[..i]), previous, current[i]);
      if current[i] in rest {
        rest := rest - multiset{current[i]};
      } else {
        added := added + [current[i]];
      }
      i := i + 1;
    }
    assert current[..|current|] == current;
    removed := Drain(rest);
  }

  lemma DiffOne(seen: multiset<Row>, previous: multiset<Row>, x: Row)
    ensures if x in previous - seen
            then && seen + multiset{x} - previous == seen - previous
                 && previous - (seen + multiset{x}) == previous - seen - multiset{x}
            else && seen + multiset{x} - previous == seen - previous + multiset{x}
                 && previous - (seen + multiset{x}) == previous - seen
  {
  }

  /** The rows left over, in whatever order the multiset yields them. */
  method Drain(rows: multiset<Row>) returns (all: seq<Row>)
    ensures multiset(all) == rows
  {
    all := [];
    var rest := rows;
    while rest != multiset{}
      invariant multiset(all) + rest == rows
      decreases |rest|
    {
      var r :| r in rest;
      all := all + [r];
      rest := rest - multiset{r};
    }
  }

  class Queries {
    var kv: Domain

    method GetQueryStatus(e: Execution) returns (st: Option<(bool, bool)>)
      modifies this
      ensures var spec := StatusOf(old(kv), e);
              if spec.None? then st.None? && kv == old(kv)
              else st == Some((spec.value.newEpoch, spec.value.newSql)) && kv == spec.value.kv
    {
      if e.name !in kv {
        kv := kv[SqlKey(e.name) := Content(e.sql)];
        return Some((true, true));
      }
      var epoch := PreviousEpoch(kv, e.name);
      if epoch.None? {
        return None;
      }
      if epoch.value != e.epoch {
        return Some((true, false));
      }
      if SqlOf(kv, e.name) != e.sql {
        kv := kv[SqlKey(e.name) := Content(e.sql)];
        return Some((false, true));
      }
      return Some((false, false));
    }

    /** Results, then epoch, then counter, each a write of its own. */
    method SaveResults(e: Execution, counter: nat, cut: Cut)
      modifies this
      ensures kv == SaveUpTo(old(kv), e, counter, cut)
    {
      if cut.AfterStatus? {
        return;
      }
      kv := kv[e.name := Results(e.rows)];
      if cut.AfterResults? {
        return;
      }
      kv := kv[EpochKey(e.name) := Content(ToString(e.epoch))];
      if cut.AfterEpoch? {
        return;
      }
      kv := kv[CounterKey(e.name) := Content(ToString(counter))];
    }

    /** `addNewResults` with serialisation and writes that succeed. */
    method AddResults(e: Execution, counterIn: nat, cut: Cut)
      returns (ok: bool, counter: nat, added: seq<Row>, removed: seq<Row>)
      modifies this
      ensures var u := AddNewResults(old(kv), e);
              && (ok <==> u.Some?)
              && (ok ==> && kv == Written(old(kv), e, cut) && counter == u.value.counter.GetOr(counterIn)
                         && multiset(added) == u.value.added && multiset(removed) == u.value.removed)
              && (!ok ==> counter == counterIn && added == [] && removed == [])
    {
      hide SaveUpTo, Save, StatusOf, DifferenceFrom;
      var st := GetQueryStatus(e);
      if st.None? {
        return false, counterIn, [], [];
      }
      var newEpoch := st.value.0;
      if newEpoch {
        SaveResults(e, 0, cut);
        return true, 0, e.rows, [];
      }
      ok, counter, added, removed := AddDifference(e, counterIn, cut);
    }

    /** The part of `addNewResults` within an epoch. */
    method AddDifference(e: Execution, counterIn: nat, cut: Cut)
      returns (ok: bool, counter: nat, added: seq<Row>, removed: seq<Row>)
      modifies this
      ensures var u := DifferenceFrom(old(kv), e);
              && (ok <==> u.Some?)
              && (ok ==> && counter == u.value.counter.GetOr(counterIn)
                         && kv == (if u.value.counter.None? then old(kv)
                                   else SaveUpTo(old(kv), e, u.value.counter.value, cut))
                         && multiset(added) == u.value.added && multiset(removed) == u.value.removed)
              && (!ok ==> counter == counterIn && added == [] && removed == [])
    {
      hide SaveUpTo, Save, NextCounter;
      ok, counter, added, removed := true, counterIn, [], [];
      if e.name !in kv || kv[e.name].Content? {
        return false, counterIn, [], [];
      }
      var before := multiset(kv[e.name].rows);
      var plus, minus := Diff(before, e.rows);
      SameMultisets(before, multiset(e.rows));
      if plus == [] && minus == [] {
        return;
      }
      EmptyMultiset(plus);
      EmptyMultiset(minus);
      var next := NextCounter(kv, e.name);
      if next.None? {
        return false, counterIn, [], [];
      }
      counter, added, removed := next.value, plus, minus;
      SaveResults(e, next.value, cut);
    }

    /** `launchQuery` from the results on; a failed update logs nothing, and so does
        a process that dies before its end. */
    method Launch(e: Execution, cut: Cut) returns (item: Option<Item>)
      modifies this
      ensures var u := AddNewResults(old(kv), e);
              && (u.Some? ==> kv == Written(old(kv), e, cut))
              && (u.Some? && cut.Completed? ==> kv == u.value.kv && item == Emitted(u.value, e))
              && (u.None? || !cut.Completed? ==> item == None)
    {
      CompletedWrites(kv, e);
      hide AddNewResults, Written;
      var ok, counter, added, removed := AddResults(e, 1, cut);
      if !cut.Completed? {
        return None;
      }
      if !e.reportRemoved {
        removed := [];
      }
      EmptyMultiset(added);
      EmptyMultiset(removed);
      if added == [] && removed == [] && counter != 0 {
        return None;
      }
      item := Some(Item(e.epoch, counter, multiset(added), multiset(removed)));
    }
  }

  /** An execution that runs to its end has written all it computed. */
  lemma CompletedWrites(kv: Domain, e: Execution)
    ensures AddNewResults(kv, e).Some? ==> Written(kv, e, Completed) == AddNewResults(kv, e).value.kv
  {
    hide StatusOf, Save, NextCounter;
  }

  lemma EmptyMultiset(s: seq<Row>)
    ensures s == [] <==> multiset(s) == multiset{}
  {
    if s != [] {
      assert s[0] in multiset(s);
    }
  }

  lemma SameMultisets(a: multiset<Row>, b: multiset<Row>)
    ensures a == b <==> a - b == multiset{} && b - a == multiset{}
  {
    if a - b == multiset{} && b - a == multiset{} {
      forall x ensures a[x] == b[x] {
        assert (a - b)[x] == 0 && (b - a)[x] == 0;
      }
    }
  }

  // ------------------------------------------------------------------ runs

  /** A consumer's view: a counter-0 item replaces the state, any other patches it. */
  function Replay(log: seq<Item>): multiset<Row> {
    if log == [] then multiset{}
    else
      var item := log[|log| - 1];
      if item.counter == 0 then item.added
      else Replay(log[..|log| - 1]) - item.removed + item.added
  }

  /** Counter 0 exactly on the first item and on a change of epoch, where the
      item carries no removals; otherwise one more than the item before, plus the
      counters used up in between. */
  ghost predicate Counted(log: seq<Item>, gaps: seq<nat>) {
    && |gaps| == |log|
    && forall i | 0 <= i < |log| ::
         if i == 0 || log[i].epoch != log[i - 1].epoch
         then log[i].counter == 0 && log[i].removed == multiset{}
         else log[i].counter == log[i - 1].counter + 1 + gaps[i]
  }

  /** Counters without a gap. */
  ghost predicate WellCounted(log: seq<Item>) {
    forall i | 0 <= i < |log| ::
      if i == 0 || log[i].epoch != log[i - 1].epoch
      then log[i].counter == 0 && log[i].removed == multiset{}
      else log[i].counter == log[i - 1].counter + 1
  }

  datatype Daemon = Daemon(kv: Domain, logs: map<string, seq<Item>>)

  function LogOf(d: Daemon, name: string): seq<Item> {
    if name in d.logs then d.logs[name] else []
  }

  function Step(d: Daemon, e: Execution): Daemon {
    var u := AddNewResults(d.kv, e);
    if u.None? then d
    else
      var item := Emitted(u.value, e);
      Daemon(u.value.kv, if item.None? then d.logs else d.logs[e.name := LogOf(d, e.name) + [item.value]])
  }

  /** The rows of the latest execution of a name. */
  function Latest(es: seq<Execution>, name: string): Option<multiset<Row>> {
    if es == [] then None
    else if es[|es| - 1].name == name then Some(multiset(es[|es| - 1].rows))
    else Latest(es[..|es| - 1], name)
  }

  /** What the executions of one name amount to, database and log apart: the
      latest rows, the epoch, how often they have changed within it, the rows
      whose removal was not reported since the epoch began, the changes since the
      last logged item that logged nothing, and for each logged item how many such
      changes came right before it. */
  datatype Account = Account(rows: multiset<Row>, epoch: nat, counter: nat,
                             hidden: multiset<Row>, silent: nat, gaps: seq<nat>)

  /** An execution that changes the rows but logs nothing: it only removes rows
      and does not report them. */
  predicate Silent(before: multiset<Row>, e: Execution) {
    !e.reportRemoved && multiset(e.rows) < before
  }

  function Charge(a: Option<Account>, e: Execution): Account {
    var now := multiset(e.rows);
    if a.None? then Account(now, e.epoch, 0, multiset{}, 0, [0])
    else
      var b := a.value;
      if b.epoch != e.epoch then Account(now, e.epoch, 0, multiset{}, 0, b.gaps + [0])
      else if now == b.rows then b
      else
        var hidden := if e.reportRemoved then b.hidden else b.hidden + (b.rows - now);
        if Silent(b.rows, e) then Account(now, b.epoch, b.counter + 1, hidden, b.silent + 1, b.gaps)
        else Account(now, b.epoch, b.counter + 1, hidden, 0, b.gaps + [b.silent])
  }

  function AccountOf(es: seq<Execution>, name: string): Option<Account> {
    if es == [] then None
    else
      var a, e := AccountOf(es[..|es| - 1], name), es[|es| - 1];
      if e.name == name then Some(Charge(a, e)) else a
  }

  lemma {:induction false} AccountRows(es: seq<Execution>, name: string)
    ensures Latest(es, name) == if AccountOf(es, name).None? then None else Some(AccountOf(es, name).value.rows)
  {
    if es != [] {
      AccountRows(es[..|es| - 1], name);
    }
  }

  ghost predicate Reports(es: seq<Execution>, name: string) {
    forall i | 0 <= i < |es| && es[i].name == name :: es[i].reportRemoved
  }

  /** Nothing is hidden and no counter skipped where removals are reported. */
  lemma {:induction false} ReportsAll(es: seq<Execution>, name: string)
    requires Reports(es, name) && AccountOf(es, name).Some?
    ensures var a := AccountOf(es, name).value;
            a.hidden == multiset{} && a.silent == 0 && forall i | 0 <= i < |a.gaps| :: a.gaps[i] == 0
  {
    var init := es[..|es| - 1];
    if AccountOf(init, name).Some? {
      ReportsAll(init, name);
    }
  }

  /** Query names whose derived keys do not collide. */
  ghost predicate Apart(names: set<string>) {
    forall p, q | p in names && q in names && p != q :: Keys(p) !! Keys(q)
  }

  /** A run of executions and the daemons it passes through, over a database
      that holds no results of these names at first. */
  ghost predicate Behaviour(ds: seq<Daemon>, es: seq<Execution>, names: set<string>) {
    && Apart(names) && |es| < TWO64
    && (forall k | 0 <= k < |es| :: es[k].name in names && es[k].epoch < TWO64)
    && |ds| == |es| + 1 && ds[0].logs == map[] && (forall p | p in names :: p !in ds[0].kv)
    && (forall k | 0 <= k < |es| :: ds[k + 1] == Step(ds[k], es[k]))
  }

  /** What the database holds of a name. */
  ghost predicate Stored(kv: Domain, name: string, rows: multiset<Row>, epoch: nat, counter: nat) {
    && name in kv && kv[name].Results? && multiset(kv[name].rows) == rows
    && epoch < TWO64 && EpochKey(name) in kv && kv[EpochKey(name)] == Content(ToString(epoch))
    && counter < TWO64 && CounterKey(name) in kv && kv[CounterKey(name)] == Content(ToString(counter))
  }

  /** A log against the account of the executions behind it. */
  ghost predicate Tallies(log: seq<Item>, a: Account) {
    && log != [] && Counted(log, a.gaps)
    && log[|log| - 1].epoch == a.epoch && log[|log| - 1].counter + a.silent == a.counter
    && Replay(log) == a.rows + a.hidden
  }

  ghost predicate Tracks(kv: Domain, log: seq<Item>, name: string, a: Option<Account>, n: nat) {
    if a.None? then name !in kv && log == []
    else Stored(kv, name, a.value.rows, a.value.epoch, a.value.counter) && a.value.counter < n && Tallies(log, a.value)
  }

  lemma ReplaySnoc(log: seq<Item>, item: Item)
    ensures Replay(log + [item]) ==
            if item.counter == 0 then item.added else Replay(log) - item.removed + item.added
  {
    assert (log + [item])[..|log|] == log;
  }

  lemma PatchRestores(before: multiset<Row>, now: multiset<Row>, hidden: multiset<Row>)
    ensures before + hidden - (before - now) + (now - before) == now + hidden
  {
  }

  lemma PatchKeepsHidden(before: multiset<Row>, now: multiset<Row>, hidden: multiset<Row>)
    ensures before + hidden - multiset{} + (now - before) == now + (hidden + (before - now))
  {
  }

  lemma SilentPatch(before: multiset<Row>, now: multiset<Row>, hidden: multiset<Row>)
    requires now <= before
    ensures before + hidden == now + (hidden + (before - now))
  {
  }

  lemma CountedSnoc(log: seq<Item>, gaps: seq<nat>, item: Item, gap: nat)
    requires Counted(log, gaps)
    requires if log == [] || item.epoch != log[|log| - 1].epoch
             then item.counter == 0 && item.removed == multiset{}
             else item.counter == log[|log| - 1].counter + 1 + gap
    ensures Counted(log + [item], gaps + [gap])
  {
    var l, g := log + [item], gaps + [gap];
    assert forall i | 0 <= i < |log| :: l[i] == log[i] && g[i] == gaps[i];
  }

  // ---------------------------------------------------------- one execution

  /** What the reads of a stored name return. */
  lemma StoredReads(kv: Domain, name: string, rows: multiset<Row>, epoch: nat, counter: nat)
    requires Stored(kv, name, rows, epoch, counter)
    ensures PreviousEpoch(kv, name) == Some(epoch)
    ensures NextCounter(kv, name) == Some((counter + 1) % TWO64)
    ensures name in kv && kv[name].Results? && multiset(kv[name].rows) == rows && epoch < TWO64
  {
    hide ToString, ToIndex, TryToUint64, TryToLongLong, WholeUint64, EpochKey, CounterKey;
    NumbersReadBack(epoch);
    NumbersReadBack(counter);
  }

  lemma SavedIsStored(kv: Domain, e: Execution, counter: nat)
    requires e.epoch < TWO64 && counter < TWO64
    ensures Stored(Save(kv, e, counter), e.name, multiset(e.rows), e.epoch, counter)
  {
    hide EpochKey, CounterKey, SqlKey, ToString;
    OwnKeysDistinct(e.name);
  }

  /** The SQL text may change under the rest. */
  lemma SqlIsApart(kv: Domain, name: string, sql: string, rows: multiset<Row>, epoch: nat, counter: nat)
    requires Stored(kv, name, rows, epoch, counter)
    ensures Stored(kv[SqlKey(name) := Content(sql)], name, rows, epoch, counter)
  {
    hide ToString, EpochKey, CounterKey, SqlKey;
    OwnKeysDistinct(name);
  }

  /** What the status checks find, and the SQL text they leave: the text counts as
      new for a new name, and within an epoch where it differs; in a new epoch of a
      known name it is neither compared nor stored. */
  lemma SqlAfterStatus(kv: Domain, e: Execution)
    requires StatusOf(kv, e).Some?
    ensures var st, known := StatusOf(kv, e).value, e.name in kv;
            var sameEpoch := known && PreviousEpoch(kv, e.name) == Some(e.epoch);
            && (st.newEpoch <==> !sameEpoch)
            && (st.newSql <==> !known || (sameEpoch && SqlOf(kv, e.name) != e.sql))
            && SqlOf(st.kv, e.name) == (if known && !sameEpoch then SqlOf(kv, e.name) else e.sql)
  {
    hide PreviousEpoch, SqlKey;
  }

  /** The same for a whole execution, wherever it is cut. */
  lemma SqlAfter(kv: Domain, e: Execution, cut: Cut)
    requires AddNewResults(kv, e).Some?
    ensures var known := e.name in kv;
            var sameEpoch := known && PreviousEpoch(kv, e.name) == Some(e.epoch);
            SqlOf(Written(kv, e, cut), e.name) == if known && !sameEpoch then SqlOf(kv, e.name) else e.sql
  {
    hide PreviousEpoch, StatusOf, NextCounter, ToString, SqlKey, EpochKey, CounterKey, SqlOf;
    SqlAfterStatus(kv, e);
    SqlSurvivesSave(StatusOf(kv, e).value.kv, e, AddNewResults(kv, e).value.counter.GetOr(0), cut);
  }

  lemma SqlSurvivesSave(kv: Domain, e: Execution, counter: nat, cut: Cut)
    ensures SqlOf(SaveUpTo(kv, e, counter, cut), e.name) == SqlOf(kv, e.name)
  {
    hide ToString, SqlKey, EpochKey, CounterKey;
    OwnKeysDistinct(e.name);
  }

  /** When an execution fails: its name is known and the stored epoch cannot be read,
      or within an epoch the stored rows cannot, or they differ from the new ones and
      the counter cannot. */
  lemma FailsIff(kv: Domain, e: Execution)
    ensures AddNewResults(kv, e).None? <==>
            && e.name in kv
            && (PreviousEpoch(kv, e.name).None?
                || (PreviousEpoch(kv, e.name).value == e.epoch
                    && (kv[e.name].Content?
                        || (multiset(kv[e.name].rows) != multiset(e.rows) && NextCounter(kv, e.name).None?))))
  {
    hide PreviousEpoch, NextCounter, StatusOf, Save, SqlOf;
    StatusKeeps(kv, e);
    if StatusOf(kv, e).Some? {
      SqlAfterStatus(kv, e);
    }
  }

  lemma StatusKeeps(kv: Domain, e: Execution)
    ensures StatusOf(kv, e).None? <==> e.name in kv && PreviousEpoch(kv, e.name).None?
    ensures StatusOf(kv, e).Some? ==>
              var kv' := StatusOf(kv, e).value.kv;
              && (e.name in kv' <==> e.name in kv) && (e.name in kv ==> kv'[e.name] == kv[e.name])
              && NextCounter(kv', e.name) == NextCounter(kv, e.name)
  {
    hide PreviousEpoch, SqlOf, TryToUint64, SqlKey, CounterKey, EpochKey;
    OwnKeysDistinct(e.name);
  }

  /** The first execution of a name, and the first in an epoch. */
  lemma FullUpdate(kv: Domain, e: Execution) returns (u: Update)
    requires e.epoch < TWO64
    requires e.name !in kv || (PreviousEpoch(kv, e.name).Some? && PreviousEpoch(kv, e.name).value != e.epoch)
    ensures AddNewResults(kv, e) == Some(u) && u.counter == Some(0)
    ensures u.added == multiset(e.rows) && u.removed == multiset{}
    ensures Stored(u.kv, e.name, multiset(e.rows), e.epoch, 0)
    ensures Emitted(u, e) == Some(Item(e.epoch, 0, multiset(e.rows), multiset{}))
  {
    hide PreviousEpoch, NextCounter, SqlOf, Save, Stored, SqlKey;
    u := AddNewResults(kv, e).value;
    SavedIsStored(StatusOf(kv, e).value.kv, e, 0);
  }

  /** A further execution within an epoch. */
  lemma DiffUpdate(kv: Domain, e: Execution, before: multiset<Row>, c: nat) returns (u: Update)
    requires Stored(kv, e.name, before, e.epoch, c) && c + 1 < TWO64
    ensures AddNewResults(kv, e) == Some(u)
    ensures multiset(e.rows) == before ==>
              u == Update(u.kv, None, multiset{}, multiset{}) && Stored(u.kv, e.name, before, e.epoch, c)
    ensures multiset(e.rows) != before ==>
              && u == Update(u.kv, Some(c + 1), multiset(e.rows) - before, before - multiset(e.rows))
              && Stored(u.kv, e.name, multiset(e.rows), e.epoch, c + 1)
  {
    hide AddNewResults, StatusOf, NextCounter, Save, Stored;
    var kv' := SameEpochStatus(kv, e, before, c);
    StoredReads(kv', e.name, before, e.epoch, c);
    SavedIsStored(kv', e, c + 1);
    Differential(kv, e, kv', c + 1);
    u := AddNewResults(kv, e).value;
  }

  /** `addNewResults` past the status checks. */
  lemma Differential(kv: Domain, e: Execution, kv': Domain, counter: nat)
    requires StatusOf(kv, e).Some? && !StatusOf(kv, e).value.newEpoch && StatusOf(kv, e).value.kv == kv'
    requires e.name in kv' && kv'[e.name].Results? && NextCounter(kv', e.name) == Some(counter)
    ensures var now, before := multiset(e.rows), multiset(kv'[e.name].rows);
            AddNewResults(kv, e) ==
            Some(if now == before then Update(kv', None, multiset{}, multiset{})
                 else Update(Save(kv', e, counter), Some(counter), now - before, before - now))
  {
    hide StatusOf, NextCounter, Save;
  }

  lemma SameEpochStatus(kv: Domain, e: Execution, before: multiset<Row>, c: nat) returns (kv': Domain)
    requires Stored(kv, e.name, before, e.epoch, c)
    ensures StatusOf(kv, e).Some? && !StatusOf(kv, e).value.newEpoch && StatusOf(kv, e).value.kv == kv'
    ensures Stored(kv', e.name, before, e.epoch, c)
  {
    hide PreviousEpoch, SqlOf, SqlKey, EpochKey, CounterKey, ToString;
    StoredReads(kv, e.name, before, e.epoch, c);
    SqlIsApart(kv, e.name, e.sql, before, e.epoch, c);
    kv' := StatusOf(kv, e).value.kv;
  }

  /** Counters do not stay consecutive without removed rows: within an epoch an
      execution uses up a counter and logs nothing exactly when it does not report
      removals and only removes rows. */
  lemma CounterGap(kv: Domain, e: Execution, before: multiset<Row>, c: nat)
    requires Stored(kv, e.name, before, e.epoch, c) && c + 1 < TWO64
    ensures var u := AddNewResults(kv, e);
            && u.Some?
            && (u.value.counter.Some? && Emitted(u.value, e).None? <==> !e.reportRemoved && multiset(e.rows) < before)
  {
    hide AddNewResults, Emitted, Stored;
    var now := multiset(e.rows);
    var u := DiffUpdate(kv, e, before, c);
    OnlyRemoved(now, before);
    SameMultisets(before, now);
    EmittedNone(u, e);
  }

  lemma EmittedNone(u: Update, e: Execution)
    requires u.counter.GetOr(1) != 0
    ensures Emitted(u, e).None? <==> u.added == multiset{} && (!e.reportRemoved || u.removed == multiset{})
    ensures Emitted(u, e).Some? ==>
              Emitted(u, e).value ==
              Item(e.epoch, u.counter.GetOr(1), u.added, if e.reportRemoved then u.removed else multiset{})
  {
  }

  lemma OnlyRemoved(now: multiset<Row>, before: multiset<Row>)
    ensures now < before <==> now - before == multiset{} && before - now != multiset{}
  {
    SameMultisets(before, now);
    SubMultiset(now, before);
  }

  lemma SubMultiset(a: multiset<Row>, b: multiset<Row>)
    ensures a - b == multiset{} <==> a <= b
  {
    if a - b == multiset{} {
      forall x ensures a[x] <= b[x] {
        assert (a - b)[x] == 0;
      }
    }
  }

  /** A full item starts the account of an epoch. */
  lemma FullTallies(log: seq<Item>, a: Option<Account>, e: Execution)
    requires if a.None? then log == [] else Tallies(log, a.value) && a.value.epoch != e.epoch
    ensures Tallies(log + [Item(e.epoch, 0, multiset(e.rows), multiset{})], Charge(a, e))
  {
    hide Replay;
    var item := Item(e.epoch, 0, multiset(e.rows), multiset{});
    ReplaySnoc(log, item);
    CountedSnoc(log, if a.None? then [] else a.value.gaps, item, 0);
    assert [] + [0] == [0];
  }

  /** A logged item that patches the rows and the hidden ones together. */
  lemma ItemTallies(log: seq<Item>, a: Account, item: Item, a': Account)
    requires Tallies(log, a) && item.epoch == a.epoch && item.counter == a.counter + 1
    requires a.rows + a.hidden - item.removed + item.added == a'.rows + a'.hidden
    requires a'.epoch == a.epoch && a'.counter == item.counter && a'.silent == 0 && a'.gaps == a.gaps + [a.silent]
    ensures Tallies(log + [item], a')
  {
    hide Replay, Counted;
    ReplaySnoc(log, item);
    CountedSnoc(log, a.gaps, item, a.silent);
  }

  /** The account after rows have changed within an epoch. */
  lemma ChargeCases(a: Account, e: Execution)
    requires a.epoch == e.epoch && multiset(e.rows) != a.rows
    ensures var now, b := multiset(e.rows), Charge(Some(a), e);
            && b.rows == now && b.epoch == a.epoch && b.counter == a.counter + 1
            && b.hidden == (if e.reportRemoved then a.hidden else a.hidden + (a.rows - now))
            && b.silent == (if Silent(a.rows, e) then a.silent + 1 else 0)
            && b.gaps == (if Silent(a.rows, e) then a.gaps else a.gaps + [a.silent])
  {
  }

  lemma SilentTallies(log: seq<Item>, a: Account, e: Execution)
    requires Tallies(log, a) && a.epoch == e.epoch && Silent(a.rows, e)
    ensures Tallies(log, Charge(Some(a), e))
  {
    ChargeCases(a, e);
    hide Replay, Counted, Charge;
    SilentPatch(a.rows, multiset(e.rows), a.hidden);
  }

  function DiffItem(before: multiset<Row>, e: Execution, counter: nat): Item {
    var now := multiset(e.rows);
    Item(e.epoch, counter, now - before, if e.reportRemoved then before - now else multiset{})
  }

  lemma LoudTallies(log: seq<Item>, a: Account, e: Execution)
    requires Tallies(log, a) && a.epoch == e.epoch && multiset(e.rows) != a.rows && !Silent(a.rows, e)
    ensures Tallies(log + [DiffItem(a.rows, e, a.counter + 1)], Charge(Some(a), e))
  {
    ChargeCases(a, e);
    hide Tallies, Charge, Silent;
    var now := multiset(e.rows);
    if e.reportRemoved {
      PatchRestores(a.rows, now, a.hidden);
    } else {
      PatchKeepsHidden(a.rows, now, a.hidden);
    }
    ItemTallies(log, a, DiffItem(a.rows, e, a.counter + 1), Charge(Some(a), e));
  }

  /** What an execution within an epoch logs. */
  lemma DiffEmitted(u: Update, e: Execution, before: multiset<Row>, counter: nat)
    requires multiset(e.rows) != before && counter > 0
    requires u.counter == Some(counter)
    requires u.added == multiset(e.rows) - before && u.removed == before - multiset(e.rows)
    ensures Emitted(u, e) == if Silent(before, e) then None else Some(DiffItem(before, e, counter))
  {
    hide Emitted;
    EmittedNone(u, e);
    OnlyRemoved(multiset(e.rows), before);
    SameMultisets(before, multiset(e.rows));
  }

  /** An execution keeps database, log and account of its name in step. */
  lemma OwnStep(d: Daemon, e: Execution, a: Option<Account>, n: nat)
    requires Tracks(d.kv, LogOf(d, e.name), e.name, a, n) && e.epoch < TWO64 && n + 1 < TWO64
    ensures var d' := Step(d, e); Tracks(d'.kv, LogOf(d', e.name), e.name, Some(Charge(a, e)), n + 1)
  {
    hide AddNewResults, Emitted, Stored, Tallies, Silent;
    var log := LogOf(d, e.name);
    if a.None? || a.value.epoch != e.epoch {
      if a.Some? {
        StoredReads(d.kv, e.name, a.value.rows, a.value.epoch, a.value.counter);
      }
      var u := FullUpdate(d.kv, e);
      FullTallies(log, a, e);
    } else {
      OwnDiff(d, e, a.value, n);
    }
  }

  lemma OwnDiff(d: Daemon, e: Execution, a: Account, n: nat)
    requires Tracks(d.kv, LogOf(d, e.name), e.name, Some(a), n) && e.epoch == a.epoch && n + 1 < TWO64
    ensures var d' := Step(d, e); Tracks(d'.kv, LogOf(d', e.name), e.name, Some(Charge(Some(a), e)), n + 1)
  {
    hide AddNewResults, Emitted, Stored, Tallies, Silent, DiffItem;
    var log := LogOf(d, e.name);
    var u := DiffUpdate(d.kv, e, a.rows, a.counter);
    if multiset(e.rows) == a.rows {
      UnchangedEmitted(u, e);
    } else {
      ChargeCases(a, e);
      hide Charge;
      DiffEmitted(u, e, a.rows, a.counter + 1);
      if Silent(a.rows, e) {
        SilentTallies(log, a, e);
      } else {
        LoudTallies(log, a, e);
      }
    }
  }

  lemma UnchangedEmitted(u: Update, e: Execution)
    requires u.counter == None && u.added == multiset{} && u.removed == multiset{}
    ensures Emitted(u, e) == None
  {
  }

  /** An execution writes only under its own name's keys. */
  lemma WritesOwnKeys(kv: Domain, e: Execution, k: string)
    requires AddNewResults(kv, e).Some? && k !in Keys(e.name)
    ensures var kv' := AddNewResults(kv, e).value.kv; (k in kv <==> k in kv') && (k in kv ==> kv'[k] == kv[k])
  {
    hide EpochKey, CounterKey, SqlKey, NextCounter, PreviousEpoch, SqlOf, Save;
    var st := StatusOf(kv, e).value;
    assert (k in kv <==> k in st.kv) && (k in kv ==> st.kv[k] == kv[k]);
    SaveOwnKeys(st.kv, e, AddNewResults(kv, e).value.counter.GetOr(0), k);
  }

  lemma SaveOwnKeys(kv: Domain, e: Execution, counter: nat, k: string)
    requires k !in Keys(e.name)
    ensures var kv' := Save(kv, e, counter); (k in kv <==> k in kv') && (k in kv ==> kv'[k] == kv[k])
  {
    hide ToString, EpochKey, CounterKey, SqlKey;
  }

  lemma OtherStep(d: Daemon, e: Execution, name: string, a: Option<Account>, n: nat)
    requires Tracks(d.kv, LogOf(d, name), name, a, n) && name != e.name && Keys(name) !! Keys(e.name)
    ensures var d' := Step(d, e); Tracks(d'.kv, LogOf(d', name), name, a, n + 1)
  {
    hide ToString, EpochKey, CounterKey, SqlKey, AddNewResults, Emitted, Tallies;
    if AddNewResults(d.kv, e).Some? {
      assert name in Keys(name) && EpochKey(name) in Keys(name) && CounterKey(name) in Keys(name);
      WritesOwnKeys(d.kv, e, name);
      WritesOwnKeys(d.kv, e, EpochKey(name));
      WritesOwnKeys(d.kv, e, CounterKey(name));
    }
  }

  // --------------------------------------------------------------- all runs

  lemma {:induction false} RunTracks(ds: seq<Daemon>, es: seq<Execution>, names: set<string>, name: string, k: nat)
    requires Behaviour(ds, es, names) && name in names && k < |ds|
    ensures Tracks(ds[k].kv, LogOf(ds[k], name), name, AccountOf(es[..k], name), k)
    decreases k
  {
    hide Tracks, Step, Keys, LogOf, Charge;
    if k == 0 {
      Untouched(ds[0], name);
    } else {
      var d, e := ds[k - 1], es[k - 1];
      RunTracks(ds, es, names, name, k - 1);
      assert es[..k][..k - 1] == es[..k - 1];
      if e.name == name {
        OwnStep(d, e, AccountOf(es[..k - 1], name), k - 1);
      } else {
        OtherStep(d, e, name, AccountOf(es[..k - 1], name), k - 1);
      }
    }
  }

  lemma Untouched(d: Daemon, name: string)
    requires d.logs == map[] && name !in d.kv
    ensures Tracks(d.kv, LogOf(d, name), name, None, 0)
  {
  }

  /** The differential log. At every point of any interleaving of executions of
      non-colliding names, whatever each of them reports, the database holds the
      rows of a name's latest execution; replaying its log gives those rows and
      exactly the removals hidden since the epoch began; and the counters of
      consecutive items differ by one plus the number of silent executions
      between them. */
  lemma LogReplays(ds: seq<Daemon>, es: seq<Execution>, names: set<string>, name: string, k: nat)
    requires Behaviour(ds, es, names) && k < |ds| && name in names
    requires Latest(es[..k], name).Some?
    ensures AccountOf(es[..k], name).Some?
    ensures var log, rows, a := LogOf(ds[k], name), Latest(es[..k], name).value, AccountOf(es[..k], name).value;
            && name in ds[k].kv && ds[k].kv[name].Results? && multiset(ds[k].kv[name].rows) == rows
            && Replay(log) == rows + a.hidden
            && Counted(log, a.gaps)
  {
    hide Step, Replay, Counted, Latest, LogOf, AccountOf;
    RunTracks(ds, es, names, name, k);
    AccountRows(es[..k], name);
  }

  /** The log of a name replays to the rows of its latest execution, counting by
      one. */
  ghost predicate ReplaysExactly(d: Daemon, es: seq<Execution>, name: string) {
    var log := LogOf(d, name);
    Latest(es, name) == Some(Replay(log)) && WellCounted(log)
  }

  /** For a name whose executions all report removals, whatever the others do,
      replaying the log gives exactly the rows of the latest execution, and the
      counters count by one from 0 on the first item and on a new epoch. */
  lemma ReportedLogReplays(ds: seq<Daemon>, es: seq<Execution>, names: set<string>, name: string, k: nat)
    requires Behaviour(ds, es, names) && k < |ds| && name in names
    requires Latest(es[..k], name).Some? && Reports(es[..k], name)
    ensures ReplaysExactly(ds[k], es[..k], name)
  {
    hide Step, Replay, Latest, LogOf, AccountOf, Counted, WellCounted;
    LogReplays(ds, es, names, name, k);
    ReportsAll(es[..k], name);
    NoGaps(LogOf(ds[k], name), AccountOf(es[..k], name).value.gaps);
    assert Latest(es[..k], name).value + multiset{} == Latest(es[..k], name).value;
  }

  lemma NoGaps(log: seq<Item>, gaps: seq<nat>)
    requires Counted(log, gaps) && forall i | 0 <= i < |gaps| :: gaps[i] == 0
    ensures WellCounted(log)
  {
  }

  ghost predicate Skips(log: seq<Item>) {
    |log| == 2 && log[0].epoch == log[1].epoch && log[0].counter == 0 && log[1].counter == 2
  }

  /** A run that skips a counter: one row, then none without reporting it, then
      another row. The replay then still holds the row that is gone. */
  lemma SkippedCounter(name: string, sql: string, a: Row, b: Row)
    requires a != b
    ensures exists ds: seq<Daemon>, es: seq<Execution> ::
              && Behaviour(ds, es, {name}) && Skips(LogOf(ds[|es|], name))
              && Latest(es, name) == Some(multiset{b}) && Replay(LogOf(ds[|es|], name)) == multiset{a, b}
  {
    hide Step, AccountOf, Latest, LogOf, Replay, Stored;
    var es := [Execution(name, sql, 0, [a], false), Execution(name, sql, 0, [], false),
               Execution(name, sql, 0, [b], false)];
    var d0 := Daemon(map[], map[]);
    var d1 := Step(d0, es[0]);
    var d2 := Step(d1, es[1]);
    var ds := [d0, d1, d2, Step(d2, es[2])];
    assert Behaviour(ds, es, {name});
    RunTracks(ds, es, {name}, name, 3);
    assert es[..3] == es;
    SkippedAccount(es, name, a, b);
    SkippedTallies(LogOf(ds[3], name), a, b);
  }

  lemma SkippedTallies(log: seq<Item>, a: Row, b: Row)
    requires Tallies(log, Account(multiset{b}, 0, 2, multiset{a}, 0, [0, 1]))
    ensures Skips(log) && Replay(log) == multiset{a, b}
  {
    hide Replay;
    assert |log| == 2 && log[1].epoch == 0 && log[1].counter == 2;
  }

  lemma SkippedAccount(es: seq<Execution>, name: string, a: Row, b: Row)
    requires |es| == 3 && forall i | 0 <= i < 3 :: es[i].name == name && es[i].epoch == 0 && !es[i].reportRemoved
    requires a != b && es[0].rows == [a] && es[1].rows == [] && es[2].rows == [b]
    ensures AccountOf(es, name) == Some(Account(multiset{b}, 0, 2, multiset{a}, 0, [0, 1]))
    ensures Latest(es, name) == Some(multiset{b})
  {
    var a1 := Account(multiset{a}, 0, 0, multiset{}, 0, [0]);
    var a2 := Account(multiset{}, 0, 1, multiset{a}, 1, [0]);
    assert Charge(None, es[0]) == a1;
    ChargeGone(a1, es[1], a);
    ChargeAnother(a2, es[2], a, b);
    hide Charge;
    assert es[..2][..1] == es[..1] && es[..1][..0] == [];
    assert AccountOf(es[..1], name) == Some(a1);
    assert AccountOf(es[..2], name) == Some(a2);
  }

  lemma ChargeGone(a1: Account, e: Execution, a: Row)
    requires a1 == Account(multiset{a}, 0, 0, multiset{}, 0, [0]) && e.epoch == 0 && !e.reportRemoved && e.rows == []
    ensures Charge(Some(a1), e) == Account(multiset{}, 0, 1, multiset{a}, 1, [0])
  {
    assert multiset(e.rows) == multiset{} && multiset{} < multiset{a};
    ChargeCases(a1, e);
  }

  lemma ChargeAnother(a2: Account, e: Execution, a: Row, b: Row)
    requires a2 == Account(multiset{}, 0, 1, multiset{a}, 1, [0]) && e.epoch == 0 && !e.reportRemoved && e.rows == [b]
    ensures Charge(Some(a2), e) == Account(multiset{b}, 0, 2, multiset{a}, 0, [0, 1])
  {
    assert multiset(e.rows) == multiset{b} && b in multiset{b};
    ChargeCases(a2, e);
    assert !Silent(a2.rows, e);
  }
}

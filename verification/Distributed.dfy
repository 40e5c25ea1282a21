/** Distributed queries: pending requests, running marks and the result buffer. */
module Distributed {
  import opened Basics
  import opened Text

  datatype Result = Result(id: string, query: string, ok: bool, denied: bool, rows: string)

  /** How one execution goes: the clock when it is checked, and the SQL outcome. */
  datatype Turn = Turn(now: nat, ok: bool, rows: string)

  datatype Write = NoPlugin | SerializeFails | WriteFails | WriteOk

  /** The flag `distributed_denylist_duration` and the query hash. */
  datatype Settings = Settings(duration: nat, hash: string -> string)

  /** The two persisted domains and the in-memory result buffer. */
  datatype State = State(pending: map<string, string>, running: map<string, string>, results: seq<Result>)

  /** `denylistedQueryTimestampExpired`. */
  predicate TimestampExpired(c: Settings, text: string, now: nat) {
    now > (TryToUint64(text).GetOr(0) + c.duration) % TWO64
  }

  predicate Refused(c: Settings, running: map<string, string>, query: string, now: nat) {
    c.hash(query) in running && !TimestampExpired(c, running[c.hash(query)], now)
  }

  /** `checkAndSetAsRunning`: a mark that is present is never rewritten. */
  function MarkRunning(c: Settings, running: map<string, string>, query: string, now: nat): map<string, string> {
    if c.hash(query) in running then running else running[c.hash(query) := ToString(now)]
  }

  function QueryOf(s: State, id: string): string {
    if id in s.pending then s.pending[id] else ""
  }

  /** The result of one request. */
  function Answer(c: Settings, s: State, id: string, turn: Turn): Result {
    var q := QueryOf(s, id);
    if Refused(c, s.running, q, turn.now) then Result(id, q, false, true, "")
    else Result(id, q, turn.ok, false, turn.rows)
  }

  /** One round of the `runQueries` loop. */
  function RunOne(c: Settings, s: State, id: string, turn: Turn): State {
    var q := QueryOf(s, id);
    State(s.pending - {id},
          if Refused(c, s.running, q, turn.now) then s.running else s.running - {c.hash(q)},
          s.results + [Answer(c, s, id, turn)])
  }

  function RunMany(c: Settings, s: State, ids: seq<string>, turns: seq<Turn>): State
    requires |turns| == |ids|
  {
    var n := |ids|;
    if n == 0 then s else RunOne(c, RunMany(c, s, ids[..n - 1], turns[..n - 1]), ids[n - 1], turns[n - 1])
  }

  /** `flushCompleted`: the buffer goes only with a successful write. */
  function Flush(s: State, write: Write): State {
    if write.WriteOk? then s.(results := []) else s
  }

  function Cleanup(c: Settings, running: map<string, string>, now: nat): map<string, string> {
    map k | k in running && !TimestampExpired(c, running[k], now) :: running[k]
  }

  /** A cleanup of which only some keys were reached. */
  function CleanupSome(c: Settings, running: map<string, string>, now: nat, reached: set<string>): map<string, string> {
    map k | k in running && (k !in reached || !TimestampExpired(c, running[k], now)) :: running[k]
  }

  /** Where a process dies: between requests, with the mark of the last one
      already cleared; with a request taken but not yet checked; or past the
      check, at `now`, when its mark is in the database. */
  datatype Point = Resting | Taken(id: string) | Executing(id: string, now: nat)

  /** Died at a point after the requests `ids` were done with: the marks and
      requests persist, the buffer does not. */
  function Die(c: Settings, s: State, ids: seq<string>, turns: seq<Turn>, at: Point): State
    requires |turns| == |ids|
  {
    var s' := RunMany(c, s, ids, turns);
    match at
    case Resting => s'.(results := [])
    case Taken(id) => State(s'.pending - {id}, s'.running, [])
    case Executing(id, now) => State(s'.pending - {id}, MarkRunning(c, s'.running, QueryOf(s', id), now), [])
  }

  ghost predicate Enumerates(m: map<string, string>, keys: seq<string>) {
    && (forall k :: k in keys <==> k in m)
    && (forall i, j | 0 <= i < j < |keys| :: keys[i] != keys[j])
  }

  // --------------------------------------------------------------- the code

  class Client {
    const settings: Settings
    var pending: map<string, string>
    var running: map<string, string>
    var results: seq<Result>

    ghost function View(): State
      reads this
    {
      State(pending, running, results)
    }

    method CheckAndSetAsRunning(query: string, now: nat) returns (denylisted: bool)
      modifies this`running
      ensures denylisted <==> Refused(settings, old(running), query, now)
      ensures running == MarkRunning(settings, old(running), query, now)
      ensures denylisted ==> running == old(running)
    {
      var key := settings.hash(query);
      if key in running {
        return !TimestampExpired(settings, running[key], now);
      }
      running := running[key := ToString(now)];
      return false;
    }

    method SetAsNotRunning(query: string)
      modifies this`running
      ensures running == old(running) - {settings.hash(query)}
    {
      running := running - {settings.hash(query)};
    }

    method PopRequest(id: string) returns (query: string)
      modifies this`pending
      ensures query == QueryOf(old(View()), id) && pending == old(pending) - {id}
      ensures id !in old(pending) ==> query == ""
    {
      query := if id in pending then pending[id] else "";
      pending := pending - {id};
    }

    method CleanupExpiredRunningQueries(keys: seq<string>, now: nat)
      requires Enumerates(running, keys)
      modifies this`running
      ensures running == Cleanup(settings, old(running), now)
    {
      hide TimestampExpired;
      ghost var gone: set<string> := {};
      assert running - gone == running;
      var i := 0;
      while i < |keys|
        invariant i <= |keys|
        invariant running == old(running) - gone
        invariant forall k :: k in gone <==> k in keys[..i] && TimestampExpired(settings, old(running)[k], now)
      {
        assert keys[i] in keys;
        assert keys[i] !in keys[..i];
        assert keys[..i + 1] == keys[..i] + [keys[i]];
        if TimestampExpired(settings, running[keys[i]], now) {
          running := running - {keys[i]};
          gone := gone + {keys[i]};
        }
        i := i + 1;
      }
      assert keys[..|keys|] == keys;
    }

    method FlushCompleted(write: Write) returns (ok: bool)
      modifies this`results
      ensures View() == Flush(old(View()), write)
      ensures ok <==> old(results) == [] || write.WriteOk?
    {
      if |results| == 0 {
        return true;
      }
      if write.WriteOk? {
        results := [];
        return true;
      }
      return false;
    }

    /** `runQueries` over the pending ids the database lists. */
    method RunQueries(ids: seq<string>, turns: seq<Turn>, write: Write) returns (ok: bool)
      requires Enumerates(pending, ids) && |turns| == |ids|
      modifies this
      ensures View() == Flush(RunMany(settings, old(View()), ids, turns), write)
    {
      hide Refused, RunMany;
      NoRounds(settings, View());
      var i := 0;
      while i < |ids|
        invariant i <= |ids|
        invariant View() == RunMany(settings, old(View()), ids[..i], turns[..i])
      {
        OneRound(settings, old(View()), ids, turns, i);
        RunRequest(ids[i], turns[i]);
        i := i + 1;
      }
      assert ids[..|ids|] == ids && turns[..|turns|] == turns;
      ok := FlushCompleted(write);
    }

    /** Take one request, check it, execute it unless refused, keep its result. */
    method RunRequest(id: string, turn: Turn)
      modifies this
      ensures View() == RunOne(settings, old(View()), id, turn)
    {
      hide Refused;
      var query := PopRequest(id);
      var denylisted := CheckAndSetAsRunning(query, turn.now);
      if denylisted {
        results := results + [Result(id, query, false, true, "")];
      } else {
        SetAsNotRunning(query);
        assert running == old(running) - {settings.hash(query)};
        results := results + [Result(id, query, turn.ok, false, turn.rows)];
      }
    }
  }

  lemma NoRounds(c: Settings, s: State)
    ensures RunMany(c, s, [], []) == s
  {
  }

  lemma OneRound(c: Settings, s: State, ids: seq<string>, turns: seq<Turn>, i: nat)
    requires |turns| == |ids| && i < |ids|
    ensures RunMany(c, s, ids[..i + 1], turns[..i + 1]) ==
            RunOne(c, RunMany(c, s, ids[..i], turns[..i]), ids[i], turns[i])
  {
    hide RunOne;
    assert ids[..i + 1][..i] == ids[..i] && turns[..i + 1][..i] == turns[..i];
  }

  // ---------------------------------------------------------- conservation

  ghost predicate Distinct(ids: seq<string>) {
    forall i, j | 0 <= i < j < |ids| :: ids[i] != ids[j]
  }

  /** Taking requests removes them and leaves no mark that was not there before. */
  lemma {:induction false} NoMarkLeft(c: Settings, s: State, ids: seq<string>, turns: seq<Turn>)
    requires |turns| == |ids|
    ensures var s' := RunMany(c, s, ids, turns);
            && s'.pending == s.pending - (set id | id in ids)
            && s'.running.Keys <= s.running.Keys && (forall k | k in s'.running :: s'.running[k] == s.running[k])
  {
    hide Refused;
    var n := |ids|;
    if n > 0 {
      NoMarkLeft(c, s, ids[..n - 1], turns[..n - 1]);
      assert ids == ids[..n - 1] + [ids[n - 1]];
    }
  }

  /** The results a run of the loop adds to the buffer. */
  function Yield(c: Settings, s: State, ids: seq<string>, turns: seq<Turn>): seq<Result>
    requires |turns| == |ids|
  {
    var n := |ids|;
    if n == 0 then []
    else
      Yield(c, s, ids[..n - 1], turns[..n - 1])
      + [Answer(c, RunMany(c, s, ids[..n - 1], turns[..n - 1]), ids[n - 1], turns[n - 1])]
  }

  lemma AnswerShape(c: Settings, s: State, id: string, turn: Turn)
    ensures Answer(c, s, id, turn).id == id && Answer(c, s, id, turn).query == QueryOf(s, id)
  {
  }

  lemma {:induction false} YieldBuffered(c: Settings, s: State, ids: seq<string>, turns: seq<Turn>)
    requires |turns| == |ids|
    ensures RunMany(c, s, ids, turns).results == s.results + Yield(c, s, ids, turns)
  {
    hide Answer, Refused;
    var n := |ids|;
    if n > 0 {
      YieldBuffered(c, s, ids[..n - 1], turns[..n - 1]);
    }
  }

  /** One result per request taken, in order and for its own query text. */
  lemma {:induction false} YieldMatches(c: Settings, s: State, ids: seq<string>, turns: seq<Turn>)
    requires |turns| == |ids| && Distinct(ids)
    ensures var rs := Yield(c, s, ids, turns);
            && |rs| == |ids|
            && (forall i | 0 <= i < |ids| :: rs[i].id == ids[i] && rs[i].query == QueryOf(s, ids[i]))
  {
    hide Answer, RunMany, QueryOf;
    var n := |ids|;
    if n > 0 {
      var init := ids[..n - 1];
      YieldMatches(c, s, init, turns[..n - 1]);
      AnswerShape(c, RunMany(c, s, init, turns[..n - 1]), ids[n - 1], turns[n - 1]);
      StillPending(c, s, init, turns[..n - 1], ids[n - 1]);
    }
  }

  lemma StillPending(c: Settings, s: State, ids: seq<string>, turns: seq<Turn>, id: string)
    requires |turns| == |ids| && id !in ids
    ensures QueryOf(RunMany(c, s, ids, turns), id) == QueryOf(s, id)
  {
    hide RunMany;
    NoMarkLeft(c, s, ids, turns);
  }

  /** Query texts executed among some results. */
  ghost predicate Executed(c: Settings, rs: seq<Result>, key: string) {
    exists i | 0 <= i < |rs| :: !rs[i].denied && c.hash(rs[i].query) == key
  }

  /** Of the marks that were there, a run clears exactly those of the queries it
      executed, so what it refused stays refused. */
  lemma {:induction false} ClearsExecuted(c: Settings, s: State, ids: seq<string>, turns: seq<Turn>, key: string)
    requires |turns| == |ids| && key in s.running
    ensures key in RunMany(c, s, ids, turns).running <==> !Executed(c, Yield(c, s, ids, turns), key)
  {
    hide Refused, Executed;
    var n := |ids|;
    if n == 0 {
      NoneExecuted(c, key);
    } else {
      ClearsExecuted(c, s, ids[..n - 1], turns[..n - 1], key);
      var m := RunMany(c, s, ids[..n - 1], turns[..n - 1]);
      ExecutedSnoc(c, Yield(c, s, ids[..n - 1], turns[..n - 1]), Answer(c, m, ids[n - 1], turns[n - 1]), key);
    }
  }

  lemma NoneExecuted(c: Settings, key: string)
    ensures !Executed(c, [], key)
  {
  }

  lemma ExecutedSnoc(c: Settings, rs: seq<Result>, r: Result, key: string)
    ensures Executed(c, rs + [r], key) <==> Executed(c, rs, key) || (!r.denied && c.hash(r.query) == key)
  {
    var all := rs + [r];
    assert all[|rs|] == r && forall i | 0 <= i < |rs| :: all[i] == rs[i];
  }

  /** A mark of the `i`-th request's query stands in its way: it was there before
      the run, no earlier request of the run has executed that query and so
      cleared it, and it has not expired. */
  ghost predicate Barred(c: Settings, s: State, rs: seq<Result>, turns: seq<Turn>, i: nat)
    requires i < |rs| == |turns|
  {
    var key := c.hash(rs[i].query);
    && key in s.running && !Executed(c, rs[..i], key)
    && !TimestampExpired(c, s.running[key], turns[i].now)
  }

  /** The result of a request: refused, with nothing in it, exactly when a mark
      bars it; otherwise the outcome of its own execution. */
  ghost predicate Tells(c: Settings, s: State, rs: seq<Result>, turns: seq<Turn>, i: nat)
    requires i < |rs| == |turns|
  {
    && (rs[i].denied <==> Barred(c, s, rs, turns, i))
    && (rs[i].denied ==> !rs[i].ok && rs[i].rows == "")
    && (!rs[i].denied ==> rs[i].ok == turns[i].ok && rs[i].rows == turns[i].rows)
  }

  /** The outcome of every execution reaches its result. */
  lemma {:induction false} YieldTells(c: Settings, s: State, ids: seq<string>, turns: seq<Turn>, i: nat)
    requires |turns| == |ids| && i < |ids|
    ensures |Yield(c, s, ids, turns)| == |ids|
    ensures Tells(c, s, Yield(c, s, ids, turns), turns, i)
    decreases |ids|
  {
    hide Executed, TimestampExpired, QueryOf;
    var n := |ids| - 1;
    YieldLength(c, s, ids, turns);
    YieldLength(c, s, ids[..n], turns[..n]);
    var rs, rs' := Yield(c, s, ids, turns), Yield(c, s, ids[..n], turns[..n]);
    assert rs[..n] == rs';
    if i < n {
      YieldTells(c, s, ids[..n], turns[..n], i);
      assert rs[..i] == rs'[..i];
    } else {
      var m := RunMany(c, s, ids[..n], turns[..n]);
      var key := c.hash(QueryOf(m, ids[n]));
      NoMarkLeft(c, s, ids[..n], turns[..n]);
      if key in s.running {
        ClearsExecuted(c, s, ids[..n], turns[..n], key);
      }
    }
  }

  lemma {:induction false} YieldLength(c: Settings, s: State, ids: seq<string>, turns: seq<Turn>)
    requires |turns| == |ids|
    ensures |Yield(c, s, ids, turns)| == |ids|
  {
    hide Answer, RunMany;
    if ids != [] {
      YieldLength(c, s, ids[..|ids| - 1], turns[..|ids| - 1]);
    }
  }

  /** When a mark expires: exactly after its time and the duration have passed. */
  lemma ExpiresIff(c: Settings, t: nat, now: nat)
    requires t + c.duration < TWO64
    ensures TimestampExpired(c, ToString(t), now) <==> now > t + c.duration
    ensures forall text | TryToUint64(text) == None ::
              c.duration < TWO64 ==> (TimestampExpired(c, text, now) <==> now > c.duration)
  {
    hide ToString, TryToUint64, TryToLongLong, WholeUint64, ToIndex;
    NumbersReadBack(t);
  }

  /** A cleanup cut short has cleared exactly the expired marks it reached. */
  lemma CleanupCut(c: Settings, running: map<string, string>, now: nat, reached: set<string>, k: string)
    requires k in running
    ensures var left := CleanupSome(c, running, now, reached);
            if k in reached then k in left <==> k in Cleanup(c, running, now) else k in left && left[k] == running[k]
  {
  }

  /** Cleaning up expired marks never changes which queries are refused, then or later. */
  lemma CleanupInvisible(c: Settings, running: map<string, string>, now: nat, query: string, later: nat)
    requires now <= later
    ensures Refused(c, Cleanup(c, running, now), query, later) <==> Refused(c, running, query, later)
    ensures forall k | k in Cleanup(c, running, now) :: !TimestampExpired(c, running[k], now)
  {
    hide TryToUint64;
  }

  /** `Crash` ends a process inside a run of the loop or outside one, and
      `CrashCleaning` inside a cleanup. */
  datatype Op =
    | Accept(id: string, query: string)
    | RunAll(ids: seq<string>, turns: seq<Turn>, write: Write)
    | Clean(now: nat)
    | Crash(ids: seq<string>, turns: seq<Turn>, at: Point)
    | CrashCleaning(now: nat, reached: set<string>)

  /** A client with the results it has produced and the batches written so far. */
  datatype World = World(state: State, produced: seq<Result>, written: seq<seq<Result>>)

  ghost predicate Allowed(s: State, op: Op) {
    match op
    case RunAll(ids, turns, _) => |turns| == |ids| && Enumerates(s.pending, ids)
    case Crash(ids, turns, _) => |turns| == |ids|
    case _ => true
  }

  function Step(c: Settings, w: World, op: Op): World {
    match op
    case Accept(id, query) => w.(state := w.state.(pending := w.state.pending[id := query]))
    case Clean(now) => w.(state := w.state.(running := Cleanup(c, w.state.running, now)))
    case RunAll(ids, turns, write) =>
      if |turns| != |ids| then w
      else
        var s := RunMany(c, w.state, ids, turns);
        World(Flush(s, write), w.produced + Yield(c, w.state, ids, turns),
              if write.WriteOk? && s.results != [] then w.written + [s.results] else w.written)
    case Crash(ids, turns, at) =>
      if |turns| != |ids| then w
      else World(Die(c, w.state, ids, turns, at), [], [])
    case CrashCleaning(now, reached) =>
      World(State(w.state.pending, CleanupSome(c, w.state.running, now, reached), []), [], [])
  }

  function Run(c: Settings, w: World, ops: seq<Op>): World
    decreases |ops|
  {
    if ops == [] then w else Run(c, Step(c, w, ops[0]), ops[1..])
  }

  ghost predicate AllowedRun(c: Settings, w: World, ops: seq<Op>)
    decreases |ops|
  {
    ops == [] || (Allowed(w.state, ops[0]) && AllowedRun(c, Step(c, w, ops[0]), ops[1..]))
  }

  function Concat(batches: seq<seq<Result>>): seq<Result> {
    if batches == [] then [] else Concat(batches[..|batches| - 1]) + batches[|batches| - 1]
  }

  lemma ConcatSnoc(batches: seq<seq<Result>>, b: seq<Result>)
    ensures Concat(batches + [b]) == Concat(batches) + b
  {
    assert (batches + [b])[..|batches|] == batches;
  }

  ghost predicate Conserved(w: World) {
    Concat(w.written) + w.state.results == w.produced
  }

  predicate Crashes(op: Op) {
    op.Crash? || op.CrashCleaning?
  }

  lemma StepConserves(c: Settings, w: World, op: Op)
    requires Conserved(w) && Allowed(w.state, op) && !Crashes(op)
    ensures Conserved(Step(c, w, op))
  {
    hide RunMany, Yield, Concat, Cleanup;
    if op.RunAll? {
      var s, rs := RunMany(c, w.state, op.ids, op.turns), Yield(c, w.state, op.ids, op.turns);
      YieldBuffered(c, w.state, op.ids, op.turns);
      Associative(Concat(w.written), w.state.results, rs);
      assert Concat(w.written) + w.state.results + [] == Concat(w.written) + w.state.results;
      ConcatSnoc(w.written, s.results);
      assert s.results == [] ==> Concat(w.written) + [] == w.produced + rs;
    }
  }

  /** Conservation. In any run without a crash, however often writes fail, the
      batches written followed by the unsent buffer are exactly the results
      produced, in order; and a run over the pending ids produces exactly one
      result for each of them, under its own query text, and empties them. */
  lemma {:induction false} ResultsConserved(c: Settings, w: World, ops: seq<Op>)
    requires Conserved(w) && AllowedRun(c, w, ops) && forall i | 0 <= i < |ops| :: !Crashes(ops[i])
    ensures Conserved(Run(c, w, ops))
    decreases |ops|
  {
    hide Conserved, Step, Allowed;
    if ops != [] {
      StepConserves(c, w, ops[0]);
      ResultsConserved(c, Step(c, w, ops[0]), ops[1..]);
    }
  }

  lemma OneResultEach(c: Settings, w: World, ids: seq<string>, turns: seq<Turn>, write: Write)
    requires Allowed(w.state, RunAll(ids, turns, write))
    ensures var w' := Step(c, w, RunAll(ids, turns, write));
            && |w'.produced| == |w.produced| + |ids| && |ids| == |w.state.pending|
            && w'.produced[..|w.produced|] == w.produced
            && (forall i | 0 <= i < |ids| ::
                  && w'.produced[|w.produced| + i].id == ids[i]
                  && w'.produced[|w.produced| + i].query == w.state.pending[ids[i]])
            && (forall i | 0 <= i < |ids| :: Tells(c, w.state, w'.produced[|w.produced|..], turns, i))
            && w'.state.pending == map[]
  {
    hide Refused, RunMany, Yield, Tells;
    forall i | 0 <= i < |ids|
      ensures |Yield(c, w.state, ids, turns)| == |ids| && Tells(c, w.state, Yield(c, w.state, ids, turns), turns, i)
    {
      YieldTells(c, w.state, ids, turns, i);
    }
    YieldLength(c, w.state, ids, turns);
    assert (w.produced + Yield(c, w.state, ids, turns))[|w.produced|..] == Yield(c, w.state, ids, turns);
    YieldMatches(c, w.state, ids, turns);
    NoMarkLeft(c, w.state, ids, turns);
    assert (set id | id in ids) == w.state.pending.Keys;
    SetOfDistinct(ids);
    assert forall i | 0 <= i < |ids| :: ids[i] in ids;
  }

  lemma {:induction false} SetOfDistinct(ids: seq<string>)
    requires Distinct(ids)
    ensures |set id | id in ids| == |ids|
  {
    if ids != [] {
      var init, last := ids[..|ids| - 1], ids[|ids| - 1];
      SetOfDistinct(init);
      assert ids == init + [last];
      assert last !in init;
      assert (set id | id in ids) == (set id | id in init) + {last};
    }
  }

  // -------------------------------------------------------- crash quarantine

  ghost predicate Injective(hash: string -> string) {
    forall p, q | p != q :: hash(p) != hash(q)
  }

  ghost predicate Marked(c: Settings, s: State, query: string, t: nat) {
    c.hash(query) in s.running && s.running[c.hash(query)] == ToString(t)
  }

  /** All clock readings of a step are at most `to`. */
  ghost predicate Until(op: Op, to: nat) {
    match op
    case Accept(_, _) => true
    case Clean(now) => now <= to
    case RunAll(_, turns, _) => TurnsUntil(turns, to)
    case Crash(_, turns, at) => TurnsUntil(turns, to) && (at.Executing? ==> at.now <= to)
    case CrashCleaning(now, _) => now <= to
  }

  ghost predicate TurnsUntil(turns: seq<Turn>, to: nat) {
    forall i | 0 <= i < |turns| :: turns[i].now <= to
  }

  lemma MarkHolds(c: Settings, t: nat, now: nat)
    requires t + c.duration < TWO64 && now <= t + c.duration
    ensures !TimestampExpired(c, ToString(t), now)
  {
    hide ToString, TryToUint64, TryToLongLong, WholeUint64, ToIndex;
    NumbersReadBack(t);
  }

  /** A fresh enough mark survives the loop, and every request for its query is refused. */
  lemma {:induction false} MarkSurvivesLoop(c: Settings, s: State, ids: seq<string>, turns: seq<Turn>,
                                            query: string, t: nat)
    requires |turns| == |ids| && Injective(c.hash) && t + c.duration < TWO64
    requires Marked(c, s, query, t) && TurnsUntil(turns, t + c.duration)
    ensures Marked(c, RunMany(c, s, ids, turns), query, t)
    ensures forall r | r in Yield(c, s, ids, turns) && r.query == query :: r.denied
  {
    hide TimestampExpired, ToString;
    var n := |ids|;
    if n > 0 {
      MarkSurvivesLoop(c, s, ids[..n - 1], turns[..n - 1], query, t);
      MarkHolds(c, t, turns[n - 1].now);
    }
  }

  lemma StepKeepsMark(c: Settings, w: World, op: Op, query: string, t: nat)
    requires Injective(c.hash) && t + c.duration < TWO64 && Marked(c, w.state, query, t)
    requires Allowed(w.state, op) && Until(op, t + c.duration)
    ensures Marked(c, Step(c, w, op).state, query, t)
    ensures op.RunAll? ==> forall r | r in Yield(c, w.state, op.ids, op.turns) && r.query == query :: r.denied
  {
    hide RunMany, Yield, TimestampExpired, ToString, Enumerates;
    match op
    case Accept(_, _) =>
    case Clean(now) => MarkHolds(c, t, now);
    case RunAll(ids, turns, _) => MarkSurvivesLoop(c, w.state, ids, turns, query, t);
    case Crash(ids, turns, _) => MarkSurvivesLoop(c, w.state, ids, turns, query, t);
    case CrashCleaning(now, _) => MarkHolds(c, t, now);
  }

  lemma {:induction false} MarkSurvives(c: Settings, w: World, ops: seq<Op>, query: string, t: nat)
    requires Injective(c.hash) && t + c.duration < TWO64 && Marked(c, w.state, query, t)
    requires AllowedRun(c, w, ops) && forall i | 0 <= i < |ops| :: Until(ops[i], t + c.duration)
    ensures Marked(c, Run(c, w, ops).state, query, t)
    decreases |ops|
  {
    hide Marked, Step, Allowed, Until, Injective;
    if ops != [] {
      StepKeepsMark(c, w, ops[0], query, t);
      MarkSurvives(c, Step(c, w, ops[0]), ops[1..], query, t);
    }
  }

  /** The world after dying at time `t` while executing `id`, taken in state `m`. */
  ghost predicate DiedExecuting(c: Settings, m: State, id: string, t: nat, w: World) {
    w == World(Die(c, m, [], [], Executing(id, t)), [], [])
  }

  lemma DiedMarked(c: Settings, m: State, id: string, t: nat, w: World)
    requires DiedExecuting(c, m, id, t, w) && c.hash(QueryOf(m, id)) !in m.running
    ensures Marked(c, w.state, QueryOf(m, id), t)
  {
    hide ToString, QueryOf;
  }

  /** Crash quarantine. A query whose process died at time `t` just after writing
      a fresh mark is refused at every clock reading up to the end of the
      denylist duration, across any further runs and cleanups, and restarts at
      whatever point of them. */
  lemma CrashedQueryRefused(c: Settings, m: State, id: string, t: nat, w: World, ops: seq<Op>, now: nat)
    requires Injective(c.hash) && t + c.duration < TWO64 && now <= t + c.duration
    requires DiedExecuting(c, m, id, t, w) && c.hash(QueryOf(m, id)) !in m.running
    requires AllowedRun(c, w, ops) && forall i | 0 <= i < |ops| :: Until(ops[i], t + c.duration)
    ensures Refused(c, Run(c, w, ops).state.running, QueryOf(m, id), now)
  {
    hide Run, AllowedRun, TimestampExpired, ToString, Injective, QueryOf, DiedExecuting;
    DiedMarked(c, m, id, t, w);
    MarkSurvives(c, w, ops, QueryOf(m, id), t);
    MarkHolds(c, t, now);
  }

  /** Dying under a mark that had already run out quarantines nothing: right
      after the crash a query is refused exactly when the mark was fresh. */
  lemma RefusedIffFresh(c: Settings, s: State, ids: seq<string>, turns: seq<Turn>, id: string, t: nat, now: nat)
    requires |turns| == |ids| && t + c.duration < TWO64 && t <= now <= t + c.duration
    requires var m := RunMany(c, s, ids, turns); !Refused(c, m.running, QueryOf(m, id), t)
    ensures var m := RunMany(c, s, ids, turns);
            var d := Die(c, s, ids, turns, Executing(id, t));
            Refused(c, d.running, QueryOf(m, id), now) <==> c.hash(QueryOf(m, id)) !in m.running
  {
    hide RunMany, ToString, QueryOf, TryToUint64;
    MarkHolds(c, t, now);
  }

  /** What a death quarantines: of the queries that carried no mark, exactly the
      one that was past its check and not refused. */
  lemma QuarantinedIffExecuting(c: Settings, s: State, ids: seq<string>, turns: seq<Turn>, at: Point,
                                query: string, now: nat)
    requires |turns| == |ids| && Injective(c.hash)
    requires at.Executing? ==> at.now + c.duration < TWO64 && at.now <= now <= at.now + c.duration
    requires c.hash(query) !in RunMany(c, s, ids, turns).running
    ensures Refused(c, Die(c, s, ids, turns, at).running, query, now)
            <==> at.Executing? && QueryOf(RunMany(c, s, ids, turns), at.id) == query
  {
    hide RunMany, ToString, QueryOf, TimestampExpired;
    if at.Executing? {
      MarkHolds(c, at.now, now);
    }
  }

  /** What a death loses: the requests taken are gone, the one in hand included,
      and no other; of the marks there were, none is new. */
  lemma CrashTakes(c: Settings, s: State, ids: seq<string>, turns: seq<Turn>, at: Point)
    requires |turns| == |ids|
    ensures Die(c, s, ids, turns, at).pending ==
            s.pending - (set id | id in ids) - (if at.Resting? then {} else {at.id})
    ensures !at.Executing? ==> Die(c, s, ids, turns, at).running.Keys <= s.running.Keys
    ensures Die(c, s, ids, turns, at).results == []
  {
    hide RunMany, MarkRunning;
    NoMarkLeft(c, s, ids, turns);
  }
}

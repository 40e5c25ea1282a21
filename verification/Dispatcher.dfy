/** Interrupting a paused service thread, as interleaved steps on the flag, the
    mutex and the condition variable of `InterruptibleRunnable`. */
module Handshake {

  /** Where the service thread is. In `Checked` it has read the flag as clear and
      still holds the mutex; `wait_for` releases it and blocks in one step. */
  datatype Pauser = Running | Locked | Checked | Blocked | Woken | Leaving

  /** Where a call of `interrupt` is; `won` says its exchange set the flag. */
  datatype Call = Outside | Stopping | Notifying | Notified | Returned(won: bool)

  datatype Owner = Nobody | Thread | Caller(i: nat)

  datatype State = State(flag: bool, owner: Owner, pauser: Pauser, calls: seq<Call>)

  datatype Action =
    | PauseLock | PauseCheck | PauseWait | TimeOut | Reacquire | PauseReturn
    | Exchange(i: nat) | LockCaller(i: nat) | NotifyOne(i: nat) | ReturnCaller(i: nat)

  function Init(n: nat): State {
    State(false, Nobody, Running, seq(n, i => Outside))
  }

  predicate Enabled(s: State, a: Action) {
    match a
    case PauseLock => s.pauser == Running && s.owner == Nobody
    case PauseCheck => s.pauser == Locked
    case PauseWait => s.pauser == Checked
    case TimeOut => s.pauser == Blocked
    case Reacquire => s.pauser == Woken && s.owner == Nobody
    case PauseReturn => s.pauser == Leaving
    case Exchange(i) => i < |s.calls| && s.calls[i] == Outside
    case LockCaller(i) => i < |s.calls| && s.calls[i] == Stopping && s.owner == Nobody
    case NotifyOne(i) => i < |s.calls| && s.calls[i] == Notifying
    case ReturnCaller(i) => i < |s.calls| && s.calls[i] == Notified
  }

  function Next(s: State, a: Action): State
    requires Enabled(s, a)
  {
    match a
    case PauseLock => s.(pauser := Locked, owner := Thread)
    case PauseCheck => s.(pauser := if s.flag then Leaving else Checked)
    case PauseWait => s.(pauser := Blocked, owner := Nobody)
    case TimeOut => s.(pauser := Woken)
    case Reacquire => s.(pauser := Leaving, owner := Thread)
    case PauseReturn => s.(pauser := Running, owner := Nobody)
    case Exchange(i) =>
      s.(flag := true, calls := s.calls[i := if s.flag then Returned(false) else Stopping])
    case LockCaller(i) => s.(owner := Caller(i), calls := s.calls[i := Notifying])
    case NotifyOne(i) =>
      s.(pauser := if s.pauser == Blocked then Woken else s.pauser, calls := s.calls[i := Notified])
    case ReturnCaller(i) => s.(owner := Nobody, calls := s.calls[i := Returned(true)])
  }

  /** A run of `n` calls against one service thread. */
  ghost predicate Behaviour(n: nat, states: seq<State>, actions: seq<Action>) {
    && |states| == |actions| + 1 && states[0] == Init(n)
    && (forall k | 0 <= k < |actions| :: Enabled(states[k], actions[k]) && states[k + 1] == Next(states[k], actions[k]))
  }

  predicate Winner(c: Call) {
    c == Stopping || c == Notifying || c == Notified || c == Returned(true)
  }

  predicate PastNotify(c: Call) {
    c == Notified || c == Returned(true)
  }

  /** Blocked, or committed to blocking. */
  predicate Pausing(s: State) {
    s.pauser == Checked || s.pauser == Blocked
  }

  ghost predicate Inv(s: State) {
    && (s.owner == Thread <==> s.pauser in {Locked, Checked, Leaving})
    && (forall i | 0 <= i < |s.calls| :: s.owner == Caller(i) <==> s.calls[i] in {Notifying, Notified})
    && (s.owner.Caller? ==> s.owner.i < |s.calls|)
    && (s.flag <==> exists i | 0 <= i < |s.calls| :: Winner(s.calls[i]))
    && (forall i, j | 0 <= i < j < |s.calls| :: !(Winner(s.calls[i]) && Winner(s.calls[j])))
    && (forall i | 0 <= i < |s.calls| && s.calls[i] == Returned(false) :: s.flag)
    && (forall i | 0 <= i < |s.calls| && PastNotify(s.calls[i]) :: !Pausing(s))
  }

  lemma ThreadStepInv(s: State, a: Action)
    requires Inv(s) && Enabled(s, a) && a in {PauseLock, PauseCheck, PauseWait, TimeOut, Reacquire, PauseReturn}
    ensures Inv(Next(s, a))
  {
    var s' := Next(s, a);
    assert s'.calls == s.calls && s'.flag == s.flag;
    assert a.PauseCheck? && !s.flag ==> forall i | 0 <= i < |s.calls| :: !Winner(s.calls[i]);
  }

  lemma ExchangeInv(s: State, i: nat)
    requires Inv(s) && Enabled(s, Exchange(i))
    ensures Inv(Next(s, Exchange(i)))
  {
    var s' := Next(s, Exchange(i));
    assert forall j | 0 <= j < |s.calls| && j != i :: s'.calls[j] == s.calls[j];
    if s.flag {
      var w :| 0 <= w < |s.calls| && Winner(s.calls[w]);
      assert Winner(s'.calls[w]);
    } else {
      assert Winner(s'.calls[i]);
    }
  }

  lemma WinnerStepInv(s: State, a: Action)
    requires Inv(s) && Enabled(s, a) && (a.LockCaller? || a.NotifyOne? || a.ReturnCaller?)
    ensures Inv(Next(s, a))
  {
    var s' := Next(s, a);
    assert forall j | 0 <= j < |s.calls| && j != a.i :: s'.calls[j] == s.calls[j];
    assert Winner(s.calls[a.i]) && Winner(s'.calls[a.i]);
  }

  lemma {:induction false} BehaviourInv(n: nat, states: seq<State>, actions: seq<Action>, k: nat)
    requires Behaviour(n, states, actions) && k < |states|
    ensures Inv(states[k])
    decreases k
  {
    if k > 0 {
      BehaviourInv(n, states, actions, k - 1);
      var a := actions[k - 1];
      if a.Exchange? {
        ExchangeInv(states[k - 1], a.i);
      } else if a.LockCaller? || a.NotifyOne? || a.ReturnCaller? {
        WinnerStepInv(states[k - 1], a);
      } else {
        ThreadStepInv(states[k - 1], a);
      }
    }
  }

  lemma ReturnedStays(s: State, a: Action, i: nat)
    requires Enabled(s, a) && i < |s.calls| && s.calls[i].Returned?
    ensures i < |Next(s, a).calls| && Next(s, a).calls[i] == s.calls[i]
  {
  }

  lemma {:induction false} ReturnedForGood(n: nat, states: seq<State>, actions: seq<Action>, k: nat, m: nat, i: nat)
    requires Behaviour(n, states, actions) && k <= m < |states|
    requires i < |states[k].calls| && states[k].calls[i].Returned?
    ensures i < |states[m].calls| && states[m].calls[i] == states[k].calls[i]
    decreases m
  {
    if k < m {
      ReturnedForGood(n, states, actions, k, m - 1, i);
      ReturnedStays(states[m - 1], actions[m - 1], i);
    }
  }

  /** Once the call that set the flag has returned, the service thread is not
      blocked in `pause`, now or at any later point of any interleaving. */
  lemma InterruptedNeverBlocks(n: nat, states: seq<State>, actions: seq<Action>, k: nat, m: nat, i: nat)
    requires Behaviour(n, states, actions) && k <= m < |states|
    requires i < |states[k].calls| && states[k].calls[i] == Returned(true)
    ensures !Pausing(states[m])
  {
    ReturnedForGood(n, states, actions, k, m, i);
    BehaviourInv(n, states, actions, m);
    assert PastNotify(states[m].calls[i]);
  }

  predicate ReturnedWhileBlocked(s: State) {
    |s.calls| > 1 && s.calls[1] == Returned(false) && s.pauser == Blocked
  }

  /** A run of five steps and two calls. */
  function TraceAction(k: nat): Action {
    [PauseLock, PauseCheck, PauseWait, Exchange(0), Exchange(1)][if k < 5 then k else 4]
  }

  function TraceState(k: nat): State {
    if k == 0 then State(false, Nobody, Running, [Outside, Outside])
    else if k == 1 then State(false, Thread, Locked, [Outside, Outside])
    else if k == 2 then State(false, Thread, Checked, [Outside, Outside])
    else if k == 3 then State(false, Nobody, Blocked, [Outside, Outside])
    else if k == 4 then State(true, Nobody, Blocked, [Stopping, Outside])
    else State(true, Nobody, Blocked, [Stopping, Returned(false)])
  }

  lemma TraceStep(k: nat)
    requires k < 5
    ensures Enabled(TraceState(k), TraceAction(k)) && Next(TraceState(k), TraceAction(k)) == TraceState(k + 1)
  {
  }

  /** A call that finds the flag set returns early: the thread may still be
      blocked then, exactly while the call that set the flag has not notified. */
  lemma EarlyReturnCanLeaveBlocked()
    ensures exists states: seq<State>, actions: seq<Action> ::
              Behaviour(2, states, actions) && ReturnedWhileBlocked(states[|actions|])
  {
    assert TraceState(0) == Init(2) && ReturnedWhileBlocked(TraceState(5));
    hide TraceState, TraceAction, Next, Enabled, Init, ReturnedWhileBlocked;
    var states, actions := seq(6, (k: nat) => TraceState(k)), seq(5, (k: nat) => TraceAction(k));
    forall k | 0 <= k < |actions|
      ensures Enabled(states[k], actions[k]) && states[k + 1] == Next(states[k], actions[k])
    {
      TraceStep(k);
    }
    assert Behaviour(2, states, actions);
  }

  lemma BlockedMeansUnnotified(n: nat, states: seq<State>, actions: seq<Action>, k: nat, i: nat)
    requires Behaviour(n, states, actions) && k < |states| && i < |states[k].calls|
    requires states[k].calls[i].Returned? && Pausing(states[k])
    ensures states[k].calls[i] == Returned(false)
    ensures exists j | 0 <= j < |states[k].calls| :: states[k].calls[j] == Stopping || states[k].calls[j] == Notifying
  {
    BehaviourInv(n, states, actions, k);
    var s := states[k];
    assert PastNotify(s.calls[i]) <==> s.calls[i] == Returned(true);
    var j :| 0 <= j < |s.calls| && Winner(s.calls[j]);
    assert !PastNotify(s.calls[j]);
  }

  lemma OnlyWinnerOwns(s: State, i: nat)
    requires Inv(s) && i < |s.calls| && Winner(s.calls[i])
    ensures s.owner.Caller? ==> s.owner.i == i
  {
    assert s.owner.Caller? ==> Winner(s.calls[s.owner.i]);
  }

  /** The call that set the flag is never stuck: until it has returned, it or the
      holder of the mutex can move. */
  lemma WinnerCanFinish(n: nat, states: seq<State>, actions: seq<Action>, k: nat, i: nat)
    requires Behaviour(n, states, actions) && k < |states| && i < |states[k].calls|
    requires Winner(states[k].calls[i]) && states[k].calls[i] != Returned(true)
    ensures exists a :: Enabled(states[k], a) && (a in {LockCaller(i), NotifyOne(i), ReturnCaller(i)}
                        || (states[k].owner == Thread && a in {PauseCheck, PauseWait, PauseReturn}))
  {
    BehaviourInv(n, states, actions, k);
    var s := states[k];
    if s.calls[i] == Notifying {
      assert Enabled(s, NotifyOne(i));
    } else if s.calls[i] == Notified {
      assert Enabled(s, ReturnCaller(i));
    } else if s.owner == Nobody {
      assert Enabled(s, LockCaller(i));
    } else {
      OnlyWinnerOwns(s, i);
      assert s.owner == Thread;
      assert Enabled(s, PauseCheck) || Enabled(s, PauseWait) || Enabled(s, PauseReturn);
    }
  }
}

/** The dispatcher's service and thread lists: adding, finishing, stopping and
    joining, each step being one section under the dispatcher's mutex. */
module Dispatcher {
  import opened Basics

  /** A thread and the runnable it runs; a runnable added twice has two. */
  datatype Thread = Thread(id: nat, runnable: nat)

  /** `ran` and `interrupted` are the flags of the runnables; `created`, `entered`
      and `ended` the threads made so far and those that have entered and left
      `run`; `joining` the thread the join loop waits for. */
  datatype State = State(services: seq<nat>, threads: seq<Thread>, next: nat, stopping: bool,
                         ran: set<nat>, interrupted: set<nat>,
                         created: set<Thread>, entered: set<nat>, ended: set<nat>,
                         joining: Option<Thread>, joined: bool)

  function Without(services: seq<nat>, r: nat): (s: seq<nat>)
    ensures forall x :: x in s <==> x in services && x != r
  {
    if services == [] then []
    else (if services[0] == r then [] else [services[0]]) + Without(services[1..], r)
  }

  function Members<T>(xs: seq<T>): set<T> {
    set x | x in xs
  }

  class Registry {
    var services: seq<nat>
    var threads: seq<Thread>
    var next: nat
    var stopping: bool
    var ran: set<nat>
    var interrupted: set<nat>
    ghost var created: set<Thread>
    ghost var entered: set<nat>
    ghost var ended: set<nat>

    ghost function View(): State
      reads this
    {
      State(services, threads, next, stopping, ran, interrupted, created, entered, ended, None, false)
    }

    method AddService(r: nat) returns (ok: bool)
      modifies this`services, this`threads, this`next, this`created
      ensures View() == Step(old(View()), Add(r))
      ensures ok <==> r !in ran && !stopping
      ensures ok ==> services == old(services) + [r] && threads == old(threads) + [Thread(old(next), r)]
      ensures !ok ==> services == old(services) && threads == old(threads)
    {
      if r in ran || stopping {
        return false;
      }
      threads := threads + [Thread(next, r)];
      services := services + [r];
      created := created + {Thread(next, r)};
      next := next + 1;
      return true;
    }

    /** The last thing a service thread does. */
    method RemoveService(t: Thread)
      modifies this`services, this`ended
      ensures View() == Step(old(View()), Finish(t))
      ensures t.runnable !in services
    {
      ended := ended + {t.id};
      var r := t.runnable;
      var kept: seq<nat> := [];
      var i := 0;
      while i < |services|
        invariant i <= |services|
        invariant kept + Without(services[i..], r) == Without(services, r)
      {
        assert services[i..][0] == services[i] && services[i..][1..] == services[i + 1..];
        if services[i] != r {
          kept := kept + [services[i]];
        }
        i := i + 1;
      }
      assert Without(services[i..], r) == [];
      services := kept;
    }

    /** Interrupts every registered service; each has entered `run` by then. */
    method StopServices()
      requires Members(services) <= ran
      modifies this`stopping, this`interrupted
      ensures View() == Step(old(View()), Stop)
      ensures stopping
      ensures interrupted == old(interrupted) + Members(services)
    {
      stopping := true;
      var i := 0;
      while i < |services|
        invariant i <= |services| && stopping
        invariant interrupted == old(interrupted) + Members(services[..i])
      {
        interrupted := interrupted + {services[i]};
        assert services[..i + 1] == services[..i] + [services[i]];
        i := i + 1;
      }
      assert services[..|services|] == services;
    }

    /** The join loop with nothing added meanwhile; returns the threads joined. By
        the time joining a thread returns, that thread has ended. */
    method JoinServices() returns (order: seq<Thread>)
      modifies this`services, this`threads, this`ended
      ensures services == [] && threads == []
      ensures Members(order) == Members(old(threads)) && |order| == |old(threads)|
      ensures ended == old(ended) + set t | t in old(threads) :: t.id
    {
      order := [];
      while threads != []
        invariant |order| + |threads| == |old(threads)|
        invariant Members(order) + Members(threads) == Members(old(threads))
        invariant ended == old(ended) + set t | t in order :: t.id
        decreases |threads|
      {
        var n := |threads|;
        var t := threads[n - 1];
        assert threads == threads[..n - 1] + [t];
        order := order + [t];
        threads := threads[..n - 1];
        ended := ended + {t.id};
      }
      assert forall t :: t in order <==> t in old(threads) by {
        assert forall t :: t in order <==> t in Members(order);
        assert forall t :: t in old(threads) <==> t in Members(old(threads));
      }
      services := [];
    }
  }

  // ------------------------------------------------------------------ runs

  datatype Op = Add(r: nat) | Enter(t: Thread) | Finish(t: Thread) | Stop | JoinPop | JoinWait | JoinDone

  predicate Allowed(s: State, op: Op) {
    match op
    case Add(_) => true
    case Enter(t) => t in s.created && t.id !in s.entered
    case Finish(t) => t in s.created && t.id in s.entered && t.id !in s.ended
    case Stop => Members(s.services) <= s.ran
    case JoinPop => s.joining == None && s.threads != []
    case JoinWait => s.joining.Some? && s.joining.value.id in s.ended
    case JoinDone => s.joining == None && s.threads == []
  }

  function Step(s: State, op: Op): State {
    match op
    case Add(r) =>
      if r in s.ran || s.stopping then s
      else
        var t := Thread(s.next, r);
        s.(services := s.services + [r], threads := s.threads + [t], next := s.next + 1,
           created := s.created + {t}, joined := false)
    case Enter(t) => s.(ran := s.ran + {t.runnable}, entered := s.entered + {t.id})
    case Finish(t) => s.(ended := s.ended + {t.id}, services := Without(s.services, t.runnable))
    case Stop => s.(stopping := true, interrupted := s.interrupted + Members(s.services))
    case JoinPop =>
      var n := |s.threads|;
      if n == 0 then s else s.(joining := Some(s.threads[n - 1]), threads := s.threads[..n - 1])
    case JoinWait => s.(joining := None)
    case JoinDone => s.(services := [], joined := true)
  }

  function Run(s: State, ops: seq<Op>): State
    decreases |ops|
  {
    if ops == [] then s else Run(Step(s, ops[0]), ops[1..])
  }

  ghost predicate AllowedRun(s: State, ops: seq<Op>)
    decreases |ops|
  {
    ops == [] || (Allowed(s, ops[0]) && AllowedRun(Step(s, ops[0]), ops[1..]))
  }

  const EMPTY: State := State([], [], 0, false, {}, {}, {}, {}, {}, None, false)

  /** Threads the dispatcher still has to join. */
  function Owed(s: State): set<Thread> {
    Members(s.threads) + if s.joining.Some? then {s.joining.value} else {}
  }

  ghost predicate Live(s: State, t: Thread) {
    t in s.created && t.id !in s.ended
  }

  /** Another thread of the same runnable has ended and taken the runnable's
      registration with it. */
  ghost predicate Orphaned(s: State, t: Thread) {
    exists u | u in s.created :: u.runnable == t.runnable && u.id in s.ended
  }

  /** Threads are told apart by their ids, and end only after they have entered. */
  ghost predicate Identified(s: State) {
    && (forall t | t in s.created :: t.id < s.next)
    && (forall t, u | t in s.created && u in s.created && t.id == u.id :: t == u)
    && (forall x | x in s.entered :: x < s.next) && s.ended <= s.entered
    && (forall t | t in s.created && t.id in s.entered :: t.runnable in s.ran)
  }

  /** Live threads are still owed a join. */
  ghost predicate Joinable(s: State) {
    && (forall t | t in Owed(s) :: t in s.created)
    && (forall t | Live(s, t) :: t in Owed(s))
    && (s.joined ==> s.threads == [] && s.joining == None && s.services == [])
  }

  /** A live thread is registered exactly while no other thread of its runnable has
      ended. */
  ghost predicate Registered(s: State) {
    && (forall t | Live(s, t) :: t.runnable in s.services || Orphaned(s, t))
    && (forall t | t in s.created && t.runnable in s.services :: t.id !in s.ended)
  }

  /** Once stopping, the threads that were registered have been interrupted. */
  ghost predicate Interrupting(s: State) {
    && (s.stopping ==> forall t | Live(s, t) :: t.runnable in s.interrupted || Orphaned(s, t))
    && (!s.stopping ==> s.interrupted == {})
  }

  ghost predicate Inv(s: State) {
    Identified(s) && Joinable(s) && Registered(s) && Interrupting(s)
  }

  lemma AddInv(s: State, r: nat)
    requires Inv(s)
    ensures Inv(Step(s, Add(r)))
  {
    if r !in s.ran && !s.stopping {
      AddedJoinable(s, r);
      AddedRegistered(s, r);
    }
  }

  lemma AddedJoinable(s: State, r: nat)
    requires Identified(s) && Joinable(s) && r !in s.ran && !s.stopping
    ensures Identified(Step(s, Add(r))) && Joinable(Step(s, Add(r)))
  {
    assert Owed(Step(s, Add(r))) == Owed(s) + {Thread(s.next, r)};
  }

  lemma AddedRegistered(s: State, r: nat)
    requires Identified(s) && Registered(s) && r !in s.ran && !s.stopping
    ensures Registered(Step(s, Add(r)))
  {
    var s', t := Step(s, Add(r)), Thread(s.next, r);
    forall u | Live(s', u) ensures u.runnable in s'.services || Orphaned(s', u) {
      if u != t && Orphaned(s, u) {
        var x :| x in s.created && x.runnable == u.runnable && x.id in s.ended;
        assert x in s'.created;
      }
    }
  }

  lemma FinishInv(s: State, t: Thread)
    requires Inv(s) && Allowed(s, Finish(t))
    ensures Inv(Step(s, Finish(t)))
  {
    hide Inv;
    InvParts(s);
    var s' := Step(s, Finish(t));
    assert Owed(s') == Owed(s);
    assert Joinable(s');
    assert Identified(s');
    FinishedRegistered(s, t);
    FinishedInterrupting(s, t);
    InvWhole(s');
  }

  lemma InvParts(s: State)
    requires Inv(s)
    ensures Identified(s) && Joinable(s) && Registered(s) && Interrupting(s)
  {
  }

  lemma InvWhole(s: State)
    requires Identified(s) && Joinable(s) && Registered(s) && Interrupting(s)
    ensures Inv(s)
  {
  }

  lemma OrphanedStays(s: State, t: Thread, u: Thread)
    requires t in s.created
    ensures Orphaned(s, u) || u.runnable == t.runnable ==> Orphaned(Step(s, Finish(t)), u)
  {
  }

  lemma FinishedRegistered(s: State, t: Thread)
    requires Registered(s) && Identified(s) && Allowed(s, Finish(t))
    ensures Registered(Step(s, Finish(t)))
  {
    hide Orphaned;
    var s' := Step(s, Finish(t));
    forall u | Live(s', u) ensures u.runnable in s'.services || Orphaned(s', u) {
      assert Live(s, u);
      OrphanedStays(s, t, u);
    }
  }

  lemma FinishedInterrupting(s: State, t: Thread)
    requires Interrupting(s) && Allowed(s, Finish(t))
    ensures Interrupting(Step(s, Finish(t)))
  {
    hide Orphaned;
    var s' := Step(s, Finish(t));
    forall u | Live(s', u) && s'.stopping ensures u.runnable in s'.interrupted || Orphaned(s', u) {
      assert Live(s, u);
      OrphanedStays(s, t, u);
    }
  }

  lemma JoinInv(s: State, op: Op)
    requires Inv(s) && Allowed(s, op) && (op.JoinPop? || op.JoinWait? || op.JoinDone?)
    ensures Inv(Step(s, op))
  {
    hide Orphaned, Inv;
    var s' := Step(s, op);
    InvParts(s);
    SameLiving(s, s');
    JoinedJoinable(s, op);
    JoinedRegistered(s, op);
    InvWhole(s');
  }

  lemma JoinedJoinable(s: State, op: Op)
    requires Identified(s) && Joinable(s) && Allowed(s, op) && (op.JoinPop? || op.JoinWait? || op.JoinDone?)
    ensures Identified(Step(s, op)) && Joinable(Step(s, op))
  {
    var s' := Step(s, op);
    if op.JoinPop? {
      var n := |s.threads|;
      assert s.threads == s.threads[..n - 1] + [s.threads[n - 1]];
      assert Owed(s') == Owed(s);
    }
    forall t | Live(s', t) ensures t in Owed(s') {
      assert Live(s, t);
    }
  }

  lemma JoinedRegistered(s: State, op: Op)
    requires Joinable(s) && Registered(s) && Interrupting(s)
    requires Allowed(s, op) && (op.JoinPop? || op.JoinWait? || op.JoinDone?)
    ensures Registered(Step(s, op)) && Interrupting(Step(s, op))
  {
    hide Orphaned;
    SameLiving(s, Step(s, op));
    assert op.JoinDone? ==> Owed(s) == {};
  }

  lemma EnterStopInv(s: State, op: Op)
    requires Inv(s) && Allowed(s, op) && (op.Enter? || op.Stop?)
    ensures Inv(Step(s, op))
  {
    hide Orphaned;
    var s' := Step(s, op);
    SameLiving(s, s');
    assert Owed(s') == Owed(s);
    assert op.Enter? ==> forall u | u in s.created && u.id == op.t.id :: u == op.t;
  }

  lemma StepInv(s: State, op: Op)
    requires Inv(s) && Allowed(s, op)
    ensures Inv(Step(s, op))
  {
    hide Inv, Step;
    match op
    case Add(r) => AddInv(s, r);
    case Finish(t) => FinishInv(s, t);
    case Enter(_) => EnterStopInv(s, op);
    case Stop => EnterStopInv(s, op);
    case _ => JoinInv(s, op);
  }

  lemma SameLiving(s: State, s': State)
    requires s'.created == s.created && s'.ended == s.ended
    ensures forall t :: (Live(s', t) <==> Live(s, t)) && (Orphaned(s', t) <==> Orphaned(s, t))
  {
  }

  /** Of the live threads, exactly the orphaned ones are not registered. */
  lemma RegisteredIff(s: State, t: Thread)
    requires Inv(s) && Live(s, t)
    ensures t.runnable in s.services <==> !Orphaned(s, t)
  {
  }

  lemma {:induction false} RunInv(s: State, ops: seq<Op>)
    requires Inv(s) && AllowedRun(s, ops)
    ensures Inv(Run(s, ops))
    decreases |ops|
  {
    hide Inv, Step, Allowed;
    if ops != [] {
      StepInv(s, ops[0]);
      RunInv(Step(s, ops[0]), ops[1..]);
    }
  }

  lemma EmptyInv()
    ensures Inv(EMPTY)
  {
  }

  function Pops(ops: seq<Op>): nat {
    if ops == [] then 0 else (if ops[0].JoinPop? then 1 else 0) + Pops(ops[1..])
  }

  /** After a stop nothing is added: the thread list shrinks by one with every
      round of the join loop and never grows, in every interleaving. */
  lemma {:induction false} StoppedRun(s: State, ops: seq<Op>)
    requires s.stopping && AllowedRun(s, ops)
    ensures var s' := Run(s, ops);
            && s'.stopping && Members(s'.services) <= Members(s.services)
            && |s'.threads| + Pops(ops) == |s.threads| && s'.threads == s.threads[..|s'.threads|]
    decreases |ops|
  {
    if ops != [] {
      var s1 := Step(s, ops[0]);
      assert s1.stopping && Members(s1.services) <= Members(s.services);
      StoppedRun(s1, ops[1..]);
    }
  }

  /** Which threads the first stop of a run reaches: a live thread is interrupted
      exactly when no other thread of its runnable has ended before. */
  lemma StopReachesIff(history: seq<Op>, t: Thread)
    requires AllowedRun(EMPTY, history) && Allowed(Run(EMPTY, history), Stop)
    requires !Run(EMPTY, history).stopping && Live(Run(EMPTY, history), t)
    ensures t.runnable in Step(Run(EMPTY, history), Stop).interrupted <==> !Orphaned(Run(EMPTY, history), t)
  {
    hide Run, AllowedRun, Orphaned, Inv;
    EmptyInv();
    RunInv(EMPTY, history);
    RegisteredIff(Run(EMPTY, history), t);
    InvParts(Run(EMPTY, history));
  }

  /** No runnable has two threads. */
  ghost predicate OneThreadEach(s: State) {
    forall t, u | t in s.created && u in s.created && t.runnable == u.runnable :: t == u
  }

  /** No addition is of a runnable that is registered and has not been entered. */
  ghost predicate AddsOnce(s: State, ops: seq<Op>)
    decreases |ops|
  {
    ops == [] || ((ops[0].Add? ==> ops[0].r in s.ran || ops[0].r !in s.services) && AddsOnce(Step(s, ops[0]), ops[1..]))
  }

  lemma {:induction false} OnceEach(s: State, ops: seq<Op>)
    requires Inv(s) && OneThreadEach(s) && AllowedRun(s, ops) && AddsOnce(s, ops)
    ensures OneThreadEach(Run(s, ops))
    decreases |ops|
  {
    hide Inv;
    if ops != [] {
      StepInv(s, ops[0]);
      if ops[0].Add? {
        NewRunnable(s, ops[0].r);
      }
      OnceEach(Step(s, ops[0]), ops[1..]);
    }
  }

  /** A runnable that has neither run nor is registered has no thread. */
  lemma NewRunnable(s: State, r: nat)
    requires Inv(s)
    ensures r in s.ran || r in s.services || forall t | t in s.created :: t.runnable != r
  {
    forall t | t in s.created && t.runnable == r
      ensures r in s.ran || r in s.services
    {
      if t.id !in s.ended && r !in s.services {
        assert Live(s, t);
        var u :| u in s.created && u.runnable == r && u.id in s.ended;
      }
    }
  }

  /** Shutdown. From any reachable state a stop interrupts every thread that has
      not ended, except a second thread of a runnable whose first has ended; no
      later addition succeeds; the join loop takes exactly the threads registered
      at the stop, one a round, so it ends; and when it has ended both lists are
      empty and stay so. Where no runnable is added again before it has run, there
      is no exception. */
  lemma StopThenJoin(history: seq<Op>, ops: seq<Op>)
    requires AllowedRun(EMPTY, history) && Allowed(Run(EMPTY, history), Stop)
    requires AllowedRun(Step(Run(EMPTY, history), Stop), ops)
    ensures var s := Step(Run(EMPTY, history), Stop);
            var s' := Run(s, ops);
            && (forall t | t in Owed(s) :: t.id in s.ended || t.runnable in s.interrupted || Orphaned(s, t))
            && (AddsOnce(EMPTY, history) ==>
                forall t | t in Owed(s) :: t.id in s.ended || t.runnable in s.interrupted)
            && (forall r :: Step(s', Add(r)) == s')
            && Pops(ops) + |s'.threads| == |s.threads|
            && (forall t | t in Owed(s') :: t.id in s'.ended || t.runnable in s'.interrupted || Orphaned(s', t))
            && (s'.joined ==> s'.services == [] && s'.threads == [])
  {
    hide Run, AllowedRun, AddsOnce, Orphaned, Inv;
    var s0 := Run(EMPTY, history);
    var s := Step(s0, Stop);
    EmptyInv();
    RunInv(EMPTY, history);
    StepInv(s0, Stop);
    RunInv(s, ops);
    StoppedRun(s, ops);
    StoppedState(s);
    StoppedState(Run(s, ops));
    if AddsOnce(EMPTY, history) {
      OnceEach(EMPTY, history);
      NoOrphans(s);
    }
  }

  lemma StoppedState(s: State)
    requires Inv(s) && s.stopping
    ensures forall t | t in Owed(s) :: t.id in s.ended || t.runnable in s.interrupted || Orphaned(s, t)
    ensures s.joined ==> s.services == [] && s.threads == []
  {
    hide Orphaned;
    assert forall t | t in Owed(s) :: t.id !in s.ended ==> Live(s, t);
  }

  lemma NoOrphans(s: State)
    requires OneThreadEach(s)
    ensures forall t | t in s.created && t.id !in s.ended :: !Orphaned(s, t)
    ensures Inv(s) ==> forall t | t in Owed(s) :: t.id in s.ended || !Orphaned(s, t)
  {
  }

  ghost predicate Escaped(s: State, t: Thread) {
    s.stopping && Live(s, t) && t.runnable !in s.interrupted
  }

  /** Such an exception: a runnable added twice before it runs, one of its two
      threads ends, and the stop does not reach the other. */
  lemma DoubleAddEscapes()
    ensures exists ops :: AllowedRun(EMPTY, ops) && Escaped(Run(EMPTY, ops), Thread(1, 0))
  {
    var a, b := Thread(0, 0), Thread(1, 0);
    var ops := [Add(0), Add(0), Enter(a), Enter(b), Finish(a), Stop];
    var s2 := State([0, 0], [a, b], 2, false, {}, {}, {a, b}, {}, {}, None, false);
    var s4 := s2.(ran := {0}, entered := {0, 1});
    var s6 := s4.(services := [], ended := {0}, stopping := true);
    hide Run, AllowedRun, Step, Allowed, Escaped;
    AddsTwice(s2);
    EntersTwice(s2, s4);
    FinishThenStop(s4, s6);
    EscapedIs(s6, b);
    RunTwo(EMPTY, Add(0), Add(0), ops[2..]);
    RunTwo(s2, Enter(a), Enter(b), ops[4..]);
    RunTwo(s4, Finish(a), Stop, []);
    RunNone(s6);
    SixOps(ops);
  }

  lemma SixOps(ops: seq<Op>)
    requires |ops| == 6
    ensures ops == [ops[0], ops[1]] + ops[2..] && ops[2..] == [ops[2], ops[3]] + ops[4..]
    ensures ops[4..] == [ops[4], ops[5]] + []
  {
  }

  lemma EscapedIs(s: State, t: Thread)
    requires s.stopping && t in s.created && t.id !in s.ended && t.runnable !in s.interrupted
    ensures Escaped(s, t)
  {
  }

  lemma RunNone(s: State)
    ensures Run(s, []) == s && AllowedRun(s, [])
  {
  }

  lemma AddsTwice(s2: State)
    requires s2 == State([0, 0], [Thread(0, 0), Thread(1, 0)], 2, false, {}, {}, {Thread(0, 0), Thread(1, 0)}, {}, {},
                         None, false)
    ensures Step(Step(EMPTY, Add(0)), Add(0)) == s2
    ensures Allowed(EMPTY, Add(0)) && Allowed(Step(EMPTY, Add(0)), Add(0))
  {
    var s1 := Step(EMPTY, Add(0));
    assert s1.services == [0] && s1.threads == [Thread(0, 0)] && s1.created == {Thread(0, 0)};
  }

  lemma EntersTwice(s2: State, s4: State)
    requires s2.created == {Thread(0, 0), Thread(1, 0)} && s2.entered == {} && s2.ran == {}
    requires s4 == s2.(ran := {0}, entered := {0, 1})
    ensures Step(Step(s2, Enter(Thread(0, 0))), Enter(Thread(1, 0))) == s4
    ensures Allowed(s2, Enter(Thread(0, 0))) && Allowed(Step(s2, Enter(Thread(0, 0))), Enter(Thread(1, 0)))
  {
  }

  lemma FinishThenStop(s4: State, s6: State)
    requires s4.services == [0, 0] && s4.created == {Thread(0, 0), Thread(1, 0)} && s4.entered == {0, 1}
    requires s4.ended == {} && s4.interrupted == {}
    requires s6 == s4.(services := [], ended := {0}, stopping := true)
    ensures Step(Step(s4, Finish(Thread(0, 0))), Stop) == s6
    ensures Allowed(s4, Finish(Thread(0, 0))) && Allowed(Step(s4, Finish(Thread(0, 0))), Stop)
  {
    var s5 := Step(s4, Finish(Thread(0, 0)));
    assert [0, 0][1..] == [0] && [0][1..] == [];
    assert Without([0], 0) == [];
    assert s5.services == [] && Members(s5.services) == {};
  }

  lemma RunTwo(s: State, x: Op, y: Op, rest: seq<Op>)
    ensures Run(s, [x, y] + rest) == Run(Step(Step(s, x), y), rest)
    ensures AllowedRun(s, [x, y] + rest) <==>
            Allowed(s, x) && Allowed(Step(s, x), y) && AllowedRun(Step(Step(s, x), y), rest)
  {
    hide Step, Allowed;
    var ops := [x, y] + rest;
    assert ops[1..] == [y] + rest && ([y] + rest)[1..] == rest;
  }

  /** The join loop can always go on once the interrupted threads end. */
  lemma JoinProgress(s: State)
    requires Inv(s) && (forall t | t in Owed(s) :: t.id in s.ended)
    ensures Allowed(s, JoinWait) || Allowed(s, JoinPop) || Allowed(s, JoinDone)
  {
  }
}

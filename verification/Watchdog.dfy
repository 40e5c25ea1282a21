/** The watchdog's view of a child process: CPU time sampled at every check, and
    the decision that the child has used too much of it for too long. */
module Watchdog {
  import opened Basics

  datatype LimitType = MemoryLimit | UtilizationLimit | RespawnLimit | RespawnDelay | LatencyLimit | Interval

  /** Command-line settings; an override of 0 means none. */
  datatype Flags = Flags(level: int, memory: nat, utilization: nat, latency: nat, cpus: nat)

  function Choose(level: int, normal: nat, restrictive: nat, disabled: nat): nat {
    if level == -1 then disabled else if level == 1 then restrictive else normal
  }

  /** `getWorkerLimit`. */
  function WorkerLimit(f: Flags, l: LimitType): nat {
    match l
    case MemoryLimit => if f.memory > 0 then f.memory else Choose(f.level, 200, 100, 10000)
    case UtilizationLimit => if f.utilization > 0 then f.utilization else Choose(f.level, 10, 5, 100)
    case RespawnLimit => Choose(f.level, 4, 4, 1000)
    case RespawnDelay => Choose(f.level, 5, 5, 1)
    case LatencyLimit => if f.latency > 0 then f.latency else Choose(f.level, 12, 6, 1000)
    case Interval => Choose(f.level, 3, 3, 3)
  }

  function CheckInterval(f: Flags): (n: nat)
    ensures n >= 1
  {
    Max(WorkerLimit(f, Interval), 1)
  }

  /** `cpuUtilizationTimeLimit`, in milliseconds per check. */
  function CpuLimit(f: Flags): nat {
    var percent := WorkerLimit(f, UtilizationLimit);
    ((if percent > 100 then 100 else percent) * (CheckInterval(f) * 1000) * f.cpus) / 100
  }

  /** A process row. When a column is missing, the columns from it on read as 0. */
  datatype Sample = Sample(complete: bool, parent: int, user: nat, system: nat, footprint: nat)

  datatype State = State(sustained: nat, user: nat, system: nat, initialFootprint: nat)

  /** CPU time since the last check, on unsigned 64-bit values. */
  function CpuUse(s: State, r: Sample): nat {
    ((r.user - s.user) + (r.system - s.system)) % TWO64
  }

  function AfterSample(f: Flags, s: State, r: Sample): State {
    var before := if r.complete then s.sustained else 0;
    State(if CpuUse(s, r) > CpuLimit(f) then before + 1 else 0,
          r.user, r.system,
          if s.initialFootprint == 0 then r.footprint else s.initialFootprint)
  }

  function Footprint(s: State, r: Sample): nat {
    var initial := if s.initialFootprint == 0 then r.footprint else s.initialFootprint;
    if r.footprint < initial then 0 else r.footprint - initial
  }

  predicate ExceededCycles(f: Flags, sustained: nat) {
    sustained != 0 && sustained * CheckInterval(f) >= WorkerLimit(f, LatencyLimit)
  }

  predicate ExceededMemory(f: Flags, footprint: nat) {
    footprint != 0 && footprint > WorkerLimit(f, MemoryLimit) * 1024 * 1024
  }

  datatype Verdict = Sane | NotFound | NotOurs | TooMuchCpu | TooMuchMemory

  class Watcher {
    const flags: Flags
    const pid: int
    var sustained: nat
    var user: nat
    var system: nat
    var initialFootprint: nat
    var lastRespawn: nat

    ghost function View(): State
      reads this
    {
      State(sustained, user, system, initialFootprint)
    }

    method ResetWorkerCounters(respawnTime: nat)
      modifies this
      ensures View() == State(0, 0, 0, old(initialFootprint)) && lastRespawn == respawnTime
    {
      sustained, user, system := 0, 0, 0;
      lastRespawn := respawnTime;
    }

    method GetChange(r: Sample) returns (footprint: nat)
      modifies this`sustained, this`user, this`system, this`initialFootprint
      ensures View() == AfterSample(flags, old(View()), r)
      ensures footprint == Footprint(old(View()), r)
    {
      if !r.complete {
        sustained := 0;
      }
      var used := ((r.user - user) + (r.system - system)) % TWO64;
      if used > CpuLimit(flags) {
        sustained := sustained + 1;
      } else {
        sustained := 0;
      }
      user, system := r.user, r.system;
      if initialFootprint == 0 {
        initialFootprint := r.footprint;
      }
      footprint := if r.footprint < initialFootprint then 0 else r.footprint - initialFootprint;
    }

    /** `isChildSane`; a process that is not our child is forgotten, not judged. */
    method IsChildSane(row: Option<Sample>) returns (v: Verdict)
      modifies this
      ensures row.None? ==> v == NotFound && View() == old(View())
      ensures row.Some? ==>
                var s := AfterSample(flags, old(View()), row.value);
                && (v == NotOurs <==> row.value.parent != pid)
                && (v == TooMuchCpu <==> row.value.parent == pid && ExceededCycles(flags, s.sustained))
                && (v == TooMuchMemory <==> row.value.parent == pid && !ExceededCycles(flags, s.sustained)
                                            && ExceededMemory(flags, Footprint(old(View()), row.value)))
                && v != NotFound
                && View() == (if v == NotOurs then State(0, 0, 0, s.initialFootprint) else s)
                && lastRespawn == if v == NotOurs then 0 else old(lastRespawn)
    {
      if row.None? {
        return NotFound;
      }
      var footprint := GetChange(row.value);
      if row.value.parent != pid {
        ResetWorkerCounters(0);
        return NotOurs;
      }
      if ExceededCycles(flags, sustained) {
        return TooMuchCpu;
      }
      if ExceededMemory(flags, footprint) {
        return TooMuchMemory;
      }
      return Sane;
    }
  }

  // ---------------------------------------------------- samples since a reset

  /** The state after the samples since a reset. */
  function After(f: Flags, initial: nat, rs: seq<Sample>): State {
    if rs == [] then State(0, 0, 0, initial)
    else AfterSample(f, After(f, initial, rs[..|rs| - 1]), rs[|rs| - 1])
  }

  /** Total CPU time at the `i`-th sample; none before the first. */
  function CpuAt(rs: seq<Sample>, i: nat): nat
    requires i <= |rs|
  {
    if i == 0 then 0 else rs[i - 1].user + rs[i - 1].system
  }

  ghost predicate NonDecreasing(rs: seq<Sample>) {
    && (forall i | 0 <= i < |rs| :: rs[i].complete && rs[i].user + rs[i].system < TWO64)
    && (forall i | 0 < i < |rs| :: rs[i - 1].user <= rs[i].user && rs[i - 1].system <= rs[i].system)
  }

  /** Samples at the end of the list that each exceeded the limit. */
  function TailRun(limit: nat, rs: seq<Sample>): (k: nat)
    ensures k <= |rs|
  {
    if rs == [] || CpuAt(rs, |rs|) - CpuAt(rs, |rs| - 1) <= limit then 0
    else 1 + TailRun(limit, rs[..|rs| - 1])
  }

  lemma CpuAtPrefix(rs: seq<Sample>, n: nat, i: nat)
    requires i <= n <= |rs|
    ensures CpuAt(rs[..n], i) == CpuAt(rs, i)
  {
  }

  /** The counter is exactly the length of the run of samples over the limit. */
  lemma {:induction false} CounterIsTailRun(f: Flags, initial: nat, rs: seq<Sample>)
    requires NonDecreasing(rs)
    ensures After(f, initial, rs).sustained == TailRun(CpuLimit(f), rs)
    ensures After(f, initial, rs).user + After(f, initial, rs).system == CpuAt(rs, |rs|)
    ensures rs != [] ==> After(f, initial, rs).user == rs[|rs| - 1].user
    ensures rs != [] ==> After(f, initial, rs).system == rs[|rs| - 1].system
  {
    hide CpuLimit, CpuUse, CpuAt;
    if rs == [] {
      assert CpuAt(rs, 0) == 0 by { NoCpu(rs); }
    } else {
      var n := |rs| - 1;
      CounterIsTailRun(f, initial, rs[..n]);
      CpuAtPrefix(rs, n, n);
      var s, r := After(f, initial, rs[..n]), rs[n];
      assert n > 0 ==> rs[..n][n - 1] == rs[n - 1];
      UseIsDifference(s, rs);
    }
  }

  lemma NoCpu(rs: seq<Sample>)
    ensures CpuAt(rs, 0) == 0
  {
  }

  /** Between counters that do not fall the unsigned difference is the difference. */
  lemma UseIsDifference(s: State, rs: seq<Sample>)
    requires NonDecreasing(rs) && rs != [] && s.user + s.system == CpuAt(rs, |rs| - 1)
    requires |rs| > 1 ==> s.user == rs[|rs| - 2].user && s.system == rs[|rs| - 2].system
    ensures CpuUse(s, rs[|rs| - 1]) == CpuAt(rs, |rs|) - CpuAt(rs, |rs| - 1)
    ensures CpuAt(rs, |rs|) == rs[|rs| - 1].user + rs[|rs| - 1].system
  {
    var r := rs[|rs| - 1];
    assert 0 <= (r.user - s.user) + (r.system - s.system) < TWO64;
  }

  /** A run of `k` samples over the limit used more than `k` limits of CPU time. */
  lemma {:induction false} TailRunUses(limit: nat, rs: seq<Sample>)
    ensures var k := TailRun(limit, rs);
            && (forall i | |rs| - k <= i < |rs| :: CpuAt(rs, i + 1) - CpuAt(rs, i) > limit)
            && (k > 0 ==> CpuAt(rs, |rs|) - CpuAt(rs, |rs| - k) > k * limit)
            && (k < |rs| ==> CpuAt(rs, |rs| - k) - CpuAt(rs, |rs| - k - 1) <= limit)
  {
    var k := TailRun(limit, rs);
    if k > 0 {
      var n := |rs| - 1;
      hide CpuAt;
      TailRunUses(limit, rs[..n]);
      forall i: nat | i <= n ensures CpuAt(rs[..n], i) == CpuAt(rs, i) {
        CpuAtPrefix(rs, n, i);
      }
      OneMore(k - 1, limit);
    }
  }

  lemma OneMore(k: nat, limit: nat)
    ensures (k + 1) * limit == k * limit + limit
  {
  }

  /** Too much CPU. Over the samples since a reset, with counters that never fall,
      the watchdog calls the child insane exactly when the run of samples over
      the limit spans the latency limit, and then the child has used more than
      that many limits of CPU time over that window. */
  lemma InsaneMeansSustained(f: Flags, initial: nat, rs: seq<Sample>)
    requires NonDecreasing(rs)
    ensures var k := TailRun(CpuLimit(f), rs);
            && (ExceededCycles(f, After(f, initial, rs).sustained) <==>
                k > 0 && k * CheckInterval(f) >= WorkerLimit(f, LatencyLimit))
            && (ExceededCycles(f, After(f, initial, rs).sustained) ==>
                CpuAt(rs, |rs|) - CpuAt(rs, |rs| - k) > k * CpuLimit(f))
  {
    CounterIsTailRun(f, initial, rs);
    TailRunUses(CpuLimit(f), rs);
  }

  /** A counter that falls is misread: the unsigned difference wraps and the
      sample counts as over any limit the wrapped value exceeds. */
  lemma FallingCounterCounts(f: Flags, s: State, r: Sample)
    requires r.complete && r.user + r.system < s.user + s.system <= r.user + r.system + TWO64 - CpuLimit(f) - 1
    requires CpuLimit(f) + 1 < TWO64
    ensures AfterSample(f, s, r).sustained == s.sustained + 1
  {
    hide CpuLimit;
    var d := (r.user - s.user) + (r.system - s.system);
    assert 0 - TWO64 <= d < 0;
    assert d % TWO64 == d + TWO64;
  }

  /** The table of limits: level 1 is restrictive, -1 is off, any other is normal.
      Three of them can be overridden by a positive flag. */
  lemma LimitTable(f: Flags)
    ensures var column := if f.level == -1 then 2 else if f.level == 1 then 1 else 0;
            && WorkerLimit(f.(memory := 0), MemoryLimit) == [200, 100, 10000][column]
            && WorkerLimit(f.(utilization := 0), UtilizationLimit) == [10, 5, 100][column]
            && WorkerLimit(f, RespawnLimit) == [4, 4, 1000][column]
            && WorkerLimit(f, RespawnDelay) == [5, 5, 1][column]
            && WorkerLimit(f.(latency := 0), LatencyLimit) == [12, 6, 1000][column]
            && WorkerLimit(f, Interval) == 3 && CheckInterval(f) == 3
    ensures f.memory > 0 ==> WorkerLimit(f, MemoryLimit) == f.memory
    ensures f.utilization > 0 ==> WorkerLimit(f, UtilizationLimit) == f.utilization
    ensures f.latency > 0 ==> WorkerLimit(f, LatencyLimit) == f.latency
  {
  }

  /** The CPU time allowed per check: thirty milliseconds for every percent, up to a
      hundred, on every CPU. */
  lemma CpuLimitIs(f: Flags)
    ensures CpuLimit(f) == 30 * Min(WorkerLimit(f, UtilizationLimit), 100) * f.cpus
  {
    hide WorkerLimit;
    LimitTable(f);
    var p := Min(WorkerLimit(f, UtilizationLimit), 100);
    Hundredth(p, f.cpus);
  }

  lemma Hundredth(p: nat, cpus: nat)
    ensures (p * 3000 * cpus) / 100 == 30 * p * cpus
  {
    assert p * 3000 * cpus == 100 * (30 * p * cpus);
  }

  /** Hence by default the CPU verdict falls after four checks in a row with more
      than 300 milliseconds per CPU in each. */
  lemma DefaultVerdict(f: Flags, sustained: nat)
    requires f.level == 0 && f.utilization == 0 && f.latency == 0
    ensures CpuLimit(f) == 300 * f.cpus
    ensures ExceededCycles(f, sustained) <==> sustained >= 4
  {
    hide CpuLimit;
    CpuLimitIs(f);
  }

  /** The memory verdict falls above the limit in mebibytes. */
  lemma MemoryVerdict(f: Flags, footprint: nat)
    requires f.level == 0 && f.memory == 0
    ensures ExceededMemory(f, footprint) <==> footprint > 209715200
  {
  }

  /** A sample with columns missing starts the count again. */
  lemma IncompleteRestarts(f: Flags, s: State, r: Sample)
    requires !r.complete
    ensures AfterSample(f, s, r).sustained == if CpuUse(s, r) > CpuLimit(f) then 1 else 0
  {
    hide CpuLimit, CpuUse;
  }

  /** The first footprint that is not zero: the one kept from before, or that of the
      first sample to have one. */
  function Baseline(initial: nat, rs: seq<Sample>): nat
    decreases |rs|
  {
    if initial != 0 || rs == [] then initial else Baseline(rs[0].footprint, rs[1..])
  }

  lemma {:induction false} BaselineSnoc(initial: nat, rs: seq<Sample>, r: Sample)
    ensures Baseline(initial, rs + [r]) == if Baseline(initial, rs) != 0 then Baseline(initial, rs) else r.footprint
    decreases |rs|
  {
    if initial == 0 {
      if rs == [] {
        assert rs + [r] == [r] && [r][1..] == [];
      } else {
        BaselineSnoc(rs[0].footprint, rs[1..], r);
        assert (rs + [r])[1..] == rs[1..] + [r];
      }
    }
  }

  lemma {:induction false} BaselineKept(f: Flags, initial: nat, rs: seq<Sample>)
    ensures After(f, initial, rs).initialFootprint == Baseline(initial, rs)
  {
    hide CpuLimit, CpuUse;
    if rs != [] {
      var n := |rs| - 1;
      BaselineKept(f, initial, rs[..n]);
      BaselineSnoc(initial, rs[..n], rs[n]);
      assert rs == rs[..n] + [rs[n]];
    }
  }

  /** Memory is judged by its growth over that first footprint, whatever samples came
      in between, and never below nothing. */
  lemma FootprintIsGrowth(f: Flags, initial: nat, rs: seq<Sample>, r: Sample)
    ensures var base := Baseline(initial, rs + [r]);
            Footprint(After(f, initial, rs), r) == Max(r.footprint, base) - base
  {
    hide After;
    BaselineKept(f, initial, rs);
    BaselineSnoc(initial, rs, r);
  }
}

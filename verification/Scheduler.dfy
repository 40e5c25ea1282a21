/** The scheduler's tick loop: drift compensation and which queries a tick runs. */
module Scheduler {

  /** What a tick ends with, in milliseconds. */
  datatype Tick = Tick(pause: nat, drift: nat, abandoned: nat)

  /** `calculateTimeDriftAndMaybePause`. */
  function AfterTick(interval: nat, maxDrift: nat, drift: nat, work: nat): Tick {
    if work + drift < interval then Tick(interval - work - drift, 0, 0)
    else if drift + work - interval > maxDrift then Tick(0, 0, drift + work - interval)
    else Tick(0, drift + work - interval, 0)
  }

  class Runner {
    const interval: nat
    const maxDrift: nat
    var timeDrift: nat

    method CalculateTimeDriftAndMaybePause(work: nat) returns (pause: nat)
      modifies this
      ensures var t := AfterTick(interval, maxDrift, old(timeDrift), work);
              pause == t.pause && timeDrift == t.drift
      ensures timeDrift <= maxDrift
      ensures pause > 0 ==> timeDrift == 0 && work + pause + old(timeDrift) == interval
    {
      pause := 0;
      if work + timeDrift < interval {
        pause := interval - work - timeDrift;
        timeDrift := 0;
      } else {
        timeDrift := timeDrift + work - interval;
        if timeDrift > maxDrift {
          timeDrift := 0;
        }
      }
    }
  }

  /** Drift, elapsed time and drift given up after a run of ticks. */
  datatype Clock = Clock(drift: nat, elapsed: nat, abandoned: nat)

  function Ticks(interval: nat, maxDrift: nat, drift: nat, work: seq<nat>): Clock {
    if work == [] then Clock(drift, 0, 0)
    else
      var c := Ticks(interval, maxDrift, drift, work[..|work| - 1]);
      var w := work[|work| - 1];
      var t := AfterTick(interval, maxDrift, c.drift, w);
      Clock(t.drift, c.elapsed + w + t.pause, c.abandoned + t.abandoned)
  }

  /** Over any run of ticks with exact pauses, the drift stays within its bound
      and accounts for all the time that was not given up: elapsed time is the
      scheduled time plus the change in drift plus the drift abandoned. */
  lemma {:induction false} DriftAccounts(interval: nat, maxDrift: nat, drift: nat, work: seq<nat>)
    requires drift <= maxDrift
    ensures var c := Ticks(interval, maxDrift, drift, work);
            && c.drift <= maxDrift
            && c.elapsed == |work| * interval + c.drift - drift + c.abandoned
  {
    if work != [] {
      var n := |work| - 1;
      DriftAccounts(interval, maxDrift, drift, work[..n]);
      assert |work| * interval == n * interval + interval;
    }
  }

  /** Nothing is abandoned exactly when no tick overran the bound: then the loop
      is never more than `maxDrift` behind its schedule and never ahead. */
  lemma NeverLosesTime(interval: nat, maxDrift: nat, work: seq<nat>)
    requires Ticks(interval, maxDrift, 0, work).abandoned == 0
    ensures var c := Ticks(interval, maxDrift, 0, work);
            |work| * interval <= c.elapsed <= |work| * interval + maxDrift
  {
    DriftAccounts(interval, maxDrift, 0, work);
  }

  /** How far the work of the ticks from `j` to `k` exceeds their intervals. */
  function Lag(interval: nat, work: seq<nat>, j: nat, k: nat): int
    requires j <= k <= |work|
  {
    if j == k then 0 else Lag(interval, work, j, k - 1) + work[k - 1] - interval
  }

  ghost predicate LagsWithin(interval: nat, work: seq<nat>, k: nat, bound: nat)
    requires k <= |work|
  {
    forall j: nat | j <= k :: Lag(interval, work, j, k) <= bound
  }

  /** While nothing is given up, the drift is the largest lag up to the present. */
  ghost predicate LargestLag(interval: nat, work: seq<nat>, k: nat, drift: nat)
    requires k <= |work|
  {
    && (exists j: nat | j <= k :: Lag(interval, work, j, k) == drift)
    && LagsWithin(interval, work, k, drift)
  }

  ghost predicate NoLagOver(interval: nat, maxDrift: nat, work: seq<nat>, n: nat)
    requires n <= |work|
  {
    forall k: nat | k <= n :: LagsWithin(interval, work, k, maxDrift)
  }

  lemma NextLag(interval: nat, maxDrift: nat, work: seq<nat>, k: nat, drift: nat)
    requires 0 < k <= |work| && LargestLag(interval, work, k - 1, drift) && drift <= maxDrift
    ensures var t := AfterTick(interval, maxDrift, drift, work[k - 1]);
            && (t.abandoned == 0 ==> LargestLag(interval, work, k, t.drift))
            && (t.abandoned == 0 <==> LagsWithin(interval, work, k, maxDrift))
  {
    var j: nat :| j <= k - 1 && Lag(interval, work, j, k - 1) == drift;
    assert Lag(interval, work, j, k) == drift + work[k - 1] - interval;
    assert Lag(interval, work, k, k) == 0;
    forall i: nat | i <= k
      ensures Lag(interval, work, i, k) <= if drift + work[k - 1] < interval then 0 else drift + work[k - 1] - interval
    {
      if i < k {
        assert Lag(interval, work, i, k) == Lag(interval, work, i, k - 1) + work[k - 1] - interval;
      }
    }
  }

  lemma {:induction false} GivenUpAt(interval: nat, maxDrift: nat, work: seq<nat>, n: nat)
    requires n <= |work|
    ensures var c := Ticks(interval, maxDrift, 0, work[..n]);
            && (c.abandoned == 0 <==> NoLagOver(interval, maxDrift, work, n))
            && (c.abandoned == 0 ==> LargestLag(interval, work, n, c.drift))
    decreases n
  {
    hide AfterTick, LargestLag, LagsWithin;
    if n == 0 {
      NoLag(interval, work);
    } else {
      GivenUpAt(interval, maxDrift, work, n - 1);
      assert work[..n][..n - 1] == work[..n - 1];
      var c := Ticks(interval, maxDrift, 0, work[..n - 1]);
      DriftAccounts(interval, maxDrift, 0, work[..n - 1]);
      if c.abandoned == 0 {
        NextLag(interval, maxDrift, work, n, c.drift);
      }
    }
  }

  lemma NoLag(interval: nat, work: seq<nat>)
    ensures LargestLag(interval, work, 0, 0) && forall maxDrift :: LagsWithin(interval, work, 0, maxDrift)
  {
    assert Lag(interval, work, 0, 0) == 0;
  }

  /** Drift is given up exactly when somewhere a stretch of ticks has run over its
      intervals by more than the maximum; until then the drift is the largest such
      excess, so nothing is forgotten early. */
  lemma GivenUpIff(interval: nat, maxDrift: nat, work: seq<nat>)
    ensures var c := Ticks(interval, maxDrift, 0, work);
            && (c.abandoned == 0 <==> NoLagOver(interval, maxDrift, work, |work|))
            && (c.abandoned == 0 ==> LargestLag(interval, work, |work|, c.drift))
  {
    GivenUpAt(interval, maxDrift, work, |work|);
    assert work[..|work|] == work;
  }

  // --------------------------------------------------------- who runs when

  datatype Query = Query(name: string, splayed: nat, startup: bool)

  predicate Due(q: Query, i: nat, ran: set<string>) {
    (q.splayed > 0 && i % q.splayed == 0) || (q.startup && q.name !in ran)
  }

  function RanAfter(qs: seq<Query>, i: nat, ran: set<string>): set<string> {
    if qs == [] then ran
    else
      var r := RanAfter(qs[..|qs| - 1], i, ran);
      var q := qs[|qs| - 1];
      if Due(q, i, r) then r + {q.name} else r
  }

  function Launched(qs: seq<Query>, i: nat, ran: set<string>): seq<string> {
    if qs == [] then []
    else
      var q := qs[|qs| - 1];
      Launched(qs[..|qs| - 1], i, ran) + if Due(q, i, RanAfter(qs[..|qs| - 1], i, ran)) then [q.name] else []
  }

  /** The schedule visited at one tick. */
  method RunTick(qs: seq<Query>, i: nat, ran: set<string>) returns (launched: seq<string>, ran': set<string>)
    ensures launched == Launched(qs, i, ran) && ran' == RanAfter(qs, i, ran)
  {
    launched, ran' := [], ran;
    var k := 0;
    while k < |qs|
      invariant k <= |qs|
      invariant launched == Launched(qs[..k], i, ran) && ran' == RanAfter(qs[..k], i, ran)
    {
      assert qs[..k + 1][..k] == qs[..k];
      if Due(qs[k], i, ran') {
        ran' := ran' + {qs[k].name};
        launched := launched + [qs[k].name];
      }
      k := k + 1;
    }
    assert qs[..|qs|] == qs;
  }

  ghost predicate DistinctNames(qs: seq<Query>) {
    forall i, j | 0 <= i < j < |qs| :: qs[i].name != qs[j].name
  }

  /** Names launched before a tick, starting at tick `start`. */
  function RanBefore(qs: seq<Query>, start: nat, ticks: nat): set<string> {
    if ticks == 0 then {} else RanAfter(qs, start + ticks - 1, RanBefore(qs, start, ticks - 1))
  }

  lemma {:induction false} RanMeaning(qs: seq<Query>, i: nat, ran: set<string>, k: nat)
    requires DistinctNames(qs) && k <= |qs|
    ensures forall name :: name in RanAfter(qs[..k], i, ran) <==>
                           name in ran || exists j | 0 <= j < k :: qs[j].name == name && Due(qs[j], i, ran)
    decreases k
  {
    if k > 0 {
      RanMeaning(qs, i, ran, k - 1);
      assert qs[..k][..k - 1] == qs[..k - 1];
      var r := RanAfter(qs[..k - 1], i, ran);
      assert qs[k - 1].name in r <==> qs[k - 1].name in ran;
    }
  }

  /** The names of the queries that are due at the start of a tick, in order. */
  function DueNames(qs: seq<Query>, i: nat, ran: set<string>): seq<string> {
    if qs == [] then []
    else DueNames(qs[..|qs| - 1], i, ran) + if Due(qs[|qs| - 1], i, ran) then [qs[|qs| - 1].name] else []
  }

  /** What a tick launches: exactly the due queries, in schedule order, although
      first runs are recorded while it goes. */
  lemma {:induction false} LaunchedIsDue(qs: seq<Query>, i: nat, ran: set<string>, k: nat)
    requires DistinctNames(qs) && k <= |qs|
    ensures Launched(qs[..k], i, ran) == DueNames(qs[..k], i, ran)
    decreases k
  {
    if k > 0 {
      LaunchedIsDue(qs, i, ran, k - 1);
      assert qs[..k][..k - 1] == qs[..k - 1];
      RanMeaning(qs, i, ran, k - 1);
    }
  }

  lemma {:induction false} DueNamesMember(qs: seq<Query>, i: nat, ran: set<string>, k: nat, n: nat)
    requires DistinctNames(qs) && k < n <= |qs|
    ensures qs[k].name in DueNames(qs[..n], i, ran) <==> Due(qs[k], i, ran)
    decreases n
  {
    assert qs[..n][..n - 1] == qs[..n - 1];
    if k < n - 1 {
      DueNamesMember(qs, i, ran, k, n - 1);
    } else {
      DueNamesAbsent(qs, i, ran, k, n - 1);
    }
  }

  /** Which queries a tick launches: those whose splayed interval divides it, and
      those with a startup priority that have not run yet. */
  lemma LaunchedIff(qs: seq<Query>, i: nat, ran: set<string>, k: nat)
    requires DistinctNames(qs) && k < |qs|
    ensures qs[k].name in Launched(qs, i, ran) <==>
            (qs[k].splayed > 0 && i % qs[k].splayed == 0) || (qs[k].startup && qs[k].name !in ran)
  {
    hide Launched, DueNames;
    LaunchedIsDue(qs, i, ran, |qs|);
    DueNamesMember(qs, i, ran, k, |qs|);
    assert qs[..|qs|] == qs;
  }

  lemma {:induction false} DueNamesAbsent(qs: seq<Query>, i: nat, ran: set<string>, k: nat, n: nat)
    requires DistinctNames(qs) && n <= k < |qs|
    ensures qs[k].name !in DueNames(qs[..n], i, ran)
    decreases n
  {
    if n > 0 {
      assert qs[..n][..n - 1] == qs[..n - 1];
      DueNamesAbsent(qs, i, ran, k, n - 1);
    }
  }

  /** A query with a startup priority is launched at the very first tick, and from
      then on exactly at the multiples of its splayed interval. */
  lemma {:induction false} StartupRunsOnce(qs: seq<Query>, start: nat, ticks: nat, k: nat)
    requires DistinctNames(qs) && k < |qs| && qs[k].startup && ticks > 0
    ensures qs[k].name in Launched(qs, start, RanBefore(qs, start, 0))
    ensures qs[k].name in RanBefore(qs, start, ticks)
    ensures qs[k].name in Launched(qs, start + ticks, RanBefore(qs, start, ticks)) <==>
            qs[k].splayed > 0 && (start + ticks) % qs[k].splayed == 0
  {
    hide Launched;
    LaunchedIff(qs, start, RanBefore(qs, start, 0), k);
    LaunchedIff(qs, start + ticks, RanBefore(qs, start, ticks), k);
    var ran := RanBefore(qs, start, ticks - 1);
    RanMeaning(qs, start + ticks - 1, ran, |qs|);
    assert qs[..|qs|] == qs;
    if ticks > 1 {
      StartupRunsOnce(qs, start, ticks - 1, k);
    }
  }

  /** Over any run of ticks, a query without a startup priority is launched exactly
      at the multiples of its splayed interval. */
  lemma PlainRunsOnInterval(qs: seq<Query>, start: nat, ticks: nat, k: nat)
    requires DistinctNames(qs) && k < |qs| && !qs[k].startup
    ensures qs[k].name in Launched(qs, start + ticks, RanBefore(qs, start, ticks)) <==>
            qs[k].splayed > 0 && (start + ticks) % qs[k].splayed == 0
  {
    LaunchedIff(qs, start + ticks, RanBefore(qs, start, ticks), k);
  }

  /** What a tick records: every name launched so far, and no other. */
  lemma RanIsLaunched(qs: seq<Query>, i: nat, ran: set<string>, name: string)
    requires DistinctNames(qs)
    ensures name in RanAfter(qs, i, ran) <==> name in ran || name in Launched(qs, i, ran)
  {
    hide Launched, RanAfter, Due;
    RanMeaning(qs, i, ran, |qs|);
    assert qs[..|qs|] == qs;
    if name in Launched(qs, i, ran) {
      LaunchedIsDue(qs, i, ran, |qs|);
      DueNamesKnown(qs, i, ran, name);
    }
    forall k | 0 <= k < |qs| && qs[k].name == name ensures name in Launched(qs, i, ran) <==> Due(qs[k], i, ran) {
      LaunchedIsDue(qs, i, ran, |qs|);
      DueNamesMember(qs, i, ran, k, |qs|);
    }
  }

  lemma {:induction false} DueNamesKnown(qs: seq<Query>, i: nat, ran: set<string>, name: string)
    requires name in DueNames(qs, i, ran)
    ensures exists k | 0 <= k < |qs| :: qs[k].name == name
  {
    var n := |qs| - 1;
    if name in DueNames(qs[..n], i, ran) {
      DueNamesKnown(qs[..n], i, ran, name);
      var k :| 0 <= k < |qs[..n]| && qs[..n][k].name == name;
      assert qs[k].name == name;
    } else {
      assert qs[n].name == name;
    }
  }
}

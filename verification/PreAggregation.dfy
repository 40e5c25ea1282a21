/** The pre-aggregation cache of numeric monitoring: points on one path merge
    while their type allows it. */
module PreAggregation {
  import opened Basics

  datatype Kind = Plain | Sum | Min | Max | Avg | Stddev | P10 | P50 | P95 | P99 | InvalidUpperLimit

  datatype Point = Point(path: string, value: int, kind: Kind, time: int)

  predicate Mergeable(k: Kind) {
    k == Sum || k == Min || k == Max
  }

  function Combine(k: Kind, a: int, b: int): int {
    match k
    case Sum => a + b
    case Min => if b < a then b else a
    case Max => if a < b then b else a
    case _ => a
  }

  datatype Attempt = Attempt(merged: bool, point: Point)

  /** `Point::tryToAggregate`: whether `q` merged into `p`, and `p` afterwards.
      Contrary to its comment, the time moves on whenever path and type agree. */
  function TryToAggregate(p: Point, q: Point): Attempt {
    if p.path != q.path || p.kind != q.kind then Attempt(false, p)
    else
      var p' := p.(time := if p.time < q.time then q.time else p.time);
      if Mergeable(p.kind) then Attempt(true, p'.(value := Combine(p.kind, p.value, q.value)))
      else Attempt(false, p')
  }

  lemma AttemptMeaning(p: Point, q: Point)
    ensures TryToAggregate(p, q).merged <==> p.path == q.path && p.kind == q.kind && p.kind in {Sum, Min, Max}
    ensures var p' := TryToAggregate(p, q).point;
            && p'.path == p.path && p'.kind == p.kind && (!TryToAggregate(p, q).merged ==> p'.value == p.value)
            && p'.time >= p.time && (p'.time == p.time || p'.time == q.time)
            && (p'.time >= q.time <==> (p.path == q.path && p.kind == q.kind) || p.time >= q.time)
  {
  }

  datatype Cache = Cache(points: seq<Point>, index: map<string, nat>)

  /** The index names the last cached point of each path. */
  ghost predicate Indexed(c: Cache) {
    && (forall path | path in c.index ::
          && c.index[path] < |c.points| && c.points[c.index[path]].path == path
          && forall i | c.index[path] < i < |c.points| :: c.points[i].path != path)
    && (forall i | 0 <= i < |c.points| :: c.points[i].path in c.index)
  }

  function Append(c: Cache, q: Point): Cache {
    Cache(c.points + [q], c.index[q.path := |c.points|])
  }

  function Insert(c: Cache, q: Point): Cache
    requires q.path in c.index ==> c.index[q.path] < |c.points|
  {
    if q.path !in c.index then Append(c, q)
    else
      var i := c.index[q.path];
      var a := TryToAggregate(c.points[i], q);
      var c' := c.(points := c.points[i := a.point]);
      if a.merged then c' else Append(c', q)
  }

  class PreAggregationCache {
    var points: seq<Point>
    var index: map<string, nat>

    ghost function View(): Cache
      reads this
    {
      Cache(points, index)
    }

    method AddPoint(q: Point)
      requires Indexed(View())
      modifies this
      ensures Indexed(View())
      ensures View() == Insert(old(View()), q)
    {
      AddKeepsIndex(View(), q);
      if q.path !in index {
        index := index[q.path := |points|];
        points := points + [q];
      } else {
        var i := index[q.path];
        var a := TryToAggregate(points[i], q);
        points := points[i := a.point];
        if !a.merged {
          index := index[q.path := |points|];
          points := points + [q];
        }
      }
    }

    method TakePoints() returns (taken: seq<Point>)
      modifies this
      ensures taken == old(points) && View() == Cache([], map[]) && Indexed(View())
    {
      taken := points;
      points := [];
      index := map[];
    }
  }

  lemma AddKeepsIndex(c: Cache, q: Point)
    requires Indexed(c)
    ensures Indexed(Insert(c, q))
  {
    hide Indexed, Append, Combine;
    IndexInRange(c, q.path);
    if q.path !in c.index {
      AppendIndexed(c, q);
    } else {
      var i := c.index[q.path];
      var a := TryToAggregate(c.points[i], q);
      UpdateIndexed(c, i, a.point);
      AppendIndexed(c.(points := c.points[i := a.point]), q);
    }
  }

  lemma IndexInRange(c: Cache, path: string)
    requires Indexed(c)
    ensures path in c.index ==> c.index[path] < |c.points|
  {
  }

  lemma AppendIndexed(c: Cache, q: Point)
    requires Indexed(c)
    ensures Indexed(Append(c, q))
  {
  }

  lemma UpdateIndexed(c: Cache, i: nat, p: Point)
    requires Indexed(c) && i < |c.points| && p.path == c.points[i].path
    ensures Indexed(c.(points := c.points[i := p]))
  {
    var ps := c.points[i := p];
    assert forall j | 0 <= j < |ps| :: ps[j].path == c.points[j].path;
  }

  // ------------------------------------------------------------------ runs

  datatype Op = Add(point: Point) | Take

  /** A cache with everything added so far and everything taken so far. */
  datatype World = World(cache: Cache, added: seq<Point>, taken: seq<Point>)

  function Step(w: World, op: Op): World
    requires Indexed(w.cache)
  {
    match op
    case Add(q) => w.(cache := Insert(w.cache, q), added := w.added + [q])
    case Take => w.(cache := Cache([], map[]), taken := w.taken + w.cache.points)
  }

  lemma StepKeepsIndex(w: World, op: Op)
    requires Indexed(w.cache)
    ensures Indexed(Step(w, op).cache)
  {
    if op.Add? {
      AddKeepsIndex(w.cache, op.point);
    }
  }

  ghost function Run(w: World, ops: seq<Op>): (w': World)
    requires Indexed(w.cache)
    ensures Indexed(w'.cache)
    decreases |ops|
  {
    if ops == [] then w
    else
      StepKeepsIndex(w, ops[0]);
      Run(Step(w, ops[0]), ops[1..])
  }

  function Join(k: Kind, a: Option<int>, b: Option<int>): Option<int> {
    if a.None? then b else if b.None? then a else Some(Combine(k, a.value, b.value))
  }

  /** Sum, minimum or maximum over the points of one path and type. */
  function Fold(ps: seq<Point>, path: string, k: Kind): Option<int> {
    if ps == [] then None
    else Join(k, if ps[0].path == path && ps[0].kind == k then Some(ps[0].value) else None, Fold(ps[1..], path, k))
  }

  lemma JoinLaws(k: Kind, a: Option<int>, b: Option<int>, c: Option<int>)
    requires Mergeable(k)
    ensures Join(k, a, b) == Join(k, b, a)
    ensures Join(k, Join(k, a, b), c) == Join(k, a, Join(k, b, c))
  {
  }

  lemma {:induction false} FoldConcat(a: seq<Point>, b: seq<Point>, path: string, k: Kind)
    requires Mergeable(k)
    ensures Fold(a + b, path, k) == Join(k, Fold(a, path, k), Fold(b, path, k))
  {
    hide Combine, Join;
    if a == [] {
      assert a + b == b;
      JoinNone(k, Fold(b, path, k));
    } else {
      FoldConcat(a[1..], b, path, k);
      assert (a + b)[1..] == a[1..] + b;
      var head := if a[0].path == path && a[0].kind == k then Some(a[0].value) else None;
      JoinLaws(k, head, Fold(a[1..], path, k), Fold(b, path, k));
    }
  }

  lemma JoinNone(k: Kind, a: Option<int>)
    ensures Join(k, None, a) == a && Join(k, a, None) == a
  {
  }

  lemma FoldOne(p: Point, path: string, k: Kind)
    ensures Fold([p], path, k) == if p.path == path && p.kind == k then Some(p.value) else None
  {
    assert [p][1..] == [];
  }

  /** Replacing one point changes the fold through that point only. */
  lemma FoldUpdate(ps: seq<Point>, i: nat, p: Point, extra: Option<int>, path: string, k: Kind)
    requires Mergeable(k) && i < |ps|
    requires Fold([p], path, k) == Join(k, Fold([ps[i]], path, k), extra)
    ensures Fold(ps[i := p], path, k) == Join(k, Fold(ps, path, k), extra)
  {
    hide Fold, Combine, Join;
    var a, b := ps[..i], ps[i + 1..];
    assert ps == a + ([ps[i]] + b) && ps[i := p] == a + ([p] + b);
    FoldConcat(a, [ps[i]] + b, path, k);
    FoldConcat([ps[i]], b, path, k);
    FoldConcat(a, [p] + b, path, k);
    FoldConcat([p], b, path, k);
    var fa, fi, fb := Fold(a, path, k), Fold([ps[i]], path, k), Fold(b, path, k);
    JoinLaws(k, fi, extra, fb);
    JoinLaws(k, extra, fb, None);
    JoinLaws(k, fi, fb, extra);
    JoinLaws(k, fa, Join(k, fi, fb), extra);
  }

  /** Adding a point adds its value to its own fold and to no other. */
  lemma AddFolds(c: Cache, q: Point, path: string, k: Kind)
    requires Indexed(c) && Mergeable(k)
    ensures Fold(Insert(c, q).points, path, k) == Join(k, Fold(c.points, path, k), Fold([q], path, k))
  {
    hide Fold, Combine;
    FoldOne(q, path, k);
    if q.path !in c.index {
      FoldConcat(c.points, [q], path, k);
    } else {
      var i := c.index[q.path];
      var a := TryToAggregate(c.points[i], q);
      var ps := c.points[i := a.point];
      FoldOne(c.points[i], path, k);
      FoldOne(a.point, path, k);
      FoldUpdate(c.points, i, a.point, if a.merged then Fold([q], path, k) else None, path, k);
      FoldConcat(ps, [q], path, k);
    }
  }

  /** Points that never merge, without their times. */
  function Unmerged(ps: seq<Point>): seq<(string, int, Kind)> {
    if ps == [] then [] else UnmergedPoint(ps[0]) + Unmerged(ps[1..])
  }

  function UnmergedPoint(p: Point): seq<(string, int, Kind)> {
    if Mergeable(p.kind) then [] else [(p.path, p.value, p.kind)]
  }

  lemma UnmergedCons(p: Point, ps: seq<Point>)
    ensures Unmerged([p] + ps) == UnmergedPoint(p) + Unmerged(ps)
  {
    assert ([p] + ps)[1..] == ps;
  }

  lemma {:induction false} UnmergedConcat(a: seq<Point>, b: seq<Point>)
    ensures Unmerged(a + b) == Unmerged(a) + Unmerged(b)
  {
    hide Unmerged, UnmergedPoint;
    if a == [] {
      UnmergedEmpty();
      assert a + b == b;
    } else {
      UnmergedConcat(a[1..], b);
      UnmergedCons(a[0], a[1..] + b);
      UnmergedCons(a[0], a[1..]);
      Associative(UnmergedPoint(a[0]), Unmerged(a[1..]), Unmerged(b));
      assert [a[0]] + a[1..] == a && [a[0]] + (a[1..] + b) == a + b;
    }
  }

  lemma UnmergedEmpty()
    ensures Unmerged([]) == []
  {
  }

  lemma {:induction false} UnmergedUpdate(ps: seq<Point>, i: nat, p: Point)
    requires i < |ps| && p.path == ps[i].path && p.kind == ps[i].kind && (Mergeable(p.kind) || p.value == ps[i].value)
    ensures Unmerged(ps[i := p]) == Unmerged(ps)
  {
    if i > 0 {
      UnmergedUpdate(ps[1..], i - 1, p);
      assert ps[i := p][1..] == ps[1..][i - 1 := p];
    } else {
      assert ps[i := p][1..] == ps[1..];
    }
  }

  lemma AddUnmerged(c: Cache, q: Point)
    requires Indexed(c)
    ensures Unmerged(Insert(c, q).points) == Unmerged(c.points) + Unmerged([q])
  {
    hide Combine, Unmerged;
    if q.path !in c.index {
      UnmergedConcat(c.points, [q]);
    } else {
      var i := c.index[q.path];
      var a := TryToAggregate(c.points[i], q);
      UnmergedUpdate(c.points, i, a.point);
      UnmergedConcat(c.points[i := a.point], [q]);
      if a.merged {
        NoneUnmerged(q);
      }
    }
  }

  lemma NoneUnmerged(q: Point)
    requires Mergeable(q.kind)
    ensures Unmerged([q]) == []
  {
    assert [q][1..] == [];
  }

  /** What has left the cache and what is still in it. */
  function All(w: World): seq<Point> {
    w.taken + w.cache.points
  }

  ghost predicate Conserved(w: World) {
    && (forall path, k | Mergeable(k) :: Fold(All(w), path, k) == Fold(w.added, path, k))
    && Unmerged(All(w)) == Unmerged(w.added)
  }

  lemma StepConserves(w: World, op: Op)
    requires Indexed(w.cache) && Conserved(w)
    ensures Conserved(Step(w, op))
  {
    hide Fold, Unmerged, Join, Insert;
    var w' := Step(w, op);
    match op
    case Take =>
      assert All(w') == All(w);
    case Add(q) =>
      forall path, k | Mergeable(k)
        ensures Fold(All(w'), path, k) == Fold(w'.added, path, k)
      {
        FoldConcat(w.taken, w.cache.points, path, k);
        FoldConcat(w.taken, w'.cache.points, path, k);
        AddFolds(w.cache, q, path, k);
        JoinLaws(k, Fold(w.taken, path, k), Fold(w.cache.points, path, k), Fold([q], path, k));
        FoldConcat(w.added, [q], path, k);
      }
      UnmergedConcat(w.taken, w.cache.points);
      UnmergedConcat(w.taken, w'.cache.points);
      AddUnmerged(w.cache, q);
      UnmergedConcat(w.added, [q]);
  }

  lemma {:induction false} RunConserves(w: World, ops: seq<Op>)
    requires Indexed(w.cache) && Conserved(w)
    ensures Conserved(Run(w, ops)) && Indexed(Run(w, ops).cache)
    decreases |ops|
  {
    hide Conserved, Step;
    if ops != [] {
      StepKeepsIndex(w, ops[0]);
      StepConserves(w, ops[0]);
      RunConserves(Step(w, ops[0]), ops[1..]);
    }
  }

  // ------------------------------------------------- what the folds amount to

  /** The values of the points of one path and type, in order. */
  function Values(ps: seq<Point>, path: string, k: Kind): seq<int> {
    if ps == [] then []
    else (if ps[0].path == path && ps[0].kind == k then [ps[0].value] else []) + Values(ps[1..], path, k)
  }

  function Total(vs: seq<int>): int {
    if vs == [] then 0 else vs[0] + Total(vs[1..])
  }

  ghost predicate Smallest(v: int, vs: seq<int>) {
    v in vs && forall x | x in vs :: v <= x
  }

  ghost predicate Largest(v: int, vs: seq<int>) {
    v in vs && forall x | x in vs :: x <= v
  }

  /** A fold is the total, the smallest or the largest of the values, and there is
      none exactly where there are no values. */
  lemma {:induction false} FoldMeaning(ps: seq<Point>, path: string, k: Kind)
    requires Mergeable(k)
    ensures var f, vs := Fold(ps, path, k), Values(ps, path, k);
            && (f.None? <==> vs == [])
            && (f.Some? && k == Sum ==> f.value == Total(vs))
            && (f.Some? && k == Min ==> Smallest(f.value, vs))
            && (f.Some? && k == Max ==> Largest(f.value, vs))
  {
    if ps != [] {
      FoldMeaning(ps[1..], path, k);
      var vs := Values(ps[1..], path, k);
      if ps[0].path == path && ps[0].kind == k {
        ValuesCons(ps[0].value, vs);
      } else {
        assert [] + vs == vs;
      }
    }
  }

  lemma ValuesCons(v: int, vs: seq<int>)
    ensures Total([v] + vs) == v + Total(vs) && Total([]) == 0
    ensures forall x :: x in [v] + vs <==> x == v || x in vs
  {
    assert ([v] + vs)[1..] == vs;
  }

  /** Each point with its time for a value, under one type for all. */
  function Clocked(ps: seq<Point>): (r: seq<Point>)
    ensures |r| == |ps| && forall i | 0 <= i < |ps| :: r[i] == Clock(ps[i])
  {
    seq(|ps|, i requires 0 <= i < |ps| => Clock(ps[i]))
  }

  function Clock(p: Point): Point {
    Point(p.path, p.time, Max, 0)
  }

  lemma ClockedConcat(a: seq<Point>, b: seq<Point>)
    ensures Clocked(a + b) == Clocked(a) + Clocked(b)
  {
  }

  lemma ClockedUpdate(ps: seq<Point>, i: nat, p: Point)
    requires i < |ps|
    ensures Clocked(ps[i := p]) == Clocked(ps)[i := Clock(p)]
  {
  }

  lemma JoinSame(a: Option<int>, b: Option<int>)
    ensures Join(Max, Join(Max, a, b), b) == Join(Max, a, b)
  {
  }

  /** What a merge or a mere meeting does to the time of the older point. */
  lemma AttemptClock(p: Point, q: Point, path: string)
    requires p.path == q.path
    ensures Fold([Clock(TryToAggregate(p, q).point)], path, Max) ==
            Join(Max, Fold([Clock(p)], path, Max), if p.kind == q.kind then Fold([Clock(q)], path, Max) else None)
  {
    FoldOne(Clock(p), path, Max);
    FoldOne(Clock(q), path, Max);
    FoldOne(Clock(TryToAggregate(p, q).point), path, Max);
  }

  /** Adding a point brings its time into the latest of its own path only. */
  lemma AddClocks(c: Cache, q: Point, path: string)
    requires Indexed(c)
    ensures Fold(Clocked(Insert(c, q).points), path, Max) ==
            Join(Max, Fold(Clocked(c.points), path, Max), Fold([Clock(q)], path, Max))
  {
    hide Fold, Join, Clocked;
    ClockedOne(q);
    if q.path !in c.index {
      ClockedConcat(c.points, [q]);
      FoldConcat(Clocked(c.points), [Clock(q)], path, Max);
    } else {
      var i := c.index[q.path];
      var p, a := c.points[i], TryToAggregate(c.points[i], q);
      var extra := if p.kind == q.kind then Fold([Clock(q)], path, Max) else None;
      var ps := c.points[i := a.point];
      ClockedUpdate(c.points, i, a.point);
      ClockedAt(c.points, i);
      AttemptClock(p, q, path);
      FoldUpdate(Clocked(c.points), i, Clock(a.point), extra, path, Max);
      ClockedConcat(ps, [q]);
      FoldConcat(Clocked(ps), [Clock(q)], path, Max);
      JoinSame(Fold(Clocked(c.points), path, Max), Fold([Clock(q)], path, Max));
      JoinNone(Max, Fold(Clocked(c.points), path, Max));
    }
  }

  lemma ClockedOne(q: Point)
    ensures Clocked([q]) == [Clock(q)]
  {
  }

  lemma ClockedAt(ps: seq<Point>, i: nat)
    requires i < |ps|
    ensures |Clocked(ps)| == |ps| && Clocked(ps)[i] == Clock(ps[i])
  {
  }

  ghost predicate ClockConserved(w: World) {
    forall path :: Fold(Clocked(All(w)), path, Max) == Fold(Clocked(w.added), path, Max)
  }

  lemma StepClockConserves(w: World, op: Op)
    requires Indexed(w.cache) && ClockConserved(w)
    ensures ClockConserved(Step(w, op))
  {
    hide Fold, Join, Insert, Clocked;
    var w' := Step(w, op);
    match op
    case Take =>
      assert All(w') == All(w);
    case Add(q) =>
      forall path
        ensures Fold(Clocked(All(w')), path, Max) == Fold(Clocked(w'.added), path, Max)
      {
        ClockedConcat(w.taken, w.cache.points);
        ClockedConcat(w.taken, w'.cache.points);
        ClockedConcat(w.added, [q]);
        ClockedOne(q);
        FoldConcat(Clocked(w.taken), Clocked(w.cache.points), path, Max);
        FoldConcat(Clocked(w.taken), Clocked(w'.cache.points), path, Max);
        AddClocks(w.cache, q, path);
        JoinLaws(Max, Fold(Clocked(w.taken), path, Max), Fold(Clocked(w.cache.points), path, Max),
                 Fold([Clock(q)], path, Max));
        FoldConcat(Clocked(w.added), [Clock(q)], path, Max);
      }
  }

  lemma {:induction false} RunClockConserves(w: World, ops: seq<Op>)
    requires Indexed(w.cache) && ClockConserved(w)
    ensures ClockConserved(Run(w, ops))
    decreases |ops|
  {
    hide ClockConserved, Step;
    if ops != [] {
      StepKeepsIndex(w, ops[0]);
      StepClockConserves(w, ops[0]);
      RunClockConserves(Step(w, ops[0]), ops[1..]);
    }
  }

  /** Two lists of points with the same figures for a path: the total of the sums,
      the smallest minimum, the largest maximum, and the latest time. */
  ghost predicate SameFigures(ps: seq<Point>, qs: seq<Point>, path: string) {
    && Total(Values(ps, path, Sum)) == Total(Values(qs, path, Sum))
    && (forall v :: Smallest(v, Values(ps, path, Min)) <==> Smallest(v, Values(qs, path, Min)))
    && (forall v :: Largest(v, Values(ps, path, Max)) <==> Largest(v, Values(qs, path, Max)))
    && (forall t :: Largest(t, Values(Clocked(ps), path, Max)) <==> Largest(t, Values(Clocked(qs), path, Max)))
  }

  lemma SameSums(ps: seq<Point>, qs: seq<Point>, path: string)
    requires Fold(ps, path, Sum) == Fold(qs, path, Sum)
    ensures Total(Values(ps, path, Sum)) == Total(Values(qs, path, Sum))
  {
    hide Fold;
    FoldMeaning(ps, path, Sum);
    FoldMeaning(qs, path, Sum);
  }

  lemma SameSmallest(ps: seq<Point>, qs: seq<Point>, path: string, v: int)
    requires Fold(ps, path, Min) == Fold(qs, path, Min)
    ensures Smallest(v, Values(ps, path, Min)) <==> Smallest(v, Values(qs, path, Min))
  {
    hide Fold, Values;
    FoldMeaning(ps, path, Min);
    FoldMeaning(qs, path, Min);
  }

  lemma SameLargest(ps: seq<Point>, qs: seq<Point>, path: string, v: int)
    requires Fold(ps, path, Max) == Fold(qs, path, Max)
    ensures Largest(v, Values(ps, path, Max)) <==> Largest(v, Values(qs, path, Max))
  {
    hide Fold, Values;
    FoldMeaning(ps, path, Max);
    FoldMeaning(qs, path, Max);
  }

  lemma FiguresOf(w: World, path: string)
    requires Conserved(w) && ClockConserved(w)
    ensures SameFigures(All(w), w.added, path)
  {
    hide Fold, Values, Total, Smallest, Largest, Clocked;
    SameSums(All(w), w.added, path);
    forall v ensures Smallest(v, Values(All(w), path, Min)) <==> Smallest(v, Values(w.added, path, Min)) {
      SameSmallest(All(w), w.added, path, v);
    }
    forall v ensures Largest(v, Values(All(w), path, Max)) <==> Largest(v, Values(w.added, path, Max)) {
      SameLargest(All(w), w.added, path, v);
    }
    forall t
      ensures Largest(t, Values(Clocked(All(w)), path, Max)) <==> Largest(t, Values(Clocked(w.added), path, Max))
    {
      SameLargest(Clocked(All(w)), Clocked(w.added), path, t);
    }
  }

  const EMPTY: World := World(Cache([], map[]), [], [])

  /** Conservation. Over any interleaving of additions and takes, with mixed types
      on one path, the points taken and cached have, path by path, the same total
      of sums, smallest minimum, largest maximum and latest time as the points
      added; points of any other type keep their values and their order; and the
      index names the last cached point of each path. */
  lemma NothingLost(ops: seq<Op>)
    ensures Indexed(EMPTY.cache)
    ensures var w := Run(EMPTY, ops);
            && (forall path :: SameFigures(All(w), w.added, path))
            && Unmerged(All(w)) == Unmerged(w.added)
            && Indexed(w.cache)
  {
    hide Run, SameFigures, Fold, Unmerged, All, Clocked, Indexed;
    EmptyConserved();
    RunConserves(EMPTY, ops);
    RunClockConserves(EMPTY, ops);
    var w := Run(EMPTY, ops);
    forall path ensures SameFigures(All(w), w.added, path) {
      FiguresOf(w, path);
    }
  }

  /** A point is cached beside the others exactly when the last cached point of its
      path, if there is one, has another type or one that does not merge. */
  lemma CachedBeside(c: Cache, q: Point)
    requires Indexed(c)
    ensures |Insert(c, q).points| == |c.points| + 1 <==>
            q.path !in c.index || c.points[c.index[q.path]].kind != q.kind || q.kind !in {Sum, Min, Max}
  {
  }

  lemma EmptyConserved()
    ensures Indexed(EMPTY.cache) && Conserved(EMPTY) && ClockConserved(EMPTY)
  {
    assert All(EMPTY) == [] && Clocked([]) == [];
  }
}

/** The `time` constraints of a query and the scan window `genTable` computes
    from them. */
module TimeWindow {
  import opened Basics
  import opened EventIndex

  datatype Constraint =
    | Equals(literal: int)
    | GreaterThan(literal: int)
    | GreaterThanOrEquals(literal: int)
    | LessThan(literal: int)
    | LessThanOrEquals(literal: int)
    | Other(test: nat -> bool)

  /** What SQL asks of a row's time. */
  predicate Satisfies(c: Constraint, t: nat) {
    match c
    case Equals(x) => t == x
    case GreaterThan(x) => t > x
    case GreaterThanOrEquals(x) => t >= x
    case LessThan(x) => t < x
    case LessThanOrEquals(x) => t <= x
    case Other(test) => test(t)
  }

  ghost predicate SatisfiesAll(cs: seq<Constraint>, t: nat) {
    forall i | 0 <= i < |cs| :: Satisfies(cs[i], t)
  }

  ghost predicate Literals64(cs: seq<Constraint>) {
    forall i | 0 <= i < |cs| && !cs[i].Other? :: 0 - TWO63 <= cs[i].literal < TWO63
  }

  /** A signed literal as the unsigned event time it is stored in. */
  function Wrapped(x: int): nat {
    x % TWO64
  }

  datatype Span = Span(start: nat, stop: nat)

  /** One constraint folded into the window, `Equals` excepted. */
  function Narrow(w: Span, c: Constraint): Span {
    match c
    case GreaterThan(x) => w.(start := Max(w.start, (Wrapped(x) + 1) % TWO64))
    case GreaterThanOrEquals(x) => w.(start := Max(w.start, Wrapped(x)))
    case LessThan(x) => w.(stop := Min(w.stop, (Wrapped(x) - 1) % TWO64))
    case LessThanOrEquals(x) => w.(stop := Min(w.stop, Wrapped(x)))
    case _ => w
  }

  /** The constraint loop; the first equality decides and stops it. */
  function SpanOf(cs: seq<Constraint>, w: Span): Span {
    if cs == [] then w
    else if cs[0].Equals? then Span(Wrapped(cs[0].literal), Wrapped(cs[0].literal))
    else SpanOf(cs[1..], Narrow(w, cs[0]))
  }

  method ComputeSpan(cs: seq<Constraint>) returns (w: Span)
    ensures w == SpanOf(cs, Span(0, 0))
  {
    w := Span(0, 0);
    var i := 0;
    while i < |cs|
      invariant i <= |cs|
      invariant SpanOf(cs[i..], w) == SpanOf(cs, Span(0, 0))
    {
      assert cs[i..][0] == cs[i] && cs[i..][1..] == cs[i + 1..];
      if cs[i].Equals? {
        w := Span(Wrapped(cs[i].literal), Wrapped(cs[i].literal));
        return;
      }
      w := Narrow(w, cs[i]);
      i := i + 1;
    }
  }

  // -------------------------------------------------------------- pushdown

  /** The events of a list whose time passes the constraints. */
  ghost function Keep(f: seq<Event>, cs: seq<Constraint>): seq<Event> {
    if f == [] then []
    else (if SatisfiesAll(cs, f[0].time) then [f[0]] else []) + Keep(f[1..], cs)
  }

  function Scan(f: seq<Event>, w: Span): seq<Event> {
    if f == [] then []
    else (if InRange(f[0], w.start, w.stop) then [f[0]] else []) + Scan(f[1..], w)
  }

  ghost predicate Transparent(cs: seq<Constraint>) {
    forall f: seq<Event> | (forall e | e in f :: e.time < TWO63) ::
      Keep(Scan(f, SpanOf(cs, Span(0, 0))), cs) == Keep(f, cs)
  }

  predicate Misread(c: Constraint) {
    (c.GreaterThan? && c.literal < -1) || (c.GreaterThanOrEquals? && c.literal < 0)
  }

  /** A lower bound below zero, with no equality to override it. */
  ghost predicate Misreads(cs: seq<Constraint>) {
    && (forall i | 0 <= i < |cs| :: !cs[i].Equals?)
    && (exists i | 0 <= i < |cs| :: Misread(cs[i]))
  }

  /** Without equalities the window has no upper end, and its lower end is
      passed by a time exactly when every lower bound is. */
  lemma {:induction false} SpanLower(cs: seq<Constraint>, w: Span, t: nat)
    requires Literals64(cs) && SatisfiesAll(cs, t) && t < TWO63 && w.stop == 0
    requires forall i | 0 <= i < |cs| :: !cs[i].Equals?
    ensures SpanOf(cs, w).stop == 0
    ensures SpanOf(cs, w).start <= t <==> w.start <= t && forall i | 0 <= i < |cs| :: !Misread(cs[i])
  {
    if cs != [] {
      var c := cs[0];
      NarrowLower(w, c, t);
      SpanLower(cs[1..], Narrow(w, c), t);
      assert forall i | 0 <= i < |cs| - 1 :: cs[1..][i] == cs[i + 1];
      if forall i | 0 <= i < |cs[1..]| :: !Misread(cs[1..][i]) {
        assert forall i | 1 <= i < |cs| :: !Misread(cs[i]) by {
          forall i | 1 <= i < |cs| ensures !Misread(cs[i]) { assert cs[i] == cs[1..][i - 1]; }
        }
      }
    }
  }

  lemma NarrowLower(w: Span, c: Constraint, t: nat)
    requires Satisfies(c, t) && t < TWO63 && w.stop == 0 && !c.Equals?
    requires !c.Other? ==> 0 - TWO63 <= c.literal < TWO63
    ensures Narrow(w, c).stop == 0
    ensures Narrow(w, c).start <= t <==> w.start <= t && !Misread(c)
  {
  }

  lemma {:induction false} SpanEquality(cs: seq<Constraint>, w: Span, t: nat)
    requires Literals64(cs) && SatisfiesAll(cs, t) && exists i | 0 <= i < |cs| :: cs[i].Equals?
    ensures SpanOf(cs, w) == Span(t, t)
  {
    if !cs[0].Equals? {
      var i :| 0 <= i < |cs| && cs[i].Equals?;
      assert cs[1..][i - 1].Equals?;
      SpanEquality(cs[1..], Narrow(w, cs[0]), t);
    }
  }

  /** The window contains a satisfying time unless a lower bound is misread. */
  lemma WindowContains(cs: seq<Constraint>, t: nat)
    requires Literals64(cs) && SatisfiesAll(cs, t) && t < TWO63
    ensures var w := SpanOf(cs, Span(0, 0));
            InRange(Event(t, 0), w.start, w.stop) <==> !Misreads(cs)
  {
    if exists i | 0 <= i < |cs| :: cs[i].Equals? {
      SpanEquality(cs, Span(0, 0), t);
    } else {
      SpanLower(cs, Span(0, 0), t);
    }
  }

  lemma {:induction false} KeepScan(f: seq<Event>, cs: seq<Constraint>, w: Span)
    requires forall e | e in f && SatisfiesAll(cs, e.time) :: InRange(e, w.start, w.stop)
    ensures Keep(Scan(f, w), cs) == Keep(f, cs)
  {
    if f != [] {
      assert f[0] in f;
      KeepScan(f[1..], cs, w);
      if InRange(f[0], w.start, w.stop) {
        assert Scan(f, w)[0] == f[0] && Scan(f, w)[1..] == Scan(f[1..], w);
      } else {
        assert Scan(f, w) == Scan(f[1..], w);
      }
    }
  }

  /** Constraint pushdown preserves the meaning of a query over every event list
      exactly when no lower bound is misread, for constraints some time meets. */
  lemma PushdownExact(cs: seq<Constraint>, t: nat)
    requires Literals64(cs) && SatisfiesAll(cs, t) && t < TWO63
    ensures Transparent(cs) <==> !Misreads(cs)
  {
    var w := SpanOf(cs, Span(0, 0));
    WindowContains(cs, t);
    if Misreads(cs) {
      var f := [Event(t, 1)];
      assert f[1..] == [] && Keep([], cs) == [] && Scan([], w) == [];
      assert Scan(f, w) == [];
      assert Keep(f, cs) == [f[0]];
      assert Keep(Scan(f, w), cs) != Keep(f, cs);
    } else {
      forall f: seq<Event> | (forall e | e in f :: e.time < TWO63)
        ensures Keep(Scan(f, w), cs) == Keep(f, cs)
      {
        forall e | e in f && SatisfiesAll(cs, e.time)
          ensures InRange(e, w.start, w.stop)
        {
          WindowContains(cs, e.time);
        }
        KeepScan(f, cs, w);
      }
    }
  }

  /** Over non-negative literals pushdown is always sound, satisfiable or not. */
  lemma PushdownSound(cs: seq<Constraint>)
    requires Literals64(cs)
    requires forall i | 0 <= i < |cs| && !cs[i].Other? :: cs[i].literal >= 0
    ensures Transparent(cs)
  {
    var w := SpanOf(cs, Span(0, 0));
    forall f: seq<Event> | (forall e | e in f :: e.time < TWO63)
      ensures Keep(Scan(f, w), cs) == Keep(f, cs)
    {
      forall e | e in f && SatisfiesAll(cs, e.time)
        ensures InRange(e, w.start, w.stop)
      {
        WindowContains(cs, e.time);
      }
      KeepScan(f, cs, w);
    }
  }

  /** The scan loop of the subscriber returns the ids of exactly these events. */
  lemma {:induction false} ScanIds(f: seq<Event>, w: Span)
    requires forall e | e in f :: e.id > 0
    ensures |FilterIds(f, w.start, w.stop, 0)| == |Scan(f, w)|
    ensures forall i | 0 <= i < |Scan(f, w)| :: FilterIds(f, w.start, w.stop, 0)[i] == Scan(f, w)[i].id
  {
    if f != [] {
      assert f[0] in f;
      ScanIds(f[1..], w);
    }
  }
}

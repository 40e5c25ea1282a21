/** Decimal text as the daemon writes and reads it: `std::to_string`, the
    `stoll`/`stoull`/`strtoull` family behind `tryTo`, the zero-padded event
    index, and the byte order in which the database enumerates keys. */
module Text {
  import opened Basics

  const TEN10: nat := 10_000_000_000

  // ---------------------------------------------------------------- digits

  predicate IsDigit(c: char) {
    '0' <= c <= '9'
  }

  predicate AllDigits(s: string) {
    forall i | 0 <= i < |s| :: IsDigit(s[i])
  }

  function DigitChar(d: nat): char
    requires d < 10
  {
    '0' + d as char
  }

  function DigitValue(c: char): nat
    requires IsDigit(c)
  {
    (c - '0') as nat
  }

  /** `std::to_string` of an unsigned number. */
  function ToString(n: nat): (s: string)
    ensures |s| >= 1 && AllDigits(s)
  {
    if n < 10 then [DigitChar(n)] else ToString(n / 10) + [DigitChar(n % 10)]
  }

  /** The number a run of digits denotes. */
  function ValueOf(s: string): nat
    requires AllDigits(s)
  {
    if s == "" then 0 else 10 * ValueOf(s[..|s| - 1]) + DigitValue(s[|s| - 1])
  }

  lemma {:induction false} ValueOfToString(n: nat)
    ensures ValueOf(ToString(n)) == n
  {
    if n >= 10 {
      ValueOfToString(n / 10);
      assert ToString(n)[..|ToString(n)| - 1] == ToString(n / 10);
    }
  }

  // ------------------------------------------------------- zero-padded index

  function Zeros(n: nat): (s: string)
    ensures |s| == n && AllDigits(s)
  {
    seq(n, i => '0')
  }

  /** `EventSubscriberPlugin::toIndex`. */
  function ToIndex(i: nat): (s: string)
    ensures AllDigits(s) && |s| >= 10
  {
    var s := ToString(i);
    if |s| < 10 then Zeros(10 - |s|) + s else s
  }

  lemma {:induction false} ValueOfPadded(n: nat, s: string)
    requires AllDigits(s)
    ensures ValueOf(Zeros(n) + s) == ValueOf(s)
  {
    var t := Zeros(n) + s;
    if s != "" {
      assert t[..|t| - 1] == Zeros(n) + s[..|s| - 1];
      ValueOfPadded(n, s[..|s| - 1]);
    } else if n > 0 {
      assert t[..|t| - 1] == Zeros(n - 1) + "";
      ValueOfPadded(n - 1, "");
    }
  }

  /** A padded index parses back to its number, so padding is injective. */
  lemma ValueOfToIndex(i: nat)
    ensures ValueOf(ToIndex(i)) == i
  {
    ValueOfToString(i);
    if |ToString(i)| < 10 {
      ValueOfPadded(10 - |ToString(i)|, ToString(i));
    }
  }

  function Pow10(k: nat): (p: nat)
    ensures p >= 1
  {
    if k == 0 then 1 else 10 * Pow10(k - 1)
  }

  lemma {:induction false} WidthBound(n: nat, k: nat)
    requires k >= 1
    ensures |ToString(n)| <= k <==> n < Pow10(k)
    decreases k
  {
    if k == 1 {
      assert Pow10(1) == 10;
    } else if n >= 10 {
      WidthBound(n / 10, k - 1);
    }
  }

  lemma IndexWidth(i: nat)
    ensures |ToIndex(i)| == 10 <==> i < TEN10
  {
    WidthBound(i, 10);
    assert Pow10(10) == TEN10 by {
      assert Pow10(5) == 100000;
    }
  }

  // ------------------------------------------------------------- key order

  /** The byte order in which the database enumerates its keys. */
  predicate LexLess(a: string, b: string)
    decreases a
  {
    b != "" && (a == "" || a[0] < b[0] || (a[0] == b[0] && LexLess(a[1..], b[1..])))
  }

  lemma {:induction false} LexPrefix(p: string, a: string, b: string)
    ensures LexLess(p + a, p + b) <==> LexLess(a, b)
  {
    if p == "" {
      assert p + a == a && p + b == b;
    } else {
      LexPrefix(p[1..], a, b);
      assert (p + a)[1..] == p[1..] + a && (p + b)[1..] == p[1..] + b;
    }
  }

  lemma {:induction false} LexSnoc(a: string, b: string, x: char, y: char)
    requires |a| == |b|
    ensures LexLess(a + [x], b + [y]) <==> LexLess(a, b) || (a == b && x < y)
  {
    if a == "" {
      assert a + [x] == [x] && b + [y] == [y];
    } else {
      LexSnoc(a[1..], b[1..], x, y);
      assert (a + [x])[1..] == a[1..] + [x] && (b + [y])[1..] == b[1..] + [y];
      assert a == b <==> a[0] == b[0] && a[1..] == b[1..] by {
        assert a == [a[0]] + a[1..] && b == [b[0]] + b[1..];
      }
    }
  }

  /** On digit runs of one width, byte order is numeric order. */
  lemma {:induction false} LexIsNumeric(a: string, b: string)
    requires |a| == |b| && AllDigits(a) && AllDigits(b)
    ensures LexLess(a, b) <==> ValueOf(a) < ValueOf(b)
    ensures a == b <==> ValueOf(a) == ValueOf(b)
  {
    if a != "" {
      var a', b' := a[..|a| - 1], b[..|b| - 1];
      var x, y := a[|a| - 1], b[|b| - 1];
      assert a == a' + [x] && b == b' + [y];
      LexIsNumeric(a', b');
      LexSnoc(a', b', x, y);
    }
  }

  /** Event keys enumerate in id order while ids stay below ten digits ... */
  lemma IndexOrder(i: nat, j: nat)
    requires i < TEN10 && j < TEN10
    ensures LexLess(ToIndex(i), ToIndex(j)) <==> i < j
  {
    IndexWidth(i);
    IndexWidth(j);
    ValueOfToIndex(i);
    ValueOfToIndex(j);
    LexIsNumeric(ToIndex(i), ToIndex(j));
  }

  /** ... and no longer: the first eleven-digit id sorts before its predecessor. */
  lemma IndexOrderBreaks()
    ensures LexLess(ToIndex(TEN10), ToIndex(TEN10 - 1))
  {
    hide ToString;
    LeadingDigits(10);
    assert Pow10(10) == TEN10 by {
      assert Pow10(5) == 100000;
    }
    IndexWidth(TEN10 - 1);
    WidthBound(TEN10 - 1, 9);
    assert Pow10(9) == 1_000_000_000 by {
      assert Pow10(5) == 100000;
    }
  }

  ghost predicate OrderedBelow(n: nat) {
    forall i: nat, j: nat | i < n && j < n :: LexLess(ToIndex(i), ToIndex(j)) <==> i < j
  }

  /** Byte order of the indices of all ids below a bound is numeric order exactly
      up to the bound 10^10. */
  lemma IndexOrderExact(n: nat)
    ensures OrderedBelow(n) <==> n <= TEN10
  {
    hide ToIndex, LexLess;
    if n <= TEN10 {
      forall i: nat, j: nat | i < n && j < n
        ensures LexLess(ToIndex(i), ToIndex(j)) <==> i < j
      {
        IndexOrder(i, j);
      }
    } else {
      IndexOrderBreaks();
    }
  }

  lemma {:induction false} LeadingDigits(k: nat)
    ensures ToString(Pow10(k))[0] == '1'
    ensures k > 0 ==> ToString(Pow10(k) - 1)[0] == '9'
  {
    if k > 0 {
      LeadingDigits(k - 1);
      assert Pow10(k) / 10 == Pow10(k - 1);
      assert (Pow10(k) - 1) / 10 == Pow10(k - 1) - 1;
    }
  }

  // -------------------------------------------------------------- numbers in

  predicate IsSpace(c: char) {
    c in {' ', '\t', '\n', '\r', 0x0b as char, 0x0c as char}
  }

  function SkipSpaces(s: string): string {
    if s != "" && IsSpace(s[0]) then SkipSpaces(s[1..]) else s
  }

  function DigitRun(s: string): (n: nat)
    ensures n <= |s| && AllDigits(s[..n])
    ensures n < |s| ==> !IsDigit(s[n])
  {
    if s != "" && IsDigit(s[0]) then 1 + DigitRun(s[1..]) else 0
  }

  /** What the C library reads off the front of a string: spaces, an optional
      sign, the longest run of digits; the rest is left over. */
  datatype Scanned = Scanned(negative: bool, digits: string, rest: string)

  function ScanInt(s: string): (r: Scanned)
    ensures AllDigits(r.digits)
  {
    var t := SkipSpaces(s);
    var signed := t != "" && t[0] in {'+', '-'};
    var body := if signed then t[1..] else t;
    var n := DigitRun(body);
    Scanned(signed && t[0] == '-', body[..n], body[n..])
  }

  /** `tryTo<long long>`. */
  function TryToLongLong(s: string): Option<int> {
    var r := ScanInt(s);
    var v := if r.negative then 0 - ValueOf(r.digits) else ValueOf(r.digits);
    if r.digits != "" && 0 - TWO63 <= v < TWO63 then Some(v) else None
  }

  /** `tryTo<uint64_t>`; a minus sign wraps. */
  function TryToUint64(s: string): Option<nat> {
    var r := ScanInt(s);
    var v := ValueOf(r.digits);
    if r.digits == "" || v >= TWO64 then None
    else if r.negative && v > 0 then Some(TWO64 - v) else Some(v)
  }

  /** `strtoull` on a whole key suffix: None unless it is consumed completely. */
  function WholeUint64(s: string): Option<nat> {
    var r := ScanInt(s);
    if r.digits == "" || r.rest != "" then None
    else if ValueOf(r.digits) >= TWO64 then Some(TWO64 - 1)
    else TryToUint64(s)
  }

  lemma {:induction false} DigitRunAll(s: string)
    requires AllDigits(s)
    ensures DigitRun(s) == |s|
  {
    if s != "" {
      DigitRunAll(s[1..]);
    }
  }

  lemma ScanDigits(s: string)
    requires AllDigits(s) && s != ""
    ensures ScanInt(s) == Scanned(false, s, "")
  {
    DigitRunAll(s);
    assert IsDigit(s[0]);
    assert SkipSpaces(s) == s;
    assert s[..|s|] == s && s[|s|..] == "";
  }

  /** A key suffix with anything after its digits is refused. */
  lemma WholeRefusesRest(d: string, x: char, rest: string)
    requires AllDigits(d) && d != "" && !IsDigit(x)
    ensures WholeUint64(d + [x] + rest) == None
  {
    var s := d + [x] + rest;
    assert IsDigit(s[0]) by { assert s[0] == d[0]; }
    assert SkipSpaces(s) == s;
    DigitRunStops(d, x, rest);
    assert s[|d|..] == [x] + rest;
  }

  lemma {:induction false} DigitRunStops(d: string, x: char, rest: string)
    requires AllDigits(d) && !IsDigit(x)
    ensures DigitRun(d + [x] + rest) == |d|
  {
    var s := d + [x] + rest;
    if d != "" {
      DigitRunStops(d[1..], x, rest);
      assert s[1..] == d[1..] + [x] + rest && s[0] == d[0];
    }
  }

  /** Space in front of a number is skipped. */
  lemma SpacesSkipped(c: char, s: string)
    requires c == ' ' || 9 as char <= c <= 13 as char
    ensures TryToLongLong([c] + s) == TryToLongLong(s)
    ensures TryToUint64([c] + s) == TryToUint64(s) && WholeUint64([c] + s) == WholeUint64(s)
  {
    assert ([c] + s)[1..] == s;
    assert SkipSpaces([c] + s) == SkipSpaces(s);
  }

  /** A sign is taken: a signed reading negates, an unsigned one wraps, and a whole
      suffix saturates. */
  lemma SignTaken(d: string)
    requires AllDigits(d) && d != ""
    ensures TryToLongLong("+" + d) == TryToLongLong(d) && TryToUint64("+" + d) == TryToUint64(d)
    ensures var v: int := ValueOf(d); TryToLongLong("-" + d) == if v <= TWO63 then Some(-v) else None
    ensures var v := ValueOf(d);
            TryToUint64("-" + d) == if v >= TWO64 then None else if v == 0 then Some(0) else Some(TWO64 - v)
    ensures WholeUint64(d) == Some(Min(ValueOf(d), TWO64 - 1))
  {
    hide ScanInt, ValueOf, AllDigits;
    ScanDigits(d);
    SignScanned('+', d);
    SignScanned('-', d);
  }

  lemma SignScanned(c: char, d: string)
    requires AllDigits(d) && c in {'+', '-'}
    ensures ScanInt([c] + d) == Scanned(c == '-', d, "")
  {
    var s := [c] + d;
    assert SkipSpaces(s) == s && s[1..] == d;
    DigitRunAll(d);
    assert d[..|d|] == d && d[|d|..] == "";
  }

  /** Numbers written by `to_string` or `toIndex` read back unchanged within the
      range of the reader, and a signed reading fails outside it. */
  lemma NumbersReadBack(n: nat)
    ensures TryToLongLong(ToString(n)) == if n < TWO63 then Some(n) else None
    ensures n < TWO64 ==> TryToUint64(ToString(n)) == Some(n)
    ensures n < TWO64 ==> TryToUint64(ToIndex(n)) == Some(n)
    ensures n < TWO64 ==> WholeUint64(ToIndex(n)) == Some(n)
  {
    ScanDigits(ToString(n));
    ScanDigits(ToIndex(n));
    ValueOfToString(n);
    ValueOfToIndex(n);
  }
}

/** Quoted strings in the shell: how `output_c_string` prints a string, how the
    command-line scanner finds the end of a double-quoted token, and how
    `resolve_backslashes` undoes the printing in place. */
module ShellText {
  import opened Basics

  const NUL: byte := 0
  const QUOTE: byte := 34
  const BACKSLASH: byte := 92

  predicate IsPrint(c: byte) {
    32 <= c <= 126
  }

  predicate IsOctal(c: byte) {
    48 <= c <= 55
  }

  ghost predicate NulFree(s: seq<byte>) {
    forall i | 0 <= i < |s| :: s[i] != NUL
  }

  // -------------------------------------------------------------- printing

  function EscapeByte(c: byte): (e: seq<byte>)
    ensures 1 <= |e| <= 4
  {
    if c == BACKSLASH then [BACKSLASH, BACKSLASH]
    else if c == QUOTE then [BACKSLASH, QUOTE]
    else if c == 9 then [BACKSLASH, 116]
    else if c == 10 then [BACKSLASH, 110]
    else if c == 13 then [BACKSLASH, 114]
    else if !IsPrint(c) then [BACKSLASH, 48 + c / 64, 48 + c / 8 % 8, 48 + c % 8]
    else [c]
  }

  function Body(s: seq<byte>): seq<byte> {
    if s == [] then [] else EscapeByte(s[0]) + Body(s[1..])
  }

  function CString(s: seq<byte>): seq<byte> {
    [QUOTE] + Body(s) + [QUOTE]
  }

  /** `output_c_string` on the bytes before the terminator. */
  method OutputCString(z: seq<byte>) returns (out: seq<byte>)
    ensures out == CString(z)
  {
    hide EscapeByte;
    out := [QUOTE];
    var i := 0;
    while i < |z|
      invariant i <= |z|
      invariant out + Body(z[i..]) == [QUOTE] + Body(z)
    {
      assert z[i..][0] == z[i] && z[i..][1..] == z[i + 1..];
      var e := EmitByte(z[i]);
      assert out + (e + Body(z[i + 1..])) == (out + e) + Body(z[i + 1..]);
      out := out + e;
      i := i + 1;
    }
    assert out + [] == out;
    out := out + [QUOTE];
  }

  method EmitByte(c: byte) returns (e: seq<byte>)
    ensures e == EscapeByte(c)
  {
    if c == BACKSLASH {
      e := [c, c];
    } else if c == QUOTE {
      e := [BACKSLASH, QUOTE];
    } else if c == 9 {
      e := [BACKSLASH, 116];
    } else if c == 10 {
      e := [BACKSLASH, 110];
    } else if c == 13 {
      e := [BACKSLASH, 114];
    } else if !IsPrint(c) {
      e := [BACKSLASH, 48 + c / 64, 48 + c / 8 % 8, 48 + c % 8];
    } else {
      e := [c];
    }
  }

  // -------------------------------------------------------------- scanning

  /** A buffer whose last byte is the terminator. */
  ghost predicate Terminated(s: seq<byte>) {
    s != [] && s[|s| - 1] == NUL
  }

  /** Where the scan of a double-quoted token stops. */
  function ScanEnd(s: seq<byte>, i: nat): (j: nat)
    requires Terminated(s) && i < |s|
    ensures i <= j < |s| && (s[j] == NUL || s[j] == QUOTE)
    decreases |s| - i
  {
    if s[i] == NUL || s[i] == QUOTE then i
    else if s[i] == BACKSLASH && s[i + 1] != NUL then ScanEnd(s, i + 2)
    else ScanEnd(s, i + 1)
  }

  // ------------------------------------------------------------ unescaping

  /** Bytes of the string consumed and the byte written for the escape or plain
      byte at the front. A lone final backslash acts on the terminator. */
  function TakeLength(t: seq<byte>): (n: nat)
    requires t != []
    ensures 1 <= n <= |t|
  {
    if t[0] != BACKSLASH || |t| == 1 then 1
    else if !IsOctal(t[1]) then 2
    else if |t| > 2 && IsOctal(t[2]) then (if |t| > 3 && IsOctal(t[3]) then 4 else 3)
    else 2
  }

  /** One more octal digit, in a byte. */
  function Shift(a: int, digit: byte): byte {
    (a * 8 + (digit - 48)) % 256
  }

  function TakeByte(t: seq<byte>): byte
    requires t != []
  {
    if t[0] != BACKSLASH then t[0]
    else if |t| == 1 then NUL
    else if t[1] == 110 then 10
    else if t[1] == 116 then 9
    else if t[1] == 114 then 13
    else if !IsOctal(t[1]) then t[1]
    else
      var n := TakeLength(t);
      if n == 2 then t[1] - 48
      else if n == 3 then Shift(t[1] - 48, t[2])
      else Shift(Shift(t[1] - 48, t[2]), t[3])
  }

  function Unescape(t: seq<byte>): seq<byte> {
    if t == [] then [] else [TakeByte(t)] + Unescape(t[TakeLength(t)..])
  }

  /** No backslash is left without a byte to act on. */
  predicate Complete(t: seq<byte>) {
    t == [] || ((t[0] == BACKSLASH ==> |t| > 1) && Complete(t[TakeLength(t)..]))
  }

  predicate Lone(t: seq<byte>) {
    t == [BACKSLASH]
  }

  /** Where the read index stands when it has left the string: at the terminator,
      or beyond it. */
  function ReadEnd(t: seq<byte>): nat {
    if t == [] then 0 else if Lone(t) then 2 else TakeLength(t) + ReadEnd(t[TakeLength(t)..])
  }

  lemma UnescapeStep(t: seq<byte>, k: nat)
    requires k < |t|
    ensures var n := TakeLength(t[k..]);
            && Unescape(t[k..]) == [TakeByte(t[k..])] + Unescape(t[k + n..])
            && ReadEnd(t[k..]) == if Lone(t[k..]) then 2 else n + ReadEnd(t[k + n..])
  {
    assert t[k..][TakeLength(t[k..])..] == t[k + TakeLength(t[k..])..];
  }

  /** The read index stops exactly at the terminator when no backslash is left
      over, and steps over it by one otherwise. */
  lemma {:induction false} ReadEndExact(t: seq<byte>)
    ensures ReadEnd(t) == if Complete(t) then |t| else |t| + 1
  {
    hide TakeLength;
    if t != [] && !Lone(t) {
      ReadEndExact(t[TakeLength(t)..]);
    }
  }

  function Unread(was: seq<byte>, end: nat, i: nat): seq<byte>
    requires end < |was|
  {
    if i <= end then was[i..end] else []
  }

  /** Only the bytes written so far differ. */
  ghost predicate Framed(z: seq<byte>, was: seq<byte>, dst: nat, j: nat) {
    && |z| == |was|
    && (forall m | 0 <= m < |z| && (m < dst || m >= j) :: z[m] == was[m])
  }

  /** The loop's invariant on the buffer `z`, which was `was` when reading stood at
      `src` and writing at `dst`. */
  ghost predicate Resolving(z: seq<byte>, was: seq<byte>, src: nat, dst: nat, end: nat, i: nat, j: nat) {
    && end < |was| && dst <= src <= i <= end + 1 && dst <= j && j - dst <= i - src && j - dst <= end - src
    && Framed(z, was, dst, j)
    && z[dst..j] + Unescape(Unread(was, end, i)) == Unescape(was[src..end])
    && i - src + (if i <= end then ReadEnd(Unread(was, end, i)) else 0) == ReadEnd(was[src..end])
  }

  lemma ResolvingStep(z: seq<byte>, was: seq<byte>, src: nat, dst: nat, end: nat, i: nat, j: nat, c: byte, n: nat)
    requires Resolving(z, was, src, dst, end, i, j) && i < end
    requires c == TakeByte(was[i..end]) && n == if Lone(was[i..end]) then 2 else TakeLength(was[i..end])
    ensures Resolving(z[j := c], was, src, dst, end, i + n, j + 1)
  {
    hide Unescape, TakeByte, TakeLength, ReadEnd, Lone, Framed;
    FramedLength(z, was, dst, j);
    var t, z' := was[i..end], z[j := c];
    UnescapeStep(t, 0);
    LoneLength(t);
    NothingLeft();
    assert t[0..] == t;
    assert t[TakeLength(t)..] == Unread(was, end, i + n);
    Associative(z[dst..j], [c], Unescape(Unread(was, end, i + n)));
    assert z'[dst..j + 1] == z[dst..j] + [c];
    FramedPut(z, was, dst, j, c);
  }

  lemma FramedLength(z: seq<byte>, was: seq<byte>, dst: nat, j: nat)
    requires Framed(z, was, dst, j)
    ensures |z| == |was|
  {
  }

  lemma FramedPut(z: seq<byte>, was: seq<byte>, dst: nat, j: nat, c: byte)
    requires Framed(z, was, dst, j) && dst <= j < |z|
    ensures Framed(z[j := c], was, dst, j + 1)
  {
  }

  /** The loop of `resolve_backslashes` over the string from `src` to its terminator
      at `end`, written from `dst` on, until the read index `i` leaves the string.
      Only an index that stops at the terminator ends the loop. */
  method ResolveFrom(z: array<byte>, src: nat, dst: nat, end: nat) returns (i: nat, j: nat)
    requires dst <= src <= end < z.Length && z[end] == NUL && NulFree(z[src..end])
    modifies z
    ensures i == if Complete(old(z[src..end])) then end else end + 1
    ensures dst <= j && j - dst <= end - src && z[dst..j] == Unescape(old(z[src..end]))
    ensures i == end ==> z[j] == NUL
    ensures forall m | 0 <= m < z.Length && (m < dst || m > j || (m == j && i != end)) :: z[m] == old(z[m])
  {
    hide Unescape, Complete, TakeByte, TakeLength, ReadEnd, Lone, Resolving;
    ghost var was := z[..];
    i, j := src, dst;
    assert was[src..end] == z[src..end];
    ResolvingStart(was, src, dst, end);
    while i <= end && z[i] != NUL
      invariant Resolving(z[..], was, src, dst, end, i, j)
      decreases end + 1 - i
    {
      ResolvingRead(z[..], was, src, dst, end, i, j);
      var c, n := ReadEscape(z, i, end);
      ResolvingStep(z[..], was, src, dst, end, i, j, c, n);
      ghost var zs := z[..];
      z[j] := c;
      assert z[..] == zs[j := c];
      i, j := i + n, j + 1;
    }
    ResolvingEnd(z[..], was, src, dst, end, i, j);
    if i <= end {
      z[j] := NUL;
    }
  }

  lemma ResolvingStart(was: seq<byte>, src: nat, dst: nat, end: nat)
    requires dst <= src <= end < |was|
    ensures Resolving(was, was, src, dst, end, src, dst)
  {
    hide Unescape, ReadEnd;
    assert was[dst..dst] == [];
  }

  /** Inside the string the bytes ahead are still the original ones. */
  lemma ResolvingRead(z: seq<byte>, was: seq<byte>, src: nat, dst: nat, end: nat, i: nat, j: nat)
    requires Resolving(z, was, src, dst, end, i, j) && i <= end && z[i] != NUL
    requires was[end] == NUL && NulFree(was[src..end])
    ensures i < end && j <= i && z[end] == NUL && NulFree(z[i..end]) && z[i..end] == was[i..end]
  {
    hide Unescape, ReadEnd;
    assert forall m | 0 <= m < end - src :: was[src..end][m] == was[src + m];
  }

  lemma ResolvingEnd(z: seq<byte>, was: seq<byte>, src: nat, dst: nat, end: nat, i: nat, j: nat)
    requires Resolving(z, was, src, dst, end, i, j) && (i <= end ==> z[i] == NUL)
    requires was[end] == NUL && NulFree(was[src..end])
    ensures i == if Complete(was[src..end]) then end else end + 1
    ensures dst <= j <= end < |z| && z[dst..j] == Unescape(was[src..end]) && j - dst <= end - src
    ensures forall m | 0 <= m < |z| && (m < dst || m >= j) :: z[m] == was[m]
  {
    hide Unescape, ReadEnd, Complete;
    assert forall m | 0 <= m < end - src :: was[src..end][m] == was[src + m];
    assert i <= end ==> i == end;
    assert Unread(was, end, i) == [];
    NothingLeft();
    ReadEndExact(was[src..end]);
  }

  /** `resolve_backslashes` on the string at `off`, whose terminator is at `end`. A
      read index past the terminator is where `ResolveThrough` goes on. */
  method ResolveBackslashes(z: array<byte>, off: nat, end: nat) returns (i: nat, j: nat)
    requires off <= end < z.Length && z[end] == NUL && NulFree(z[off..end])
    modifies z
    ensures i == if Complete(old(z[off..end])) then end else end + 1
    ensures off <= j <= end && z[off..j] == Unescape(old(z[off..end]))
    ensures i == end ==> z[j] == NUL
    ensures forall m | 0 <= m < z.Length && !(off <= m <= end) :: z[m] == old(z[m])
  {
    hide Unescape, Complete;
    i, j := ResolveFrom(z, off, off, end);
  }

  /** How far an incomplete token moves what comes after it: one byte, and one more
      for every byte its own escapes save. */
  function Shifted(t: seq<byte>): (d: nat)
    ensures d >= 1
  {
    UnescapeShorter(t);
    |t| + 1 - |Unescape(t)|
  }

  lemma {:induction false} UnescapeShorter(t: seq<byte>)
    ensures |Unescape(t)| <= |t|
  {
    hide TakeLength, TakeByte;
    if t != [] {
      UnescapeShorter(t[TakeLength(t)..]);
    }
  }

  /** `resolve_backslashes` on a token that is not complete. The loop steps over its
      terminator and unescapes the rest of the line up to the next one, at `end2`,
      right behind the token. Scanning goes on after the first terminator, where
      it then finds the unescaped rest without its first bytes; only a rest too
      short to reach there leaves those bytes alone. */
  method ResolveThrough(z: array<byte>, off: nat, end: nat, end2: nat) returns (i: nat, j: nat)
    requires off <= end < end2 < z.Length && z[end] == NUL && z[end2] == NUL
    requires NulFree(z[off..end]) && NulFree(z[end + 1..end2])
    requires !Complete(z[off..end]) && Complete(z[end + 1..end2])
    modifies z
    ensures i == end2 && off <= j < z.Length && z[j] == NUL
    ensures z[off..j] == Unescape(old(z[off..end])) + Unescape(old(z[end + 1..end2]))
    ensures var d, u := Shifted(old(z[off..end])), Unescape(old(z[end + 1..end2]));
            if d <= |u| then end + 1 <= j && z[end + 1..j] == u[d..] else z[end + 1..] == old(z[end + 1..])
    ensures forall m | 0 <= m < z.Length && (m < off || m > j) :: z[m] == old(z[m])
  {
    hide Unescape, Complete, Shifted, ReadEnd;
    ghost var t, rest, was := z[off..end], z[end + 1..end2], z[..];
    var k;
    i, k := ResolveFrom(z, off, off, end);
    ghost var mid := z[..];
    assert z[end + 1..end2] == rest;
    i, j := ResolveFrom(z, end + 1, k, end2);
    ShiftedIs(t);
    assert z[off..j] == z[..][off..j] && z[end + 1..] == z[..][end + 1..] && was[end + 1..] == old(z[end + 1..]);
    Landing(was, mid, z[..], off, end, k, j, Unescape(t), Unescape(rest));
  }

  lemma ShiftedIs(t: seq<byte>)
    ensures Shifted(t) == |t| + 1 - |Unescape(t)|
  {
  }

  /** What stands in the buffer once both parts are written, `a` and then `b`. */
  lemma Landing(was: seq<byte>, mid: seq<byte>, z: seq<byte>, off: nat, end: nat, k: nat, j: nat,
                a: seq<byte>, b: seq<byte>)
    requires |was| == |mid| == |z| && off <= k <= end < |z| && k <= j < |z|
    requires mid[off..k] == a && z[k..j] == b
    requires forall m | 0 <= m < |z| && (m < off || m >= k) :: mid[m] == was[m]
    requires forall m | 0 <= m < |z| && (m < k || m > j) :: z[m] == mid[m]
    ensures z[off..j] == a + b
    ensures var d := end + 1 - k;
            if d <= |b| then end + 1 <= j && z[end + 1..j] == b[d..] else z[end + 1..] == was[end + 1..]
    ensures forall m | 0 <= m < |z| && (m < off || m > j) :: z[m] == was[m]
  {
    assert z[off..k] == a;
    assert z[off..j] == z[off..k] + z[k..j];
  }

  /** On `abc\ def` the second token is read as `ef`. */
  lemma ShiftedExample()
    ensures var t, u := [97, 98, 99, BACKSLASH], [100, 101, 102];
            !Complete(t) && Shifted(t) == 1 && Unescape(u)[Shifted(t)..] == [101, 102]
  {
    var t: seq<byte>, u: seq<byte> := [97, 98, 99, BACKSLASH], [100, 101, 102];
    hide Unescape, Complete, Shifted;
    PlainUnescape(u);
    LoneUnescape();
    PlainCons(99, [BACKSLASH]);
    PlainCons(98, [99, BACKSLASH]);
    PlainCons(97, [98, 99, BACKSLASH]);
    assert [99] + [BACKSLASH] == [99, BACKSLASH] && [98] + [99, BACKSLASH] == [98, 99, BACKSLASH];
    assert [97] + [98, 99, BACKSLASH] == t;
    ShiftedIs(t);
    assert Trailing(t) == 1 by {
      assert t[..3] == [97, 98, 99];
    }
    CompleteIffEven(t);
  }

  lemma LoneUnescape()
    ensures Unescape([BACKSLASH]) == [NUL]
  {
  }

  lemma PlainCons(c: byte, t: seq<byte>)
    requires c != BACKSLASH
    ensures Unescape([c] + t) == [c] + Unescape(t)
  {
    assert ([c] + t)[1..] == t;
  }

  /** A string without backslashes is its own unescaped form. */
  lemma {:induction false} PlainUnescape(t: seq<byte>)
    requires BACKSLASH !in t
    ensures Unescape(t) == t
  {
    hide Unescape;
    if t == [] {
      NothingLeft();
    } else {
      assert t[0] in t;
      assert forall c | c in t[1..] :: c in t;
      PlainUnescape(t[1..]);
      PlainCons(t[0], t[1..]);
      assert t == [t[0]] + t[1..];
    }
  }

  lemma LoneLength(t: seq<byte>)
    requires t != []
    ensures Lone(t) ==> TakeLength(t) == |t| == 1
  {
  }

  lemma NothingLeft()
    ensures Unescape([]) == [] && ReadEnd([]) == 0
  {
  }

  /** One round of the loop: the byte to write and the bytes to step over, which
      after a lone final backslash include the terminator. */
  method ReadEscape(z: array<byte>, i: nat, ghost end: nat) returns (c: byte, n: nat)
    requires i < end < z.Length && z[end] == NUL && NulFree(z[i..end])
    ensures c == TakeByte(z[i..end])
    ensures n == if Lone(z[i..end]) then 2 else TakeLength(z[i..end])
  {
    c, n := z[i], 1;
    if c == BACKSLASH {
      c, n := z[i + 1], 2;
      if c == 110 {
        c := 10;
      } else if c == 116 {
        c := 9;
      } else if c == 114 {
        c := 13;
      } else if c == BACKSLASH {
        c := BACKSLASH;
      } else if IsOctal(c) {
        c := c - 48;
        if IsOctal(z[i + 2]) {
          c, n := Shift(c, z[i + 2]), 3;
          if IsOctal(z[i + 3]) {
            c, n := Shift(c, z[i + 3]), 4;
          }
        }
      }
    }
  }

  // -------------------------------------------------------- lone backslashes

  /** The length of the run of backslashes at the end. */
  function Trailing(t: seq<byte>): nat {
    if t == [] || t[|t| - 1] != BACKSLASH then 0 else 1 + Trailing(t[..|t| - 1])
  }

  lemma {:induction false} TrailingConcat(a: seq<byte>, b: seq<byte>)
    ensures Trailing(b) <= |b|
    ensures Trailing(a + b) == if Trailing(b) < |b| then Trailing(b) else |b| + Trailing(a)
  {
    if b == [] {
      assert a + b == a;
    } else {
      TrailingConcat(a, b[..|b| - 1]);
      assert (a + b)[..|a + b| - 1] == a + b[..|b| - 1];
    }
  }

  /** A string is complete exactly when it ends in an even number of backslashes. */
  lemma {:induction false} CompleteIffEven(t: seq<byte>)
    ensures Complete(t) <==> Trailing(t) % 2 == 0
  {
    hide Complete, Trailing, TakeLength;
    CompleteStep(t);
    if t == [] {
      StepTrailing([]);
    } else {
      var n := TakeLength(t);
      CompleteIffEven(t[n..]);
      TrailingConcat(t[..n], t[n..]);
      assert t == t[..n] + t[n..];
      TakenTrailing(t);
    }
  }

  lemma CompleteStep(t: seq<byte>)
    ensures Complete(t) <==> t == [] || (!Lone(t) && Complete(t[TakeLength(t)..]))
  {
    hide TakeLength;
  }

  lemma TakenTrailing(t: seq<byte>)
    requires t != []
    ensures Trailing(t[..TakeLength(t)]) % 2 == if Lone(t) then 1 else 0
  {
    var a := t[..TakeLength(t)];
    if |t| == 1 {
      assert t == [t[0]];
    }
    if |a| <= 2 {
      assert a[..0] == [] && a[..1][..0] == [];
      assert Trailing(a[..1]) == if a[0] == BACKSLASH then 1 else 0;
    }
  }

  /** A double-quoted token that is closed is complete, whatever it holds. */
  lemma {:induction false} ClosedIsComplete(line: seq<byte>, i: nat)
    requires Terminated(line) && i < |line| && line[ScanEnd(line, i)] == QUOTE
    ensures Complete(line[i..ScanEnd(line, i)])
    decreases |line| - i
  {
    hide Complete, Trailing, ScanEnd;
    var j := ScanEnd(line, i);
    CompleteIffEven(line[i..j]);
    if i < j {
      var n := if line[i] == BACKSLASH then 2 else 1;
      ScanStep(line, i, n);
      ClosedIsComplete(line, i + n);
      CompleteIffEven(line[i + n..j]);
      TrailingConcat(line[i..i + n], line[i + n..j]);
      assert line[i..j] == line[i..i + n] + line[i + n..j];
      StepTrailing(line[i..i + n]);
    } else {
      StepTrailing([]);
      assert line[i..j] == [];
    }
  }

  lemma ScanStep(line: seq<byte>, i: nat, n: nat)
    requires Terminated(line) && i < |line| && i < ScanEnd(line, i) && line[ScanEnd(line, i)] == QUOTE
    requires n == if line[i] == BACKSLASH then 2 else 1
    ensures i + n <= ScanEnd(line, i) && ScanEnd(line, i + n) == ScanEnd(line, i)
  {
  }

  lemma StepTrailing(a: seq<byte>)
    requires a == [] || |a| == if a[0] == BACKSLASH then 2 else 1
    ensures Trailing(a) % 2 == 0
  {
    if |a| == 2 {
      assert a[..1][..0] == [];
    }
  }

  /** Both ways for a lone backslash to reach the loop: at the end of an unquoted
      token (`abc\` here), and at the end of a line inside an open quote. */
  lemma LoneBackslashReadsOn()
    ensures ReadEnd([97, 98, 99, BACKSLASH]) == 5
    ensures var line := [QUOTE, 97, BACKSLASH, NUL]; ScanEnd(line, 1) == 3 && ReadEnd(line[1..3]) == 3
  {
    var t, line := [97, 98, 99, BACKSLASH], [QUOTE, 97, BACKSLASH, NUL];
    assert Trailing(t) == 1 && Trailing([97, BACKSLASH]) == 1 by {
      assert t[..3] == [97, 98, 99] && [97, BACKSLASH][..1] == [97];
    }
    CompleteIffEven(t);
    CompleteIffEven([97, BACKSLASH]);
    ReadEndExact(t);
    ReadEndExact([97, BACKSLASH]);
    assert ScanEnd(line, 1) == ScanEnd(line, 2) == ScanEnd(line, 3) == 3;
    assert line[1..3] == [97, BACKSLASH];
  }

  // ------------------------------------------------------------- round trip

  lemma OctalDigits(c: byte)
    ensures var a, b, d := 48 + c / 64, 48 + c / 8 % 8, 48 + c % 8;
            IsOctal(a) && IsOctal(b) && IsOctal(d) && Shift(Shift(a - 48, b), d) == c
  {
    OctalValue(c / 64, c / 8 % 8, c % 8);
    assert c / 8 == 8 * (c / 64) + c / 8 % 8;
  }

  lemma OctalValue(h: int, m: int, l: int)
    requires 0 <= h < 4 && 0 <= m < 8 && 0 <= l < 8
    ensures Shift(Shift(h, 48 + m), 48 + l) == 64 * h + 8 * m + l
  {
    assert Shift(h, 48 + m) == 8 * h + m;
  }

  /** What printing costs: one byte for a printable character, two for a quote, a
      backslash and the three controls that have a letter, four for all else; and
      what comes out is printable. */
  lemma EscapeCost(c: byte)
    ensures |EscapeByte(c)| == if c in {9, 10, 13, 34, 92} then 2 else if 32 <= c <= 126 then 1 else 4
    ensures forall i | 0 <= i < |EscapeByte(c)| :: 32 <= EscapeByte(c)[i] <= 126
  {
    OctalDigits(c);
  }

  /** A printed string is printable throughout, and one of plain characters is
      printed as it is. */
  lemma {:induction false} BodyPrintable(s: seq<byte>)
    ensures forall i | 0 <= i < |Body(s)| :: 32 <= Body(s)[i] <= 126
    ensures (forall i | 0 <= i < |s| :: 32 <= s[i] <= 126 && s[i] != 34 && s[i] != 92) ==> Body(s) == s
  {
    hide EscapeByte;
    if s != [] {
      BodyPrintable(s[1..]);
      EscapeCost(s[0]);
      PlainEscape(s[0]);
      assert s == [s[0]] + s[1..];
    }
  }

  lemma PlainEscape(c: byte)
    ensures 32 <= c <= 126 && c != 34 && c != 92 ==> EscapeByte(c) == [c]
  {
  }

  /** Up to three octal digits are read after a backslash, and their value is taken
      modulo 256. */
  lemma OctalTaken(a: byte, b: byte, c: byte, rest: seq<byte>)
    requires IsOctal(a) && IsOctal(b) && IsOctal(c)
    ensures var t := [BACKSLASH, a, b, c] + rest;
            TakeLength(t) == 4 && TakeByte(t) == (64 * (a - 48) + 8 * (b - 48) + (c - 48)) % 256
    ensures var t := [BACKSLASH, a, b] + rest;
            (rest == [] || !IsOctal(rest[0])) ==> TakeLength(t) == 3 && TakeByte(t) == 8 * (a - 48) + (b - 48)
    ensures var t := [BACKSLASH, a] + rest;
            (rest == [] || !IsOctal(rest[0])) ==> TakeLength(t) == 2 && TakeByte(t) == a - 48
  {
    var t3, t2, t1 := [BACKSLASH, a, b, c] + rest, [BACKSLASH, a, b] + rest, [BACKSLASH, a] + rest;
    assert t3[1] == a && t3[2] == b && t3[3] == c && t2[1] == a && t2[2] == b && t1[1] == a;
    OctalSum(a - 48, b - 48, c - 48);
  }

  lemma OctalSum(h: int, m: int, l: int)
    requires 0 <= h < 8 && 0 <= m < 8 && 0 <= l < 8
    ensures Shift(Shift(h, 48 + m), 48 + l) == (64 * h + 8 * m + l) % 256
    ensures Shift(h, 48 + m) == 8 * h + m
  {
    assert Shift(h, 48 + m) == 8 * h + m;
  }

  lemma UnescapeOne(c: byte, rest: seq<byte>)
    requires c != NUL
    ensures TakeLength(EscapeByte(c) + rest) == |EscapeByte(c)|
    ensures TakeByte(EscapeByte(c) + rest) == c
    ensures EscapeByte(c) != [BACKSLASH] && NulFree(EscapeByte(c))
  {
    hide Shift;
    OctalDigits(c);
    var e := EscapeByte(c);
    var t := e + rest;
    assert forall k | 0 <= k < |e| :: t[k] == e[k];
  }

  /** Unescaping undoes the printing, for every string without a NUL. */
  lemma {:induction false} UnescapeBody(s: seq<byte>)
    requires NulFree(s)
    ensures Unescape(Body(s)) == s && Complete(Body(s)) && NulFree(Body(s))
  {
    hide EscapeByte, TakeByte, TakeLength;
    if s != [] {
      var c, rest := s[0], Body(s[1..]);
      UnescapeBody(s[1..]);
      UnescapeOne(c, rest);
      assert (EscapeByte(c) + rest)[|EscapeByte(c)|..] == rest;
      assert [c] + s[1..] == s;
    }
  }

  /** `e` stands at position `i` of a line. */
  ghost predicate At(line: seq<byte>, i: nat, e: seq<byte>) {
    i + |e| <= |line| && forall k | 0 <= k < |e| :: line[i + k] == e[k]
  }

  lemma ScanOne(line: seq<byte>, i: nat, c: byte)
    requires c != NUL && Terminated(line) && At(line, i, EscapeByte(c)) && i + |EscapeByte(c)| < |line|
    ensures ScanEnd(line, i) == ScanEnd(line, i + |EscapeByte(c)|)
  {
    var e := EscapeByte(c);
    assert line[i] == e[0];
    if |e| == 2 {
      assert line[i + 1] == e[1];
    } else if |e| == 4 {
      assert line[i + 1] == e[1] && line[i + 2] == e[2] && line[i + 3] == e[3];
      assert ScanEnd(line, i) == ScanEnd(line, i + 2);
      assert ScanEnd(line, i + 2) == ScanEnd(line, i + 3);
    }
  }

  lemma BodyStep(s: seq<byte>)
    ensures Body(s) == if s == [] then [] else EscapeByte(s[0]) + Body(s[1..])
  {
  }

  lemma ScanStops(line: seq<byte>, i: nat)
    requires Terminated(line) && i < |line| && line[i] == QUOTE
    ensures ScanEnd(line, i) == i
  {
  }

  lemma AtConcat(line: seq<byte>, i: nat, a: seq<byte>, b: seq<byte>)
    requires At(line, i, a + b)
    ensures At(line, i, a) && At(line, i + |a|, b)
  {
    assert forall k | 0 <= k < |a| :: a[k] == (a + b)[k];
    assert forall k | 0 <= k < |b| :: b[k] == (a + b)[|a| + k];
  }

  /** The scan runs over a printed body and stops exactly at its closing quote. */
  lemma {:induction false} ScanBody(line: seq<byte>, i: nat, s: seq<byte>)
    requires NulFree(s) && Terminated(line) && At(line, i, Body(s))
    requires i + |Body(s)| < |line| && line[i + |Body(s)|] == QUOTE
    ensures ScanEnd(line, i) == i + |Body(s)|
    decreases |s|
  {
    hide EscapeByte, Body, At, ScanEnd;
    BodyStep(s);
    if s == [] {
      ScanStops(line, i);
    } else {
      var e, b := EscapeByte(s[0]), Body(s[1..]);
      AtConcat(line, i, e, b);
      ScanOne(line, i, s[0]);
      ScanBody(line, i + |e|, s[1..]);
    }
  }

  /** A double-quoted token: scan to its end, terminate it there, unescape it.
      Whatever was printed comes back, and reading goes on right after it. */
  method ReadQuoted(line: array<byte>, start: nat, ghost s: seq<byte>) returns (token: nat, len: nat, next: nat)
    requires Terminated(line[..]) && NulFree(s)
    requires start + |CString(s)| < line.Length && line[start..start + |CString(s)|] == CString(s)
    modifies line
    ensures token == start + 1 && len == |s| && token + len < line.Length
    ensures line[token..token + len] == s && line[token + len] == NUL
    ensures next == start + |CString(s)|
    ensures forall m | 0 <= m < line.Length && !(start < m < next) :: line[m] == old(line[m])
  {
    hide Body, EscapeByte, Unescape, Complete, ScanEnd;
    ghost var b := Body(s);
    UnescapeBody(s);
    token := start + 1;
    assert forall k | 0 <= k < |CString(s)| :: line[start + k] == CString(s)[k];
    assert At(line[..], token, b) by {
      assert forall k | 0 <= k < |b| :: b[k] == CString(s)[k + 1];
    }
    ScanBody(line[..], token, s);
    var i := FindEnd(line, token);
    assert i == token + |b| && line[token..i] == b;
    line[i] := NUL;
    assert line[token..i] == b;
    var stop, j := ResolveBackslashes(line, token, i);
    len := j - token;
    next := i + 1;
  }

  /** The scanning loop. */
  method FindEnd(line: array<byte>, from: nat) returns (i: nat)
    requires Terminated(line[..]) && from < line.Length
    ensures i == ScanEnd(line[..], from)
  {
    i := from;
    while line[i] != NUL && line[i] != QUOTE
      invariant i < line.Length
      invariant ScanEnd(line[..], i) == ScanEnd(line[..], from)
      decreases line.Length - i
    {
      assert line[line.Length - 1] == NUL;
      if line[i] == BACKSLASH && line[i + 1] != NUL {
        i := i + 1;
      }
      i := i + 1;
    }
  }
}

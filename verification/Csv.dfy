/** CSV output of the shell, against a reader that follows the quoting rules of
    section 2 of RFC 4180. */
module Csv {
  import opened Basics

  type Field = seq<byte>

  const QUOTE: byte := 34
  const NEWLINE: byte := 10

  /** The table `needCsvQuote`. */
  predicate NeedCsvQuote(c: byte) {
    c <= 32 || c == 34 || c == 39 || c >= 127
  }

  /** The test on one byte of a field. With a separator of several bytes the whole
      separator is compared with the start of the field, wherever the byte is. */
  predicate Special(z: Field, i: nat, sep: seq<byte>)
    requires i < |z|
  {
    NeedCsvQuote(z[i]) || (sep != [] && z[i] == sep[0] && (|sep| == 1 || sep <= z))
  }

  predicate NeedsQuotes(z: Field, sep: seq<byte>) {
    z == [] || exists i | 0 <= i < |z| :: Special(z, i, sep)
  }

  function DoubledByte(c: byte): seq<byte> {
    if c == QUOTE then [QUOTE, QUOTE] else [c]
  }

  function Doubled(z: Field): seq<byte> {
    if z == [] then [] else DoubledByte(z[0]) + Doubled(z[1..])
  }

  function Term(z: Field, sep: seq<byte>): seq<byte> {
    if NeedsQuotes(z, sep) then [QUOTE] + Doubled(z) + [QUOTE] else z
  }

  function RowText(fields: seq<Field>, sep: seq<byte>): seq<byte> {
    if fields == [] then [NEWLINE]
    else if |fields| == 1 then Term(fields[0], sep) + [NEWLINE]
    else Term(fields[0], sep) + sep + RowText(fields[1..], sep)
  }

  // ---------------------------------------------------------------- writing

  /** `output_csv`; a null prints the configured null text. */
  method OutputCsv(z: Option<Field>, sep: seq<byte>, nullvalue: seq<byte>, bSep: bool) returns (out: seq<byte>)
    ensures out == (if z.Some? then Term(z.value, sep) else nullvalue) + (if bSep then sep else [])
  {
    if z.None? {
      out := nullvalue;
    } else {
      var f := z.value;
      var i := 0;
      while i < |f| && !Special(f, i, sep)
        invariant i <= |f|
        invariant forall k | 0 <= k < i :: !Special(f, k, sep)
      {
        i := i + 1;
      }
      if i < |f| {
        assert Special(f, i, sep);
        i := 0;
      }
      if i == 0 {
        var body := DoubleQuotes(f);
        out := [QUOTE] + body + [QUOTE];
      } else {
        out := f;
      }
    }
    if bSep {
      out := out + sep;
    }
  }

  method DoubleQuotes(f: Field) returns (out: seq<byte>)
    ensures out == Doubled(f)
  {
    hide Doubled, DoubledByte;
    out := [];
    assert f[0..] == f && [] + Doubled(f) == Doubled(f);
    var i := 0;
    while i < |f|
      invariant i <= |f|
      invariant out + Doubled(f[i..]) == Doubled(f)
    {
      DoubledFrom(f, i);
      ghost var before := out;
      if f[i] == QUOTE {
        out := out + [QUOTE];
      }
      out := out + [f[i]];
      assert out == before + DoubledByte(f[i]);
      Associative(before, DoubledByte(f[i]), Doubled(f[i + 1..]));
      i := i + 1;
    }
    DoubledNone();
    assert f[i..] == [];
  }

  lemma DoubledFrom(f: Field, i: nat)
    requires i < |f|
    ensures Doubled(f[i..]) == DoubledByte(f[i]) + Doubled(f[i + 1..])
    ensures DoubledByte(f[i]) == (if f[i] == QUOTE then [QUOTE] else []) + [f[i]]
  {
    assert f[i..][0] == f[i] && f[i..][1..] == f[i + 1..];
  }

  lemma DoubledOne(c: byte)
    ensures DoubledByte(c) == if c == QUOTE then [QUOTE, QUOTE] else [c]
  {
  }

  lemma DoubledNone()
    ensures Doubled([]) == []
  {
  }

  /** A row of non-null columns in CSV mode. */
  method WriteRow(fields: seq<Field>, sep: seq<byte>) returns (out: seq<byte>)
    ensures out == RowText(fields, sep)
  {
    hide Term, RowText;
    out := [];
    assert fields[0..] == fields && [] + RowText(fields, sep) == RowText(fields, sep);
    RowTextFrom(fields, 0, sep);
    var i := 0;
    while i < |fields|
      invariant i <= |fields|
      invariant i < |fields| ==> out + RowText(fields[i..], sep) == RowText(fields, sep)
      invariant i == |fields| ==> out + [NEWLINE] == RowText(fields, sep)
    {
      RowTextFrom(fields, i, sep);
      var t := OutputCsv(Some(fields[i]), sep, [], i < |fields| - 1);
      Associative(out, t, if i < |fields| - 1 then RowText(fields[i + 1..], sep) else [NEWLINE]);
      out := out + t;
      i := i + 1;
    }
    out := out + [NEWLINE];
  }

  lemma RowTextFrom(fields: seq<Field>, i: nat, sep: seq<byte>)
    requires i <= |fields|
    ensures fields == [] ==> RowText(fields, sep) == [NEWLINE]
    ensures i < |fields| - 1 ==> RowText(fields[i..], sep) == Term(fields[i], sep) + sep + RowText(fields[i + 1..], sep)
    ensures i == |fields| - 1 ==> RowText(fields[i..], sep) == Term(fields[i], sep) + [] + [NEWLINE]
  {
    hide Term;
    if i < |fields| {
      assert fields[i..][0] == fields[i] && fields[i..][1..] == fields[i + 1..];
      assert Term(fields[i], sep) + [] == Term(fields[i], sep);
    }
  }

  // ---------------------------------------------------------------- reading

  datatype Parsed = Parsed(field: Field, rest: seq<byte>)

  /** The rest of a quoted field, its opening quote already read. */
  function ReadQuoted(s: seq<byte>): (r: Option<Parsed>)
    ensures r.Some? ==> |r.value.rest| < |s|
  {
    if s == [] then None
    else if s[0] != QUOTE then Prepend(s[0], ReadQuoted(s[1..]))
    else if |s| > 1 && s[1] == QUOTE then Prepend(QUOTE, ReadQuoted(s[2..]))
    else Some(Parsed([], s[1..]))
  }

  function Prepend(c: byte, r: Option<Parsed>): Option<Parsed> {
    if r.None? then None else Some(Parsed([c] + r.value.field, r.value.rest))
  }

  /** An unquoted field; a quote inside it is an error. */
  function ReadPlain(s: seq<byte>, sep: byte): (r: Option<Parsed>)
    ensures r.Some? ==> |r.value.rest| <= |s|
  {
    if s == [] || s[0] == sep || s[0] == NEWLINE then Some(Parsed([], s))
    else if s[0] == QUOTE then None
    else Prepend(s[0], ReadPlain(s[1..], sep))
  }

  function ReadField(s: seq<byte>, sep: byte): (r: Option<Parsed>)
    ensures r.Some? ==> |r.value.rest| <= |s|
  {
    if s != [] && s[0] == QUOTE then ReadQuoted(s[1..]) else ReadPlain(s, sep)
  }

  datatype Record = Record(fields: seq<Field>, rest: seq<byte>)

  function ReadRow(s: seq<byte>, sep: byte): (r: Option<Record>)
    ensures r.Some? ==> |r.value.rest| < |s|
    decreases |s|
  {
    var f := ReadField(s, sep);
    if f.None? || f.value.rest == [] then None
    else if f.value.rest[0] == NEWLINE then Some(Record([f.value.field], f.value.rest[1..]))
    else if f.value.rest[0] != sep then None
    else
      var more := ReadRow(f.value.rest[1..], sep);
      if more.None? then None else Some(Record([f.value.field] + more.value.fields, more.value.rest))
  }

  function ReadAll(s: seq<byte>, sep: byte): Option<seq<seq<Field>>>
    decreases |s|
  {
    if s == [] then Some([])
    else
      var row := ReadRow(s, sep);
      if row.None? then None
      else
        var more := ReadAll(row.value.rest, sep);
        if more.None? then None else Some([row.value.fields] + more.value)
  }

  // ------------------------------------------------------------- round trip

  lemma {:induction false} QuotedReadsBack(z: Field, rest: seq<byte>)
    requires rest != [] ==> rest[0] != QUOTE
    ensures ReadQuoted(Doubled(z) + [QUOTE] + rest) == Some(Parsed(z, rest))
  {
    hide DoubledByte;
    var s := Doubled(z) + [QUOTE] + rest;
    if z == [] {
      assert s[1..] == rest;
    } else {
      QuotedReadsBack(z[1..], rest);
      var more := Doubled(z[1..]) + [QUOTE] + rest;
      assert s == DoubledByte(z[0]) + more;
      DoubledOne(z[0]);
      if z[0] == QUOTE {
        assert s[0] == QUOTE && s[1] == QUOTE && s[2..] == more;
      } else {
        assert s[0] == z[0] && s[1..] == more;
      }
      assert [z[0]] + z[1..] == z;
    }
  }

  lemma {:induction false} PlainReadsBack(z: Field, rest: seq<byte>, sep: byte)
    requires forall i | 0 <= i < |z| :: !NeedCsvQuote(z[i]) && z[i] != sep
    requires rest != [] && (rest[0] == sep || rest[0] == NEWLINE)
    ensures ReadPlain(z + rest, sep) == Some(Parsed(z, rest))
  {
    if z == [] {
      assert z + rest == rest;
    } else {
      PlainReadsBack(z[1..], rest, sep);
      assert (z + rest)[1..] == z[1..] + rest;
      assert [z[0]] + z[1..] == z;
    }
  }

  lemma TermReadsBack(z: Field, rest: seq<byte>, sep: byte)
    requires sep != QUOTE && rest != [] && (rest[0] == sep || rest[0] == NEWLINE)
    ensures ReadField(Term(z, [sep]) + rest, sep) == Some(Parsed(z, rest))
  {
    hide Doubled, ReadQuoted, ReadPlain, NeedCsvQuote;
    if NeedsQuotes(z, [sep]) {
      hide NeedsQuotes;
      QuotedReadsBack(z, rest);
      assert (Term(z, [sep]) + rest)[1..] == Doubled(z) + [QUOTE] + rest;
    } else {
      forall i | 0 <= i < |z|
        ensures !NeedCsvQuote(z[i]) && z[i] != sep
      {
        assert !Special(z, i, [sep]);
      }
      QuoteNeedsQuote();
      PlainReadsBack(z, rest, sep);
      assert z[0] == (z + rest)[0];
    }
  }

  lemma QuoteNeedsQuote()
    ensures NeedCsvQuote(QUOTE)
  {
  }

  lemma {:induction false} RowReadsBack(fields: seq<Field>, rest: seq<byte>, sep: byte)
    requires fields != [] && sep != QUOTE && sep != NEWLINE
    ensures ReadRow(RowText(fields, [sep]) + rest, sep) == Some(Record(fields, rest))
  {
    hide ReadField, Term;
    var s := RowText(fields, [sep]) + rest;
    var t := Term(fields[0], [sep]);
    if |fields| == 1 {
      assert s == t + ([NEWLINE] + rest);
      TermReadsBack(fields[0], [NEWLINE] + rest, sep);
      assert ([NEWLINE] + rest)[1..] == rest;
      assert [fields[0]] == fields;
    } else {
      var more := RowText(fields[1..], [sep]) + rest;
      assert s == t + ([sep] + more);
      TermReadsBack(fields[0], [sep] + more, sep);
      assert ([sep] + more)[1..] == more;
      RowReadsBack(fields[1..], rest, sep);
      assert [fields[0]] + fields[1..] == fields;
    }
  }

  function TableText(rows: seq<seq<Field>>, sep: seq<byte>): seq<byte> {
    if rows == [] then [] else RowText(rows[0], sep) + TableText(rows[1..], sep)
  }

  /** Everything written in CSV mode with a one-byte separator other than a quote
      or a newline is read back field by field, row by row. */
  lemma {:induction false} TableReadsBack(rows: seq<seq<Field>>, sep: byte)
    requires sep != QUOTE && sep != NEWLINE
    requires FullRows(rows)
    ensures ReadAll(TableText(rows, [sep]), sep) == Some(rows)
  {
    hide ReadRow, RowText;
    if rows != [] {
      RowReadsBack(rows[0], TableText(rows[1..], [sep]), sep);
      RowNotEmpty(rows[0], [sep]);
      TableReadsBack(rows[1..], sep);
      assert [rows[0]] + rows[1..] == rows;
    }
  }

  lemma {:induction false} RowNotEmpty(fields: seq<Field>, sep: seq<byte>)
    ensures RowText(fields, sep) != []
  {
    if |fields| > 1 {
      RowNotEmpty(fields[1..], sep);
    }
  }

  /** Tables can be told apart by their text. */
  ghost predicate Decodable(sep: seq<byte>) {
    forall a: seq<seq<Field>>, b: seq<seq<Field>> ::
      FullRows(a) && FullRows(b) && TableText(a, sep) == TableText(b, sep) ==> a == b
  }

  ghost predicate FullRows(rows: seq<seq<Field>>) {
    forall i | 0 <= i < |rows| :: rows[i] != []
  }

  /** Among the separators of at most one byte, those for which any reader can
      exist are all but the empty one, the quote and the newline. A separator is
      a C string, so its byte is not NUL. */
  lemma DecodableIff(sep: seq<byte>)
    requires |sep| <= 1 && 0 !in sep
    ensures Decodable(sep) <==> sep != [] && sep != [QUOTE] && sep != [NEWLINE]
  {
    hide TableText;
    if sep == [] {
      EmptyAmbiguous();
    } else if sep == [NEWLINE] {
      NewlineAmbiguous();
    } else if sep == [QUOTE] {
      QuoteAmbiguous();
    } else {
      assert sep == [sep[0]];
      forall a: seq<seq<Field>>, b: seq<seq<Field>>
        | FullRows(a) && FullRows(b) && TableText(a, sep) == TableText(b, sep)
        ensures a == b
      {
        TableReadsBack(a, sep[0]);
        TableReadsBack(b, sep[0]);
      }
    }
  }

  /** Without a separator two plain columns print as one. */
  lemma EmptyAmbiguous()
    ensures !Decodable([])
  {
    var a: Field, b: Field := [97], [97, 97];
    TableOne([a, a], []);
    TableOne([b], []);
    assert !NeedsQuotes(a, []) && !NeedsQuotes(b, []);
    assert [a, a][1..] == [a];
    assert RowText([a], []) == a + [NEWLINE];
    assert RowText([a, a], []) == a + [] + RowText([a], []);
    assert RowText([a, a], []) == RowText([b], []);
    assert [[a, a]] != [[b]] by {
      assert |[[a, a]][0]| == 2 && |[[b]][0]| == 1;
    }
    assert FullRows([[a, a]]) && FullRows([[b]]);
  }

  lemma TableOne(row: seq<Field>, sep: seq<byte>)
    ensures TableText([row], sep) == RowText(row, sep)
  {
    hide RowText;
    assert [row][1..] == [] && TableText([], sep) == [];
  }

  lemma NewlineAmbiguous()
    ensures !Decodable([NEWLINE])
  {
    var x: Field := [];
    var sep := [NEWLINE];
    var one, two := [[x], [x]], [[x, x]];
    assert one[1..] == [[x]] && [x, x][1..] == [x];
    TableOne([x], sep);
    TableOne([x, x], sep);
    assert TableText(one, sep) == RowText([x], sep) + RowText([x], sep);
    assert TableText(two, sep) == Term(x, sep) + sep + RowText([x], sep);
    assert TableText(one, sep) == TableText(two, sep);
    assert |one| == 2 && |two| == 1;
  }

  lemma QuoteAmbiguous()
    ensures !Decodable([QUOTE])
  {
    var x: Field := [];
    var z: Field := [QUOTE, QUOTE, QUOTE];
    var sep := [QUOTE];
    var one, three := [[z]], [[x, x, x]];
    TableOne([z], sep);
    TableOne([x, x, x], sep);
    assert [x, x, x][1..] == [x, x] && [x, x][1..] == [x];
    assert Term(x, sep) == [QUOTE, QUOTE];
    assert Special(z, 0, sep);
    ThreeQuotes();
    var eight := [QUOTE, QUOTE, QUOTE, QUOTE, QUOTE, QUOTE, QUOTE, QUOTE];
    assert Term(z, sep) == eight;
    assert RowText([x], sep) == [QUOTE, QUOTE, NEWLINE];
    assert RowText([x, x], sep) == [QUOTE, QUOTE] + sep + RowText([x], sep);
    assert RowText([x, x, x], sep) == [QUOTE, QUOTE] + sep + RowText([x, x], sep);
    assert RowText([x, x, x], sep) == eight + [NEWLINE];
    assert |one[0]| == 1 && |three[0]| == 3;
  }

  lemma ThreeQuotes()
    ensures Doubled([QUOTE, QUOTE, QUOTE]) == [QUOTE, QUOTE, QUOTE, QUOTE, QUOTE, QUOTE]
  {
    assert [QUOTE, QUOTE, QUOTE][1..] == [QUOTE, QUOTE] && [QUOTE, QUOTE][1..] == [QUOTE] && [QUOTE][1..] == [];
    assert Doubled([QUOTE]) == [QUOTE, QUOTE];
  }

  /** Which fields are quoted with a one-byte separator: the empty one, and any with
      the separator, a quote of either kind, a space, or a byte that is a control
      or not ASCII. */
  lemma QuotedIff(z: Field, sep: byte)
    ensures NeedsQuotes(z, [sep]) <==>
            z == [] || exists b | b in z :: b == sep || b == 34 || b == 39 || b <= 32 || b >= 127
  {
    if z != [] && exists b | b in z :: b == sep || b == 34 || b == 39 || b <= 32 || b >= 127 {
      var b :| b in z && (b == sep || b == 34 || b == 39 || b <= 32 || b >= 127);
      var i :| 0 <= i < |z| && z[i] == b;
      assert Special(z, i, [sep]);
    }
    if i :| 0 <= i < |z| && Special(z, i, [sep]) {
      assert z[i] in z;
    }
  }

  /** The separator stands somewhere in a field. */
  ghost predicate Contains(z: Field, sep: seq<byte>) {
    exists p: nat | p + |sep| <= |z| :: At(z, p, sep)
  }

  ghost predicate At(z: Field, p: nat, sep: seq<byte>) {
    p + |sep| <= |z| && forall i | 0 <= i < |sep| :: z[p + i] == sep[i]
  }

  ghost predicate AnyNeedsQuote(sep: seq<byte>) {
    exists i | 0 <= i < |sep| :: NeedCsvQuote(sep[i])
  }

  /** With a longer separator a field may hold it unquoted past its start. */
  lemma LongSeparatorUnquoted(c: byte, sep: seq<byte>)
    requires |sep| >= 2 && !AnyNeedsQuote(sep) && !NeedCsvQuote(c) && c != sep[0]
    ensures !NeedsQuotes([c] + sep, sep) && Contains([c] + sep, sep)
  {
    hide NeedCsvQuote;
    var z := [c] + sep;
    assert At(z, 1, sep);
    assert !(sep <= z) by { assert z[0] != sep[0]; }
    forall i | 0 <= i < |z| ensures !Special(z, i, sep) {
      assert i > 0 ==> z[i] == sep[i - 1];
    }
  }

  /** A separator of several bytes is quoted in every field that holds it exactly
      when one of its bytes needs quoting by itself. */
  lemma LongSeparatorQuotedIff(sep: seq<byte>)
    requires |sep| >= 2
    ensures (forall z: Field :: Contains(z, sep) ==> NeedsQuotes(z, sep)) <==> AnyNeedsQuote(sep)
  {
    hide NeedCsvQuote;
    if AnyNeedsQuote(sep) {
      var i :| 0 <= i < |sep| && NeedCsvQuote(sep[i]);
      forall z: Field | Contains(z, sep) ensures NeedsQuotes(z, sep) {
        var p: nat :| p + |sep| <= |z| && At(z, p, sep);
        assert Special(z, p + i, sep);
      }
    } else {
      var c := PlainByte(sep[0]);
      LongSeparatorUnquoted(c, sep);
    }
  }

  /** A byte other than a given one that prints as it is. */
  lemma PlainByte(x: byte) returns (c: byte)
    ensures !NeedCsvQuote(c) && c != x
  {
    c := if x == 97 then 98 else 97;
  }

  /** Where no byte of it needs quoting, tables cannot be told apart. */
  lemma LongSeparatorAmbiguous(sep: seq<byte>)
    requires |sep| >= 2 && !AnyNeedsQuote(sep)
    ensures !Decodable(sep)
  {
    var c := PlainByte(sep[0]);
    hide NeedCsvQuote, NeedsQuotes;
    var a: Field, z: Field := [c], [c] + sep + [c];
    OnePlain(c, sep);
    BothPlain(c, sep);
    TableOne([a, a], sep);
    TableOne([z], sep);
    assert [a, a][1..] == [a];
    assert RowText([a], sep) == a + [NEWLINE];
    assert RowText([a, a], sep) == a + sep + (a + [NEWLINE]);
    assert RowText([z], sep) == z + [NEWLINE];
    assert a + sep + (a + [NEWLINE]) == z + [NEWLINE];
    assert [[a, a]] != [[z]] by {
      assert |[[a, a]][0]| == 2 && |[[z]][0]| == 1;
    }
    assert FullRows([[a, a]]) && FullRows([[z]]);
  }

  lemma OnePlain(c: byte, sep: seq<byte>)
    requires |sep| >= 2 && !NeedCsvQuote(c) && c != sep[0]
    ensures !NeedsQuotes([c], sep)
  {
  }

  lemma BothPlain(c: byte, sep: seq<byte>)
    requires |sep| >= 2 && !AnyNeedsQuote(sep) && !NeedCsvQuote(c) && c != sep[0]
    ensures !NeedsQuotes([c] + sep + [c], sep)
  {
    hide NeedCsvQuote;
    var z := [c] + sep + [c];
    assert !(sep <= z) by { assert z[0] != sep[0]; }
    forall i | 0 <= i < |z| ensures !Special(z, i, sep) {
      assert 0 < i <= |sep| ==> z[i] == sep[i - 1];
    }
  }
}

/** Crash quarantine of scheduled queries: the executing marker and the denylist
    that `Schedule` persists as text and restores on the next start. */
module Denylist {
  import opened Basics
  import opened Text

  const QUARANTINE: nat := 86400

  /** The denylist is an ordered map; here, its entries in key order. */
  datatype Entry = Entry(name: string, expires: nat)

  function Lookup(es: seq<Entry>, name: string): Option<nat> {
    if es == [] then None
    else if es[0].name == name then Some(es[0].expires)
    else Lookup(es[1..], name)
  }

  function Remove(es: seq<Entry>, name: string): seq<Entry> {
    if es == [] then []
    else (if es[0].name == name then [] else [es[0]]) + Remove(es[1..], name)
  }

  function Place(es: seq<Entry>, e: Entry): seq<Entry> {
    if es == [] || LexLess(e.name, es[0].name) then [e] + es else [es[0]] + Place(es[1..], e)
  }

  function Put(es: seq<Entry>, name: string, expires: nat): seq<Entry> {
    Place(Remove(es, name), Entry(name, expires))
  }

  lemma {:induction false} LookupRemove(es: seq<Entry>, name: string, other: string)
    ensures Lookup(Remove(es, name), other) == if name == other then None else Lookup(es, other)
  {
    if es != [] {
      LookupRemove(es[1..], name, other);
      if es[0].name == name {
        assert Remove(es, name) == Remove(es[1..], name);
      } else {
        assert Remove(es, name)[1..] == Remove(es[1..], name);
      }
    }
  }

  lemma {:induction false} LookupPlace(es: seq<Entry>, e: Entry, other: string)
    requires Lookup(es, e.name) == None
    ensures Lookup(Place(es, e), other) == if e.name == other then Some(e.expires) else Lookup(es, other)
  {
    if es == [] || LexLess(e.name, es[0].name) {
      assert ([e] + es)[1..] == es;
    } else {
      LookupPlace(es[1..], e, other);
      assert Place(es, e)[1..] == Place(es[1..], e);
    }
  }

  lemma LookupPut(es: seq<Entry>, name: string, expires: nat, other: string)
    ensures Lookup(Put(es, name, expires), other) == if name == other then Some(expires) else Lookup(es, other)
  {
    LookupRemove(es, name, name);
    LookupRemove(es, name, other);
    LookupPlace(Remove(es, name), Entry(name, expires), other);
  }

  // ------------------------------------------------------------------ text

  function TrimLeft(s: string): (r: string)
    ensures |r| <= |s| && r == s[|s| - |r|..]
    ensures r != "" ==> !IsSpace(r[0])
  {
    if s != "" && IsSpace(s[0]) then TrimLeft(s[1..]) else s
  }

  function TrimRight(s: string): (r: string)
    ensures |r| <= |s| && r == s[..|r|]
    ensures r != "" ==> !IsSpace(r[|r| - 1])
  {
    if s != "" && IsSpace(s[|s| - 1]) then TrimRight(s[..|s| - 1]) else s
  }

  function Trim(s: string): string {
    TrimRight(TrimLeft(s))
  }

  /** The pieces of a text between colons. */
  function Fields(s: string): (fs: seq<string>)
    ensures |fs| >= 1
  {
    if s == "" then [""]
    else if s[0] == ':' then [""] + Fields(s[1..])
    else
      var fs := Fields(s[1..]);
      [[s[0]] + fs[0]] + fs[1..]
  }

  /** Pieces that are empty go; the rest are trimmed. */
  function Trimmed(fs: seq<string>): seq<string> {
    if fs == [] then [] else TrimPiece(fs[0]) + Trimmed(fs[1..])
  }

  function TrimPiece(f: string): seq<string> {
    if f == "" then [] else [Trim(f)]
  }

  /** `split(content, ":")`. */
  function Split(content: string): seq<string> {
    Trimmed(Fields(content))
  }

  predicate Clean(name: string) {
    name != "" && ':' !in name && !IsSpace(name[0]) && !IsSpace(name[|name| - 1])
  }

  lemma CleanTrim(s: string)
    requires Clean(s)
    ensures Trim(s) == s
  {
  }

  lemma DigitsClean(n: nat)
    ensures Clean(ToString(n))
  {
    var s := ToString(n);
    assert IsDigit(s[0]) && IsDigit(s[|s| - 1]);
    assert ':' !in s by {
      forall i | 0 <= i < |s| ensures s[i] != ':' { assert IsDigit(s[i]); }
    }
  }

  lemma FieldsCons(c: char, s: string)
    ensures Fields([c] + s) == if c == ':' then [""] + Fields(s) else [[c] + Fields(s)[0]] + Fields(s)[1..]
    ensures Fields("") == [""]
  {
    assert ([c] + s)[1..] == s;
  }

  lemma {:induction false} FieldsJoin(a: string, b: string)
    ensures Fields(a + ":" + b) == Fields(a) + Fields(b)
  {
    hide Fields;
    FieldsCons(':', b);
    if a == "" {
      assert a + ":" + b == [':'] + b;
    } else {
      var t := a[1..] + ":" + b;
      FieldsJoin(a[1..], b);
      FieldsCons(a[0], t);
      FieldsCons(a[0], a[1..]);
      assert [a[0]] + a[1..] == a && [a[0]] + t == a + ":" + b;
    }
  }

  lemma {:induction false} FieldsWhole(s: string)
    requires ':' !in s
    ensures Fields(s) == [s]
  {
    if s != "" {
      assert forall c | c in s[1..] :: c in s;
      assert s[0] in s;
      FieldsWhole(s[1..]);
      assert [s[0]] + s[1..] == s;
    }
  }

  lemma TrimmedCons(f: string, fs: seq<string>)
    ensures Trimmed([f] + fs) == TrimPiece(f) + Trimmed(fs)
    ensures Trimmed([]) == []
  {
    assert ([f] + fs)[1..] == fs;
  }

  lemma {:induction false} TrimmedConcat(a: seq<string>, b: seq<string>)
    ensures Trimmed(a + b) == Trimmed(a) + Trimmed(b)
  {
    hide Trimmed, TrimPiece;
    if a == [] {
      TrimmedCons("", b);
      assert a + b == b;
    } else {
      TrimmedConcat(a[1..], b);
      TrimmedCons(a[0], a[1..] + b);
      TrimmedCons(a[0], a[1..]);
      Associative(TrimPiece(a[0]), Trimmed(a[1..]), Trimmed(b));
      assert [a[0]] + a[1..] == a && [a[0]] + (a[1..] + b) == a + b;
    }
  }

  lemma SplitJoin(a: string, b: string)
    ensures Split(a + ":" + b) == Split(a) + Split(b)
  {
    FieldsJoin(a, b);
    TrimmedConcat(Fields(a), Fields(b));
  }

  lemma SplitClean(s: string)
    requires Clean(s)
    ensures Split(s) == [s]
  {
    FieldsWhole(s);
    CleanTrim(s);
    assert Trimmed([s]) == [Trim(s)] + Trimmed([s][1..]);
  }

  // --------------------------------------------------------- save, restore

  /** The text written for an entry list. */
  function SaveText(es: seq<Entry>): string {
    if es == [] then ""
    else
      var before, e := SaveText(es[..|es| - 1]), es[|es| - 1];
      (if before == "" then "" else before + ":") + (e.name + ":" + ToString(e.expires))
  }

  function Tokens(es: seq<Entry>): seq<string> {
    if es == [] then [] else Tokens(es[..|es| - 1]) + [es[|es| - 1].name, ToString(es[|es| - 1].expires)]
  }

  ghost predicate AllClean(es: seq<Entry>) {
    forall i | 0 <= i < |es| :: Clean(es[i].name) && es[i].expires < TWO63
  }

  ghost predicate Unique(es: seq<Entry>) {
    forall i, j | 0 <= i < j < |es| :: es[i].name != es[j].name
  }

  lemma {:induction false} SaveSplits(es: seq<Entry>)
    requires AllClean(es) && es != []
    ensures Split(SaveText(es)) == Tokens(es) && SaveText(es) != ""
  {
    hide Split, Clean, ToString;
    var init, e := es[..|es| - 1], es[|es| - 1];
    var digits := ToString(e.expires);
    DigitsClean(e.expires);
    SplitClean(e.name);
    SplitClean(digits);
    SplitJoin(e.name, digits);
    if init != [] {
      SaveSplits(init);
      SplitJoin(SaveText(init), e.name + ":" + digits);
      assert SaveText(init) + ":" + (e.name + ":" + digits) == SaveText(es);
    } else {
      assert SaveText(es) == e.name + ":" + digits;
      assert Tokens(es) == [e.name] + [digits];
    }
  }

  /** The pair loop of `restoreScheduleDenylist`. */
  function RestorePairs(tokens: seq<string>, now: nat): seq<Entry> {
    if |tokens| < 2 then []
    else
      var n := |tokens|;
      var before := RestorePairs(tokens[..n - 2], now);
      var expires := TryToLongLong(tokens[n - 1]).GetOr(0);
      if expires > 0 && now < expires then Put(before, tokens[n - 2], expires) else before
  }

  function Restore(content: string, now: nat): seq<Entry> {
    var tokens := Split(content);
    if |tokens| % 2 != 0 then [] else RestorePairs(tokens, now)
  }

  lemma {:induction false} TokensPaired(es: seq<Entry>)
    ensures |Tokens(es)| == 2 * |es|
  {
    if es != [] {
      TokensPaired(es[..|es| - 1]);
    }
  }

  lemma {:induction false} LookupSnoc(es: seq<Entry>, e: Entry, name: string)
    ensures Lookup(es + [e], name) ==
            if Lookup(es, name).Some? then Lookup(es, name) else if e.name == name then Some(e.expires) else None
  {
    if es == [] {
      assert es + [e] == [e] && [e][1..] == [];
    } else {
      LookupSnoc(es[1..], e, name);
      assert (es + [e])[1..] == es[1..] + [e];
    }
  }

  lemma {:induction false} LookupAbsent(es: seq<Entry>, name: string)
    requires forall i | 0 <= i < |es| :: es[i].name != name
    ensures Lookup(es, name) == None
  {
    if es != [] {
      LookupAbsent(es[1..], name);
    }
  }

  /** The last entry of a saved list, read back. */
  lemma RestorePair(es: seq<Entry>, now: nat)
    requires es != [] && es[|es| - 1].expires < TWO63
    ensures var before, e := RestorePairs(Tokens(es[..|es| - 1]), now), es[|es| - 1];
            RestorePairs(Tokens(es), now) == if now < e.expires then Put(before, e.name, e.expires) else before
  {
    hide ToString, TryToLongLong, TryToUint64, WholeUint64, ToIndex, Put;
    var init, e, n := es[..|es| - 1], es[|es| - 1], |Tokens(es)|;
    TokensPaired(init);
    assert Tokens(es)[..n - 2] == Tokens(init);
    assert Tokens(es)[n - 2] == e.name && Tokens(es)[n - 1] == ToString(e.expires);
    NumbersReadBack(e.expires);
  }

  lemma {:induction false} RestoredPairs(es: seq<Entry>, now: nat, name: string)
    requires AllClean(es) && Unique(es)
    ensures var x := Lookup(es, name);
            Lookup(RestorePairs(Tokens(es), now), name) == if x.Some? && now < x.value then x else None
  {
    hide ToString, TryToLongLong, TryToUint64, WholeUint64, ToIndex, Put, Lookup, Clean, Tokens, RestorePairs;
    if es == [] {
      LookupAbsent(es, name);
      NothingSaved(now);
    } else {
      var init, e := es[..|es| - 1], es[|es| - 1];
      RestorePair(es, now);
      RestoredPairs(init, now, name);
      LookupPut(RestorePairs(Tokens(init), now), e.name, e.expires, name);
      LookupSnoc(init, e, name);
      assert es == init + [e];
      if name == e.name {
        LookupAbsent(init, name);
      }
    }
  }

  /** Saving and restoring loses exactly the entries that have run out. */
  lemma RestoreSave(es: seq<Entry>, now: nat, name: string)
    requires AllClean(es) && Unique(es)
    ensures var x := Lookup(es, name);
            Lookup(Restore(SaveText(es), now), name) == if x.Some? && now < x.value then x else None
  {
    hide Clean, ToString, RestorePairs, Tokens, SaveText, Lookup, Trim;
    RestoredPairs(es, now, name);
    TokensPaired(es);
    if es == [] {
      NothingSaved(now);
    } else {
      SaveSplits(es);
    }
  }

  lemma NothingSaved(now: nat)
    ensures SaveText([]) == "" && Restore(SaveText([]), now) == [] && RestorePairs(Tokens([]), now) == []
  {
    assert Fields("") == [""] && [""][1..] == [];
    assert Trimmed([""]) == Trimmed([]);
  }

  lemma {:induction false} FieldsHaveNoColon(s: string)
    ensures forall f | f in Fields(s) :: ':' !in f
  {
    if s != "" {
      FieldsHaveNoColon(s[1..]);
      var fs := Fields(s[1..]);
      assert fs[0] in fs;
      assert forall f | f in fs[1..] :: f in fs;
    }
  }

  lemma {:induction false} TrimmedShape(fs: seq<string>)
    requires forall f | f in fs :: ':' !in f
    ensures forall t | t in Trimmed(fs) :: t == "" || Clean(t)
  {
    if fs != [] {
      assert fs[0] in fs;
      TrimmedShape(fs[1..]);
      TrimShape(fs[0]);
    }
  }

  lemma TrimShape(s: string)
    requires ':' !in s
    ensures Trim(s) == "" || Clean(Trim(s))
  {
    hide TrimLeft, TrimRight, IsSpace;
    var l := TrimLeft(s);
    var t := TrimRight(l);
    assert forall i | 0 <= i < |t| :: t[i] == l[i] == s[|s| - |l| + i];
  }

  lemma {:induction false} RestoredNames(tokens: seq<string>, now: nat, name: string)
    requires Lookup(RestorePairs(tokens, now), name).Some?
    ensures name in tokens
  {
    hide Put, TryToLongLong;
    var n := |tokens|;
    if n >= 2 && name != tokens[n - 2] {
      var expires := TryToLongLong(tokens[n - 1]).GetOr(0);
      if expires > 0 {
        LookupPut(RestorePairs(tokens[..n - 2], now), tokens[n - 2], expires, name);
      }
      RestoredNames(tokens[..n - 2], now, name);
      assert forall t | t in tokens[..n - 2] :: t in tokens;
    }
  }

  /** How many tokens a saved list is read back as, whatever its names are. */
  function PieceCount(es: seq<Entry>): nat {
    if es == [] then 0 else PieceCount(es[..|es| - 1]) + |Split(es[|es| - 1].name)| + 1
  }

  lemma {:induction false} SplitCount(es: seq<Entry>)
    ensures |Split(SaveText(es))| == PieceCount(es)
    ensures es != [] ==> SaveText(es) != ""
  {
    hide Split, ToString, Clean;
    if es == [] {
      SplitEmpty();
    } else {
      var init, e := es[..|es| - 1], es[|es| - 1];
      var digits := ToString(e.expires);
      DigitsClean(e.expires);
      SplitClean(digits);
      SplitJoin(e.name, digits);
      SplitCount(init);
      SplitJoin(SaveText(init), e.name + ":" + digits);
      assert SaveText(es) == (if init == [] then "" else SaveText(init) + ":") + (e.name + ":" + digits);
      assert init == [] ==> SaveText(es) == e.name + ":" + digits;
    }
  }

  lemma SplitEmpty()
    ensures Split("") == []
  {
    assert Fields("") == [""] && [""][1..] == [];
  }

  /** A colon inside one name makes the token count odd, and the whole list is
      dropped, entries with clean names included. */
  lemma ColonLosesAll(x: string, y: string, expires: nat, e: Entry, now: nat)
    requires Clean(x) && Clean(y) && Clean(e.name)
    ensures Restore(SaveText([Entry(x + ":" + y, expires), e]), now) == []
  {
    hide Split, SaveText, Clean;
    var es := [Entry(x + ":" + y, expires), e];
    SplitClean(x);
    SplitClean(y);
    SplitJoin(x, y);
    SplitClean(e.name);
    SplitCount(es);
    assert es[..1] == [es[0]] && [es[0]][..0] == [];
    assert PieceCount(es[..1]) == PieceCount([]) + 2 + 1;
    assert PieceCount(es) == PieceCount(es[..1]) + 1 + 1;
  }

  ghost predicate Unnamed(es: seq<Entry>) {
    exists i | 0 <= i < |es| :: es[i].name == ""
  }

  /** Among clean names one empty name makes the count odd. */
  lemma {:induction false} UnnamedIsOdd(es: seq<Entry>)
    requires Unique(es)
    requires forall i | 0 <= i < |es| :: es[i].name == "" || Clean(es[i].name)
    ensures PieceCount(es) == 2 * |es| - if Unnamed(es) then 1 else 0
  {
    hide Split, Clean;
    if es != [] {
      var init, e := es[..|es| - 1], es[|es| - 1];
      UnnamedIsOdd(init);
      assert Unnamed(init) ==> exists i | 0 <= i < |init| :: es[i].name == "";
      if e.name == "" {
        SplitEmpty();
        assert Unnamed(es);
      } else {
        SplitClean(e.name);
        assert Unnamed(es) ==> exists i | 0 <= i < |init| :: init[i].name == "";
      }
    }
  }

  ghost predicate AllSurvive(es: seq<Entry>, now: nat) {
    forall i | 0 <= i < |es| :: Lookup(Restore(SaveText(es), now), es[i].name) == Some(es[i].expires)
  }

  lemma SurvivorsClean(es: seq<Entry>, now: nat, i: nat)
    requires AllSurvive(es, now) && i < |es|
    ensures es[i].name == "" || Clean(es[i].name)
  {
    hide Clean, SaveText, Trim, Lookup;
    if |Split(SaveText(es))| % 2 != 0 {
      OddIsDropped(SaveText(es), now, es[i].name);
    }
    RestoredNames(Split(SaveText(es)), now, es[i].name);
    FieldsHaveNoColon(SaveText(es));
    TrimmedShape(Fields(SaveText(es)));
  }

  lemma {:induction false} LookupMember(es: seq<Entry>, i: nat)
    requires Unique(es) && i < |es|
    ensures Lookup(es, es[i].name) == Some(es[i].expires)
  {
    if i > 0 {
      LookupMember(es[1..], i - 1);
    }
  }

  /** Of a list whose entries have not run out, every entry survives a save and a
      restore exactly when every name is not empty, has no colon and has no space
      at either end. */
  lemma SurvivesIffClean(es: seq<Entry>, now: nat)
    requires Unique(es)
    requires forall i | 0 <= i < |es| :: now < es[i].expires < TWO63
    ensures AllSurvive(es, now) <==> forall i | 0 <= i < |es| :: Clean(es[i].name)
  {
    hide Clean, SaveText, Restore, Lookup, Split;
    if AllClean(es) {
      forall i | 0 <= i < |es| ensures Lookup(Restore(SaveText(es), now), es[i].name) == Some(es[i].expires) {
        RestoreSave(es, now, es[i].name);
        LookupMember(es, i);
      }
    } else if AllSurvive(es, now) {
      forall i | 0 <= i < |es| ensures es[i].name == "" || Clean(es[i].name) {
        SurvivorsClean(es, now, i);
      }
      UnnamedIsOdd(es);
      SplitCount(es);
      var i :| 0 <= i < |es| && !Clean(es[i].name);
      assert es[i].name == "";
      OddIsDropped(SaveText(es), now, es[i].name);
    }
  }

  lemma OddIsDropped(content: string, now: nat, name: string)
    requires |Split(content)| % 2 != 0
    ensures Lookup(Restore(content, now), name) == None
  {
    hide Split;
  }

  // -------------------------------------------------------------- schedule

  /** A scheduled query as one pass over the schedule meets it: its name, whether
      it is exempt from denylisting, and the clock at that moment. */
  datatype Scheduled = Scheduled(name: string, exempt: bool, now: nat)

  /** The two persisted settings and the in-memory denylist. */
  datatype State = State(failed: string, executing: string, denylist: seq<Entry>)

  /** `denylistExpired`. */
  predicate DenylistExpired(expires: nat, q: Scheduled) {
    q.now > expires || q.exempt
  }

  predicate Held(es: seq<Entry>, q: Scheduled) {
    Lookup(es, q.name).Some? && !DenylistExpired(Lookup(es, q.name).value, q)
  }

  /** What meeting one query does to the schedule. */
  function Meet(s: State, q: Scheduled): State {
    if Lookup(s.denylist, q.name).Some? && !Held(s.denylist, q) then
      var es := Remove(s.denylist, q.name);
      s.(denylist := es, failed := SaveText(es))
    else s
  }

  /** The schedule after a pass, and the names handed to the caller. */
  function PassState(s: State, qs: seq<Scheduled>): State {
    if qs == [] then s else Meet(PassState(s, qs[..|qs| - 1]), qs[|qs| - 1])
  }

  function Handed(s: State, qs: seq<Scheduled>, denylisted: bool): seq<string> {
    if qs == [] then []
    else
      var before, q := qs[..|qs| - 1], qs[|qs| - 1];
      Handed(s, before, denylisted)
      + if Held(PassState(s, before).denylist, q) && !denylisted then [] else [q.name]
  }

  /** `Schedule::Schedule` in a new process. The marker is cleared in the database
      before the list is saved; a process that `dies` ends between the two. */
  function Boot(s: State, now: nat, watchdog: bool, dies: bool): State {
    var es := Restore(s.failed, now);
    if s.executing == "" then s.(denylist := es)
    else if !watchdog || dies then s.(denylist := es, executing := "")
    else
      var es' := Put(es, s.executing, now + QUARANTINE);
      State(SaveText(es'), "", es')
  }

  class Schedule {
    var failed: string
    var executing: string
    var denylist: seq<Entry>
    /** When each query name was last started, also persisted. */
    var timestamps: map<string, nat>

    ghost function View(): State
      reads this
    {
      State(failed, executing, denylist)
    }

    method SaveScheduleDenylist()
      modifies this`failed
      ensures failed == SaveText(denylist)
    {
      var content := "";
      var i := 0;
      while i < |denylist|
        invariant i <= |denylist|
        invariant content == SaveText(denylist[..i])
      {
        assert denylist[..i + 1][..i] == denylist[..i];
        if content != "" {
          content := content + ":";
        }
        content := content + (denylist[i].name + ":" + ToString(denylist[i].expires));
        i := i + 1;
      }
      assert denylist[..|denylist|] == denylist;
      failed := content;
    }

    method RestoreScheduleDenylist(now: nat) returns (es: seq<Entry>)
      ensures es == Restore(failed, now)
    {
      hide Put, TryToLongLong, Split;
      es := [];
      var pairs := Split(failed);
      if |pairs| == 0 || |pairs| % 2 != 0 {
        return;
      }
      var i := 0;
      while i < |pairs| / 2
        invariant i <= |pairs| / 2
        invariant es == RestorePairs(pairs[..2 * i], now)
      {
        var expires := TryToLongLong(pairs[2 * i + 1]).GetOr(0);
        assert pairs[..2 * i + 2][..2 * i] == pairs[..2 * i];
        if expires > 0 && now < expires {
          es := Put(es, pairs[2 * i], expires);
        }
        i := i + 1;
      }
      assert pairs[..2 * i] == pairs;
    }

    /** The start of a new process over the persisted settings. */
    method Start(now: nat, watchdog: bool, dies: bool)
      modifies this`denylist, this`executing, this`failed
      ensures View() == Boot(old(View()), now, watchdog, dies)
    {
      denylist := RestoreScheduleDenylist(now);
      if executing != "" {
        var name := executing;
        executing := "";
        if dies {
          return;
        }
        if watchdog {
          denylist := Put(denylist, name, now + QUARANTINE);
          SaveScheduleDenylist();
        }
      }
    }

    /** `scheduledQueries`: walk the schedule, dropping entries that have run out. */
    method ScheduledQueries(qs: seq<Scheduled>, denylisted: bool) returns (handed: seq<string>)
      modifies this`denylist, this`failed
      ensures View() == PassState(old(View()), qs)
      ensures handed == Handed(old(View()), qs, denylisted)
    {
      hide SaveText, Remove, Lookup;
      handed := [];
      var i := 0;
      while i < |qs|
        invariant i <= |qs|
        invariant View() == PassState(old(View()), qs[..i])
        invariant handed == Handed(old(View()), qs[..i], denylisted)
      {
        var q := qs[i];
        assert qs[..i + 1][..i] == qs[..i];
        var held := false;
        var entry := Lookup(denylist, q.name);
        if entry.Some? {
          if DenylistExpired(entry.value, q) {
            denylist := Remove(denylist, q.name);
            SaveScheduleDenylist();
          } else {
            held := true;
          }
        }
        if !held || denylisted {
          handed := handed + [q.name];
        }
        i := i + 1;
      }
      assert qs[..|qs|] == qs;
    }

    method RecordQueryStart(name: string, now: nat)
      modifies this`executing, this`timestamps
      ensures View() == old(View()).(executing := name)
      ensures timestamps == old(timestamps)[name := now]
    {
      executing := name;
      timestamps := timestamps[name := now];
    }

    /** The marker outlives a query that ran into a watchdog limit. */
    method RecordQueryPerformance(limitHit: bool)
      modifies this`executing
      ensures View() == if limitHit then old(View()) else old(View()).(executing := "")
    {
      if !limitHit {
        executing := "";
      }
    }
  }

  // ------------------------------------------------------------------ runs

  datatype Op =
    | QueryStart(name: string)
    | QueryEnd(limitHit: bool)
    | Pass(qs: seq<Scheduled>)
    | Restart(now: nat, watchdog: bool, dies: bool)

  function Step(s: State, op: Op): State {
    match op
    case QueryStart(name) => s.(executing := name)
    case QueryEnd(limitHit) => if limitHit then s else s.(executing := "")
    case Pass(qs) => PassState(s, qs)
    case Restart(now, watchdog, dies) => Boot(s, now, watchdog, dies)
  }

  function Run(s: State, ops: seq<Op>): State {
    if ops == [] then s else Step(Run(s, ops[..|ops| - 1]), ops[|ops| - 1])
  }

  /** Clean names and clock readings that leave room for an expiry. */
  ghost predicate Plausible(op: Op) {
    match op
    case QueryStart(name) => Clean(name)
    case Restart(now, _, _) => now + QUARANTINE < TWO63
    case _ => true
  }

  /** Clock readings in `[from, to)`, and `query` never exempt. */
  ghost predicate During(op: Op, from: nat, to: nat, query: string) {
    match op
    case Pass(qs) => AllDuring(qs, from, to, query)
    case Restart(now, _, _) => from <= now < to
    case _ => true
  }

  ghost predicate AllDuring(qs: seq<Scheduled>, from: nat, to: nat, query: string) {
    forall i | 0 <= i < |qs| :: from <= qs[i].now < to && (qs[i].name == query ==> !qs[i].exempt)
  }

  ghost predicate Tidy(es: seq<Entry>) {
    AllClean(es) && Unique(es)
  }

  ghost predicate Saved(failed: string, es: seq<Entry>) {
    failed == SaveText(es) && Tidy(es)
  }

  ghost predicate Sound(s: State) {
    && Tidy(s.denylist)
    && (exists es :: Saved(s.failed, es))
    && (s.executing == "" || Clean(s.executing))
  }

  ghost predicate Keeps(es: seq<Entry>, query: string, to: nat) {
    Lookup(es, query).Some? && Lookup(es, query).value >= to
  }

  /** In memory and on disk the query is held until `to`. */
  ghost predicate Quarantined(s: State, query: string, to: nat) {
    && Sound(s)
    && Keeps(s.denylist, query, to)
    && (exists es :: Saved(s.failed, es) && Keeps(es, query, to))
  }

  lemma TidyCons(e: Entry, rest: seq<Entry>)
    requires Tidy(rest) && Clean(e.name) && e.expires < TWO63
    requires forall x | x in rest :: x.name != e.name
    ensures Tidy([e] + rest)
  {
    hide Clean;
    SameElements(rest);
  }

  lemma TidyTail(es: seq<Entry>)
    requires Tidy(es) && es != []
    ensures Tidy(es[1..]) && Clean(es[0].name) && es[0].expires < TWO63
    ensures forall x | x in es[1..] :: x in es && x.name != es[0].name
  {
    hide Clean;
  }

  lemma {:induction false} RemoveTidy(es: seq<Entry>, name: string)
    requires Tidy(es)
    ensures Tidy(Remove(es, name))
    ensures forall e | e in Remove(es, name) :: e in es && e.name != name
  {
    if es != [] {
      hide Clean, Tidy;
      TidyTail(es);
      RemoveTidy(es[1..], name);
      assert es[0] in es;
      if es[0].name == name {
        assert Remove(es, name) == Remove(es[1..], name);
      } else {
        TidyCons(es[0], Remove(es[1..], name));
      }
    }
  }

  lemma SameElements(es: seq<Entry>)
    ensures forall i | 0 <= i < |es| :: es[i] in es
  {
  }

  lemma {:induction false} PlaceTidy(es: seq<Entry>, e: Entry)
    requires Tidy(es) && Clean(e.name) && e.expires < TWO63
    requires forall x | x in es :: x.name != e.name
    ensures Tidy(Place(es, e))
    ensures forall x | x in Place(es, e) :: x == e || x in es
  {
    hide Clean, LexLess, Tidy;
    if es != [] && !LexLess(e.name, es[0].name) {
      TidyTail(es);
      PlaceTidy(es[1..], e);
      TidyCons(es[0], Place(es[1..], e));
      assert es[0] in es;
    } else {
      TidyCons(e, es);
    }
  }

  lemma PutTidy(es: seq<Entry>, name: string, expires: nat)
    requires Tidy(es) && Clean(name) && expires < TWO63
    ensures Tidy(Put(es, name, expires))
  {
    hide Tidy;
    RemoveTidy(es, name);
    PlaceTidy(Remove(es, name), Entry(name, expires));
  }

  lemma {:induction false} RestoreTidy(es: seq<Entry>, now: nat)
    requires AllClean(es)
    ensures Tidy(RestorePairs(Tokens(es), now))
  {
    hide Clean, Put, Tokens, RestorePairs;
    if es == [] {
      NothingSaved(now);
    } else {
      var init, e := es[..|es| - 1], es[|es| - 1];
      RestorePair(es, now);
      RestoreTidy(init, now);
      PutTidy(RestorePairs(Tokens(init), now), e.name, e.expires);
    }
  }

  /** Restoring a saved list: what is left is tidy and holds what has not run out. */
  lemma Restored(failed: string, es: seq<Entry>, now: nat)
    requires Saved(failed, es)
    ensures Tidy(Restore(failed, now))
    ensures forall q, to: nat :: Keeps(es, q, to) && now < to ==> Keeps(Restore(failed, now), q, to)
  {
    hide Restore, Lookup, SaveText, AllClean, Unique;
    RestoreSaved(es, now);
    forall q, to: nat | Keeps(es, q, to) && now < to
      ensures Keeps(Restore(failed, now), q, to)
    {
      RestoreSave(es, now, q);
    }
  }

  lemma RestoreSaved(es: seq<Entry>, now: nat)
    requires AllClean(es)
    ensures Tidy(Restore(SaveText(es), now))
  {
    hide AllClean, SaveText, RestorePairs, Tidy, Tokens, Split;
    RestoreTidy(es, now);
    TokensPaired(es);
    if es == [] {
      NothingSaved(now);
    } else {
      SaveSplits(es);
    }
  }

  /** A start keeps every quarantine that has time left, even one that dies
      half-way, and one that saves the list adds the crashed query. */
  lemma BootSound(s: State, now: nat, watchdog: bool, dies: bool)
    requires Sound(s) && now + QUARANTINE < TWO63
    ensures Sound(Boot(s, now, watchdog, dies))
    ensures forall q, to: nat :: Quarantined(s, q, to) && now < to <= now + QUARANTINE
                                 ==> Quarantined(Boot(s, now, watchdog, dies), q, to)
    ensures watchdog && !dies && s.executing != ""
            ==> Quarantined(Boot(s, now, watchdog, dies), s.executing, now + QUARANTINE)
  {
    hide Restore, Put, SaveText, Tidy, Lookup, Clean;
    var es :| Saved(s.failed, es);
    Restored(s.failed, es, now);
    var mem, s' := Restore(s.failed, now), Boot(s, now, watchdog, dies);
    var adds := s.executing != "" && watchdog && !dies;
    if adds {
      PutTidy(mem, s.executing, now + QUARANTINE);
      LookupPut(mem, s.executing, now + QUARANTINE, s.executing);
      assert Saved(s'.failed, s'.denylist);
    } else {
      assert Saved(s'.failed, es);
    }
    forall q, to: nat | Quarantined(s, q, to) && now < to <= now + QUARANTINE
      ensures Quarantined(s', q, to)
    {
      var es' :| Saved(s.failed, es') && Keeps(es', q, to);
      Restored(s.failed, es', now);
      if adds {
        LookupPut(mem, s.executing, now + QUARANTINE, q);
        assert Saved(s'.failed, s'.denylist) && Keeps(s'.denylist, q, to);
      } else {
        assert Saved(s'.failed, es') && Keeps(es', q, to);
      }
    }
  }

  lemma MeetSound(s: State, q: Scheduled, from: nat, to: nat, query: string)
    requires Sound(s)
    ensures Sound(Meet(s, q))
    ensures Quarantined(s, query, to) && from <= q.now < to && (q.name == query ==> !q.exempt)
            ==> Quarantined(Meet(s, q), query, to) && (q.name == query ==> Held(s.denylist, q))
  {
    hide Remove, SaveText, Tidy, Lookup;
    var es := Remove(s.denylist, q.name);
    RemoveTidy(s.denylist, q.name);
    LookupRemove(s.denylist, q.name, query);
    assert Saved(SaveText(es), es);
  }

  lemma {:induction false} PassSound(s: State, qs: seq<Scheduled>, from: nat, to: nat, query: string)
    requires Sound(s)
    ensures Sound(PassState(s, qs))
    ensures Quarantined(s, query, to) && AllDuring(qs, from, to, query)
            ==> Quarantined(PassState(s, qs), query, to) && query !in Handed(s, qs, false)
  {
    hide Sound, Quarantined, Meet, Held;
    if qs != [] {
      var before, q := qs[..|qs| - 1], qs[|qs| - 1];
      PassSound(s, before, from, to, query);
      MeetSound(PassState(s, before), q, from, to, query);
    }
  }

  lemma {:induction false} RunSound(s: State, ops: seq<Op>, from: nat, to: nat, query: string)
    requires Sound(s) && to <= from + QUARANTINE
    requires forall i | 0 <= i < |ops| :: Plausible(ops[i])
    ensures Sound(Run(s, ops))
    ensures Quarantined(s, query, to) && (forall i | 0 <= i < |ops| :: During(ops[i], from, to, query))
            ==> Quarantined(Run(s, ops), query, to)
  {
    hide Lookup, SaveText, Tidy, Clean, PassState, Boot;
    if ops != [] {
      var before, op := ops[..|ops| - 1], ops[|ops| - 1];
      RunSound(s, before, from, to, query);
      var s' := Run(s, before);
      match op
      case QueryStart(_) =>
      case QueryEnd(_) =>
      case Pass(qs) => PassSound(s', qs, from, to, query);
      case Restart(now, watchdog, dies) => BootSound(s', now, watchdog, dies);
    }
  }

  lemma FreshSound()
    ensures Sound(State("", "", []))
  {
    assert Saved("", []);
  }

  /** Crash quarantine. After any plausible history, a start at time `t` with the
      watchdog on that finds `query` as the executing marker and saves the list
      keeps `query` away from the scheduler at every clock reading in
      `[t, t + 86400)`, whatever starts, finishes, crashes and restarts happen in
      between, with or without the watchdog and even where a process dies during
      its own start, as long as the schedule does not exempt the query. */
  lemma CrashQuarantine(history: seq<Op>, t: nat, ops: seq<Op>, qs: seq<Scheduled>)
    requires forall i | 0 <= i < |history| :: Plausible(history[i])
    requires t + 2 * QUARANTINE < TWO63
    requires var query := Run(State("", "", []), history).executing;
             && query != ""
             && (forall i | 0 <= i < |ops| :: Plausible(ops[i]) && During(ops[i], t, t + QUARANTINE, query))
             && AllDuring(qs, t, t + QUARANTINE, query)
    ensures var s := Run(State("", "", []), history);
            s.executing !in Handed(Run(Boot(s, t, true, false), ops), qs, false)
  {
    hide Run, Boot, Sound, Quarantined;
    FreshSound();
    RunSound(State("", "", []), history, t, t, "");
    var s := Run(State("", "", []), history);
    BootSound(s, t, true, false);
    RunSound(Boot(s, t, true, false), ops, t, t + QUARANTINE, s.executing);
    PassSound(Run(Boot(s, t, true, false), ops), qs, t, t + QUARANTINE, s.executing);
  }

  /** The quarantine begins exactly when the save is reached. A query that is not
      on the saved list is handed over by the next process if and only if the
      start that found its marker ran without the watchdog or died before it had
      saved the list: by then the marker is gone. */
  lemma QuarantinedIffSaved(s: State, t: nat, watchdog: bool, dies: bool, u: nat, again: bool, q: Scheduled)
    requires Sound(s) && s.executing != "" && Lookup(Restore(s.failed, t), s.executing) == None
    requires t <= u < t + QUARANTINE && u + QUARANTINE < TWO63
    requires q.name == s.executing && !q.exempt && t <= q.now < t + QUARANTINE
    ensures q.name in Handed(Boot(Boot(s, t, watchdog, dies), u, again, false), [q], false)
            <==> !watchdog || dies
  {
    var s1 := Boot(s, t, watchdog, dies);
    var s2 := Boot(s1, u, again, false);
    if watchdog && !dies {
      hide Boot, Sound, Quarantined, Handed;
      BootSound(s, t, watchdog, dies);
      BootSound(s1, u, again, false);
      PassSound(s2, [q], t, t + QUARANTINE, q.name);
    } else {
      hide Restore, SaveText, Lookup, Tidy, Put;
      var es :| Saved(s.failed, es);
      TidyParts(es);
      RestoreSave(es, t, q.name);
      RestoreSave(es, u, q.name);
      assert [q][..0] == [];
      assert PassState(s2, []) == s2 && Handed(s2, [], false) == [];
    }
  }

  /** Such a loss over a whole run: the process dies while `name` executes, the
      next one dies during its start, and the one after hands `name` over. */
  lemma DyingStartLosesQuery(name: string, t: nat)
    requires Clean(name)
    ensures var s := Run(State("", "", []), [QueryStart(name), Restart(t, true, true), Restart(t, true, false)]);
            Handed(s, [Scheduled(name, false, t)], false) == [name]
  {
    hide Restore, SaveText;
    var q := Scheduled(name, false, t);
    var ops := [QueryStart(name), Restart(t, true, true), Restart(t, true, false)];
    assert ops[..2] == [ops[0], ops[1]] && ops[..2][..1] == [ops[0]] && [ops[0]][..0] == [];
    NothingSaved(t);
    assert Run(State("", "", []), [ops[0]]) == State("", name, []);
    assert Run(State("", "", []), ops[..2]) == State("", "", []);
    var s := Run(State("", "", []), ops);
    assert s == State("", "", []);
    assert [q][..0] == [] && PassState(s, []) == s;
  }

  /** Release. Met after its expiry, a query is handed over at once, and it is
      neither in memory nor, after a further restart, on disk any more. */
  lemma ReleasedAfterExpiry(s: State, q: Scheduled, now: nat, watchdog: bool)
    requires Sound(s) && Lookup(s.denylist, q.name).Some? && q.now > Lookup(s.denylist, q.name).value
    requires s.executing == ""
    ensures Handed(s, [q], false) == [q.name]
    ensures Lookup(PassState(s, [q]).denylist, q.name) == None
    ensures Lookup(Boot(PassState(s, [q]), now, watchdog, false).denylist, q.name) == None
  {
    hide Remove, SaveText, Lookup, Restore, Tidy;
    assert [q][..0] == [];
    var es := Remove(s.denylist, q.name);
    RemoveTidy(s.denylist, q.name);
    LookupRemove(s.denylist, q.name, q.name);
    TidyParts(es);
    RestoreSave(es, now, q.name);
  }

  ghost predicate DistinctQueries(qs: seq<Scheduled>) {
    forall i, j | 0 <= i < j < |qs| :: qs[i].name != qs[j].name
  }

  /** A pass leaves the entries of names it does not meet alone. */
  lemma {:induction false} PassSpares(s: State, qs: seq<Scheduled>, name: string)
    requires forall i | 0 <= i < |qs| :: qs[i].name != name
    ensures Lookup(PassState(s, qs).denylist, name) == Lookup(s.denylist, name)
  {
    hide Lookup, Remove, SaveText, Held;
    if qs != [] {
      PassSpares(s, qs[..|qs| - 1], name);
      LookupRemove(PassState(s, qs[..|qs| - 1]).denylist, qs[|qs| - 1].name, name);
    }
  }

  lemma {:induction false} HandedNames(s: State, qs: seq<Scheduled>, denylisted: bool, name: string)
    requires name in Handed(s, qs, denylisted)
    ensures exists i | 0 <= i < |qs| :: qs[i].name == name
  {
    hide Held, PassState;
    var init := qs[..|qs| - 1];
    if name in Handed(s, init, denylisted) {
      HandedNames(s, init, denylisted, name);
      var i :| 0 <= i < |init| && init[i].name == name;
      assert qs[i].name == name;
    } else {
      assert qs[|qs| - 1].name == name;
    }
  }

  /** Which queries a pass hands over: all but those whose entry has not run out, and
      those too if they are exempt or if the caller asks for denylisted ones. */
  lemma {:induction false} HandedIff(s: State, qs: seq<Scheduled>, denylisted: bool, i: nat)
    requires DistinctQueries(qs) && i < |qs|
    ensures var entry := Lookup(s.denylist, qs[i].name);
            qs[i].name in Handed(s, qs, denylisted) <==>
            denylisted || qs[i].exempt || entry.None? || qs[i].now > entry.value
    decreases |qs|
  {
    hide Lookup, PassState;
    var init, q := qs[..|qs| - 1], qs[|qs| - 1];
    if i < |qs| - 1 {
      HandedIff(s, init, denylisted, i);
    } else {
      PassSpares(s, init, q.name);
      if q.name in Handed(s, init, denylisted) {
        HandedNames(s, init, denylisted, q.name);
        assert false;
      }
    }
  }

  /** What a pass keeps: exactly the entries it does not find run out or exempt. */
  lemma {:induction false} PassKeepsIff(s: State, qs: seq<Scheduled>, i: nat)
    requires DistinctQueries(qs) && i < |qs|
    ensures var entry := Lookup(s.denylist, qs[i].name);
            Lookup(PassState(s, qs).denylist, qs[i].name) ==
            if entry.Some? && (qs[i].exempt || qs[i].now > entry.value) then None else entry
    decreases |qs|
  {
    hide Lookup, Remove, SaveText;
    var init, q := qs[..|qs| - 1], qs[|qs| - 1];
    if i < |qs| - 1 {
      PassKeepsIff(s, init, i);
      LookupRemove(PassState(s, init).denylist, q.name, qs[i].name);
    } else {
      PassSpares(s, init, q.name);
      LookupRemove(PassState(s, init).denylist, q.name, q.name);
    }
  }

  /** The quarantine lasts a day to the second: after a start at `t` that saves the
      list, the crashed query is held back exactly up to 86400 seconds later. */
  lemma HeldForADay(s: State, t: nat, q: Scheduled)
    requires s.executing != "" && q.name == s.executing && !q.exempt
    ensures q.name in Handed(Boot(s, t, true, false), [q], false) <==> q.now > t + 86400
  {
    hide Put, Restore, SaveText;
    var s' := Boot(s, t, true, false);
    LookupPut(Restore(s.failed, t), s.executing, t + QUARANTINE, s.executing);
    HandedIff(s', [q], false, 0);
  }

  /** A further start does not extend it: the marker is gone, and the query is held
      back exactly as long as the first start said. */
  lemma NotExtended(s: State, t: nat, u: nat, watchdog: bool, dies: bool, q: Scheduled)
    requires Sound(s) && s.executing != "" && q.name == s.executing && !q.exempt
    requires t <= u < t + 86400 && t + 86400 < TWO63
    ensures Boot(s, t, true, false).executing == ""
    ensures var s' := Boot(Boot(s, t, true, false), u, watchdog, dies);
            q.name in Handed(s', [q], false) <==> q.now > t + 86400
  {
    hide Put, Restore, SaveText, Lookup, Tidy, Clean;
    var mem := Restore(s.failed, t);
    var es := Put(mem, s.executing, t + QUARANTINE);
    var saved :| Saved(s.failed, saved);
    Restored(s.failed, saved, t);
    PutTidy(mem, s.executing, t + QUARANTINE);
    TidyParts(es);
    LookupPut(mem, s.executing, t + QUARANTINE, s.executing);
    RestoreSave(es, u, s.executing);
    HandedIff(Boot(Boot(s, t, true, false), u, watchdog, dies), [q], false, 0);
  }

  // ------------------------------------------------------- who is quarantined

  /** What ends an execution: running to its end within the limits, or the start of
      a new process. */
  ghost predicate Ends(op: Op) {
    op == QueryEnd(false) || op.Restart?
  }

  ghost predicate Ended(ops: seq<Op>, k: nat) {
    exists j | k < j < |ops| :: Ends(ops[j])
  }

  lemma {:induction false} PassMarker(s: State, qs: seq<Scheduled>)
    ensures PassState(s, qs).executing == s.executing
  {
    hide Held, Remove, SaveText, Lookup;
    if qs != [] {
      PassMarker(s, qs[..|qs| - 1]);
    }
  }

  /** Over any run, the marker names the query started last, exactly while nothing has
      ended its execution. */
  lemma {:induction false} MarkedIff(s: State, ops: seq<Op>, k: nat)
    requires k < |ops| && ops[k].QueryStart? && forall j | k < j < |ops| :: !ops[j].QueryStart?
    ensures Run(s, ops).executing == if Ended(ops, k) then "" else ops[k].name
    decreases |ops|
  {
    hide Boot, PassState;
    var init, op := ops[..|ops| - 1], ops[|ops| - 1];
    if k < |ops| - 1 {
      MarkedIff(s, init, k);
      assert Ended(ops, k) <==> Ended(init, k) || Ends(op) by {
        if Ended(init, k) {
          var j :| k < j < |init| && Ends(init[j]);
          assert Ends(ops[j]);
        }
        if Ended(ops, k) && !Ends(op) {
          var j :| k < j < |ops| && Ends(ops[j]);
          assert Ends(init[j]);
        }
      }
      match op
      case Pass(qs) => PassMarker(Run(s, init), qs);
      case Restart(now, watchdog, dies) => BootClears(Run(s, init), now, watchdog, dies);
      case _ =>
    }
  }

  lemma BootClears(s: State, now: nat, watchdog: bool, dies: bool)
    ensures Boot(s, now, watchdog, dies).executing == ""
  {
  }

  /** Hence a start quarantines the query started last exactly when it had neither
      ended within its limits nor been seen by an earlier start. */
  lemma UnfinishedQuarantined(s: State, ops: seq<Op>, k: nat, t: nat)
    requires k < |ops| && ops[k].QueryStart? && ops[k].name != ""
    requires forall j | k < j < |ops| :: !ops[j].QueryStart?
    requires Lookup(Restore(Run(s, ops).failed, t), ops[k].name) == None
    ensures Lookup(Boot(Run(s, ops), t, true, false).denylist, ops[k].name)
            == if Ended(ops, k) then None else Some(t + 86400)
  {
    hide Run, Restore, Lookup, Put, SaveText;
    MarkedIff(s, ops, k);
    LookupPut(Restore(Run(s, ops).failed, t), ops[k].name, t + QUARANTINE, ops[k].name);
  }

  lemma TidyParts(es: seq<Entry>)
    requires Tidy(es)
    ensures AllClean(es) && Unique(es)
  {
  }
}

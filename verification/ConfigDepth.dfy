/** The nesting limit of a configuration document: `validateConfig` walks it
    level by level with a queue. */
module ConfigDepth {
  import opened Basics

  const MAX_CONFIG_DEPTH: nat := 32

  /** A JSON value; member names and scalar contents play no part here. */
  datatype Json = Object(members: seq<Json>) | Array(items: seq<Json>) | Scalar

  function Children(j: Json): seq<Json> {
    match j
    case Object(members) => members
    case Array(items) => items
    case Scalar => []
  }

  /** Levels of nesting, the root being the first. */
  function Height(j: Json): nat {
    match j
    case Object(members) => 1 + Tallest(members)
    case Array(items) => 1 + Tallest(items)
    case Scalar => 1
  }

  function Tallest(js: seq<Json>): nat {
    if js == [] then 0 else Max(Height(js[0]), Tallest(js[1..]))
  }

  /** All children of a list of values, in order. */
  function NextLevel(js: seq<Json>): seq<Json> {
    if js == [] then [] else NextLevel(js[..|js| - 1]) + Children(js[|js| - 1])
  }

  function Level(root: Json, depth: nat): seq<Json> {
    if depth == 0 then [root] else NextLevel(Level(root, depth - 1))
  }

  lemma {:induction false} TallestConcat(a: seq<Json>, b: seq<Json>)
    ensures Tallest(a + b) == Max(Tallest(a), Tallest(b))
  {
    if a == [] {
      assert a + b == b;
    } else {
      TallestConcat(a[1..], b);
      assert (a + b)[1..] == a[1..] + b;
    }
  }

  /** Going down one level takes one off the tallest value. */
  lemma {:induction false} NextLevelTallest(js: seq<Json>)
    ensures Tallest(js) > 0 <==> js != []
    ensures Tallest(NextLevel(js)) == if js == [] then 0 else Tallest(js) - 1
  {
    hide Tallest, Height, NextLevel, Children;
    NextLevelSnoc(js);
    if js == [] {
      NoneTall();
    } else {
      var init, last := js[..|js| - 1], js[|js| - 1];
      NextLevelTallest(init);
      assert js == init + [last];
      TallestConcat(init, [last]);
      TallestOne(last);
      TallestConcat(NextLevel(init), Children(last));
    }
  }

  lemma NextLevelSnoc(js: seq<Json>)
    ensures js == [] ==> NextLevel(js) == []
    ensures js != [] ==> NextLevel(js) == NextLevel(js[..|js| - 1]) + Children(js[|js| - 1])
  {
  }

  lemma NoneTall()
    ensures Tallest([]) == 0
  {
  }

  lemma TallestOne(j: Json)
    ensures Tallest([j]) == 1 + Tallest(Children(j))
  {
    assert [j][1..] == [];
  }

  /** The queue at depth `d` is empty exactly when the document is no deeper. */
  lemma {:induction false} LevelHeight(root: Json, depth: nat)
    ensures Tallest(Level(root, depth)) == if Height(root) > depth then Height(root) - depth else 0
    ensures Level(root, depth) == [] <==> Height(root) <= depth
  {
    hide NextLevel, Height;
    if depth == 0 {
      assert [root][1..] == [];
      NextLevelTallest([root]);
    } else {
      LevelHeight(root, depth - 1);
      NextLevelTallest(Level(root, depth - 1));
      NextLevelTallest(Level(root, depth));
    }
  }

  /** Accepts exactly the objects of height at most 32, and ends on every tree. */
  method ValidateConfig(root: Json) returns (ok: bool)
    ensures ok <==> root.Object? && Height(root) <= 32
  {
    if !root.Object? {
      return false;
    }
    var nodes := [root];
    var count := 1;
    var depth := 0;
    while count > 0 && depth < MAX_CONFIG_DEPTH
      invariant depth <= MAX_CONFIG_DEPTH && count == |nodes|
      invariant nodes == Level(root, depth)
      decreases MAX_CONFIG_DEPTH - depth
    {
      nodes := PopLevel(nodes);
      depth := depth + 1;
      count := |nodes|;
    }
    LevelHeight(root, depth);
    if depth == MAX_CONFIG_DEPTH && count != 0 {
      return false;
    }
    return true;
  }

  /** The inner loop: pop every value of a level and push its children. */
  method PopLevel(level: seq<Json>) returns (nodes: seq<Json>)
    ensures nodes == NextLevel(level)
  {
    nodes := level;
    var count := |level|;
    while count > 0
      invariant 0 <= count <= |level|
      invariant nodes == level[|level| - count..] + NextLevel(level[..|level| - count])
    {
      var k := |level| - count;
      var node := nodes[0];
      assert node == level[k];
      assert level[..k + 1][..k] == level[..k];
      nodes := nodes[1..] + Children(node);
      count := count - 1;
    }
    assert level[..|level|] == level;
  }
}

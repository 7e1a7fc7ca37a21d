/** The tree a TOML text is parsed into: tables that hold values, arrays and tables under
    keys, and arrays of items.  Nodes are numbered in the order they are made. */
module TomlTree {
  import opened Options

  datatype Named<T> = Named(key: string, it: T)

  datatype Item = Val(text: string) | Arr(id: nat) | Tab(id: nat)

  datatype Node =
    | Table(implicit: bool, readonly: bool, kvals: seq<Named<string>>, arrs: seq<Named<nat>>, tabs: seq<Named<nat>>)
    | Array(kind: char, items: seq<Item>)

  const EMPTY_TABLE := Table(false, false, [], [], [])
  const EMPTY_ARRAY := Array(NONE, [])

  // ----- Keys -----

  function Count<T>(s: seq<Named<T>>, k: string): nat {
    if s == [] then 0 else Count(s[..|s| - 1], k) + if s[|s| - 1].key == k then 1 else 0
  }

  /** The first entry under `k`. */
  function Find<T>(s: seq<Named<T>>, k: string): Option<T> {
    if s == [] then None else
      var earlier := Find(s[..|s| - 1], k);
      if earlier.Some? then earlier else if s[|s| - 1].key == k then Some(s[|s| - 1].it) else None
  }

  lemma {:induction false} FindIffCounted<T>(s: seq<Named<T>>, k: string)
    ensures Find(s, k).Some? <==> Count(s, k) >= 1
  {
    if s != [] {
      FindIffCounted(s[..|s| - 1], k);
    }
  }

  lemma {:induction false} FindIsEntry<T>(s: seq<Named<T>>, k: string) returns (i: nat)
    requires Find(s, k).Some?
    ensures i < |s| && s[i] == Named(k, Find(s, k).value)
  {
    var n := |s| - 1;
    if Find(s[..n], k).Some? {
      i := FindIsEntry(s[..n], k);
    } else {
      i := n;
    }
  }

  /** What is found stays found when entries are added behind. */
  lemma {:induction false} FindStable<T>(s: seq<Named<T>>, s': seq<Named<T>>, k: string)
    requires s <= s' && Find(s, k).Some?
    ensures Find(s', k) == Find(s, k)
    decreases |s'|
  {
    if s == s' {
    } else {
      assert s <= s'[..|s'| - 1];
      FindStable(s, s'[..|s'| - 1], k);
    }
  }

  lemma SnocKeys<T>(s: seq<Named<T>>, e: Named<T>, k: string)
    ensures Count(s + [e], k) == Count(s, k) + if e.key == k then 1 else 0
    ensures Find(s + [e], k) == if Find(s, k).Some? then Find(s, k) else if e.key == k then Some(e.it) else None
  {
    assert (s + [e])[..|s|] == s;
  }

  function Total(t: Node, k: string): nat
    requires t.Table?
  {
    Count(t.kvals, k) + Count(t.arrs, k) + Count(t.tabs, k)
  }

  // ----- Kinds -----

  const NONE: char := '\0'

  function Tag(x: Item): char {
    match x
    case Val(_) => 'v'
    case Arr(_) => 'a'
    case Tab(_) => 't'
  }

  /** The kind of an array after an item of kind `tag` joins. */
  function Join(kind: char, tag: char): char {
    if kind == NONE then tag else if kind != tag then 'm' else kind
  }

  function KindOf(xs: seq<Item>): char {
    if xs == [] then NONE else Join(KindOf(xs[..|xs| - 1]), Tag(xs[|xs| - 1]))
  }

  /** A kind other than mixed says what every item is; mixed says that two items differ. */
  lemma {:induction false} KindMeaning(xs: seq<Item>)
    ensures KindOf(xs) == NONE <==> xs == []
    ensures KindOf(xs) in {NONE, 'v', 'a', 't', 'm'}
    ensures KindOf(xs) in {'v', 'a', 't'} ==> forall i | 0 <= i < |xs| :: Tag(xs[i]) == KindOf(xs)
    ensures KindOf(xs) == 'm' <==> exists i, j | 0 <= i < j < |xs| :: Tag(xs[i]) != Tag(xs[j])
  {
    if xs != [] {
      var n := |xs| - 1;
      var init := xs[..n];
      KindMeaning(init);
      if KindOf(init) == 'm' {
        var i, j :| 0 <= i < j < n && Tag(init[i]) != Tag(init[j]);
        assert Tag(xs[i]) != Tag(xs[j]);
      } else if n > 0 && KindOf(init) != Tag(xs[n]) {
        assert Tag(xs[0]) == Tag(init[0]) == KindOf(init);
        assert Tag(xs[0]) != Tag(xs[n]);
      } else {
        assert forall i | 0 <= i < n :: xs[i] == init[i];
      }
    }
  }

  // ----- The tree -----

  /** `ids` are made after node `i` and in order, and belong to it. */
  ghost predicate Owned(nodes: seq<Node>, owner: seq<nat>, i: nat, refs: seq<Named<nat>>, arrays: bool)
    requires |owner| == |nodes|
  {
    && (forall a | 0 <= a < |refs| :: i < refs[a].it < |nodes| && nodes[refs[a].it].Array? == arrays && owner[refs[a].it] == i)
    && (forall a, b | 0 <= a < b < |refs| :: refs[a].it < refs[b].it)
  }

  ghost predicate OwnedItems(nodes: seq<Node>, owner: seq<nat>, i: nat, xs: seq<Item>)
    requires |owner| == |nodes|
  {
    && (forall a | 0 <= a < |xs| && !xs[a].Val? :: i < xs[a].id < |nodes| && nodes[xs[a].id].Array? == xs[a].Arr? && owner[xs[a].id] == i)
    && (forall a, b | 0 <= a < b < |xs| && !xs[a].Val? && !xs[b].Val? :: xs[a].id < xs[b].id)
  }

  ghost predicate NodeOk(nodes: seq<Node>, owner: seq<nat>, i: nat)
    requires |owner| == |nodes| && i < |nodes|
  {
    match nodes[i]
    case Table(_, _, _, arrs, tabs) =>
      (forall k :: Total(nodes[i], k) <= 1) && Owned(nodes, owner, i, arrs, true) && Owned(nodes, owner, i, tabs, false)
    case Array(kind, items) =>
      kind == KindOf(items) && OwnedItems(nodes, owner, i, items)
  }

  /** Node 0 is the root; every node has at most one place; keys of a table are distinct
      over its values, arrays and tables; and kinds tell the truth. */
  ghost predicate Tree(nodes: seq<Node>, owner: seq<nat>) {
    |owner| == |nodes| && |nodes| > 0 && nodes[0].Table? && forall i: nat | i < |nodes| :: NodeOk(nodes, owner, i)
  }

  // ----- Growth -----

  ghost predicate NodeGrows(n: Node, n': Node) {
    if n.Table? then n'.Table? && n.kvals <= n'.kvals && n.arrs <= n'.arrs && n.tabs <= n'.tabs
    else n'.Array? && n.items <= n'.items
  }

  /** Nothing in the tree is removed, moved or overwritten. */
  ghost predicate Extends(nodes: seq<Node>, nodes': seq<Node>) {
    |nodes| <= |nodes'| && forall i: nat | i < |nodes| :: NodeGrows(nodes[i], nodes'[i])
  }

  lemma ExtendsTransitive(a: seq<Node>, b: seq<Node>, c: seq<Node>)
    requires Extends(a, b) && Extends(b, c)
    ensures Extends(a, c)
  {
    forall i: nat | i < |a|
      ensures NodeGrows(a[i], c[i])
    {
      assert NodeGrows(a[i], b[i]) && NodeGrows(b[i], c[i]);
    }
  }

  // ----- Building -----

  /** `node` in place of node `i`, and possibly one new node behind all others. */
  function Changed(nodes: seq<Node>, i: nat, node: Node, more: seq<Node>): seq<Node>
    requires i < |nodes|
  {
    nodes[i := node] + more
  }

  lemma {:induction false} ChangeKeepsOthers(nodes: seq<Node>, owner: seq<nat>, i: nat, node: Node, more: seq<Node>)
    requires Tree(nodes, owner) && i < |nodes| && node.Table? == nodes[i].Table?
    requires |more| <= 1 && (more != [] ==> more[0] == EMPTY_ARRAY || (more[0].Table? && more[0].kvals == [] && more[0].arrs == [] && more[0].tabs == []))
    requires NodeGrows(nodes[i], node)
    ensures var nodes', owner' := Changed(nodes, i, node, more), owner + seq(|more|, _ => i);
            && |nodes'| == |owner'| == |nodes| + |more| && nodes'[0].Table?
            && Extends(nodes, nodes')
            && (forall j: nat | j < |nodes'| && j != i :: NodeOk(nodes', owner', j))
  {
    var nodes', owner' := Changed(nodes, i, node, more), owner + seq(|more|, _ => i);
    forall j: nat | j < |nodes'| && j != i
      ensures NodeOk(nodes', owner', j)
    {
      if j < |nodes| {
        assert NodeOk(nodes, owner, j);
      }
    }
  }

  /** A new value, array or table under a key the table does not have. */
  lemma {:induction false} ValueKeepsTree(nodes: seq<Node>, owner: seq<nat>, i: nat, key: string, v: string)
    requires Tree(nodes, owner) && i < |nodes| && nodes[i].Table? && Total(nodes[i], key) == 0
    ensures var nodes' := Changed(nodes, i, nodes[i].(kvals := nodes[i].kvals + [Named(key, v)]), []);
            Tree(nodes', owner) && Extends(nodes, nodes')
  {
    var t := nodes[i];
    var t' := t.(kvals := t.kvals + [Named(key, v)]);
    ChangeKeepsOthers(nodes, owner, i, t', []);
    assert owner + seq(0, _ => i) == owner;
    assert NodeOk(nodes, owner, i);
    forall k
      ensures Total(t', k) <= 1
    {
      SnocKeys(t.kvals, Named(key, v), k);
      assert Total(t, k) <= 1;
    }
  }

  lemma {:induction false} ArrayKeepsTree(nodes: seq<Node>, owner: seq<nat>, i: nat, key: string)
    requires Tree(nodes, owner) && i < |nodes| && nodes[i].Table? && Total(nodes[i], key) == 0
    ensures var nodes' := Changed(nodes, i, nodes[i].(arrs := nodes[i].arrs + [Named(key, |nodes|)]), [EMPTY_ARRAY]);
            Tree(nodes', owner + [i]) && Extends(nodes, nodes')
  {
    var t, ref: Named<nat> := nodes[i], Named(key, |nodes|);
    var t' := t.(arrs := t.arrs + [ref]);
    ChangeKeepsOthers(nodes, owner, i, t', [EMPTY_ARRAY]);
    assert owner + seq(1, _ => i) == owner + [i];
    assert NodeOk(nodes, owner, i);
    forall k
      ensures Total(t', k) <= 1
    {
      SnocKeys(t.arrs, ref, k);
      assert Total(t, k) <= 1;
    }
    OwnedSnoc(nodes, owner, i, t', EMPTY_ARRAY, t.arrs, ref, true);
    OwnedStays(nodes, owner, i, t', EMPTY_ARRAY, t.tabs, false);
    hide Owned, Total;
  }

  lemma {:induction false} TableKeepsTree(nodes: seq<Node>, owner: seq<nat>, i: nat, key: string, implicit: bool)
    requires Tree(nodes, owner) && i < |nodes| && nodes[i].Table? && Total(nodes[i], key) == 0
    ensures var node := EMPTY_TABLE.(implicit := implicit);
            var nodes' := Changed(nodes, i, nodes[i].(tabs := nodes[i].tabs + [Named(key, |nodes|)]), [node]);
            Tree(nodes', owner + [i]) && Extends(nodes, nodes')
  {
    var t, node := nodes[i], EMPTY_TABLE.(implicit := implicit);
    var ref: Named<nat> := Named(key, |nodes|);
    var t' := t.(tabs := t.tabs + [ref]);
    ChangeKeepsOthers(nodes, owner, i, t', [node]);
    assert owner + seq(1, _ => i) == owner + [i];
    assert NodeOk(nodes, owner, i);
    forall k
      ensures Total(t', k) <= 1
    {
      SnocKeys(t.tabs, ref, k);
      assert Total(t, k) <= 1;
    }
    OwnedSnoc(nodes, owner, i, t', node, t.tabs, ref, false);
    OwnedStays(nodes, owner, i, t', node, t.arrs, true);
    hide Owned, Total;
  }

  lemma {:induction false} OwnedStays(nodes: seq<Node>, owner: seq<nat>, i: nat, t': Node, more: Node, refs: seq<Named<nat>>, arrays: bool)
    requires |owner| == |nodes| && i < |nodes| && nodes[i].Table? && t'.Table? && Owned(nodes, owner, i, refs, arrays)
    ensures Owned(Changed(nodes, i, t', [more]), owner + [i], i, refs, arrays)
  {
  }

  lemma {:induction false} OwnedSnoc(nodes: seq<Node>, owner: seq<nat>, i: nat, t': Node, more: Node, refs: seq<Named<nat>>, ref: Named<nat>, arrays: bool)
    requires |owner| == |nodes| && i < |nodes| && nodes[i].Table? && t'.Table? && Owned(nodes, owner, i, refs, arrays)
    requires ref.it == |nodes| && more.Array? == arrays
    ensures Owned(Changed(nodes, i, t', [more]), owner + [i], i, refs + [ref], arrays)
  {
  }

  /** A new item at the end of an array. */
  lemma {:induction false} ItemKeepsTree(nodes: seq<Node>, owner: seq<nat>, i: nat, x: Item, more: seq<Node>)
    requires Tree(nodes, owner) && i < |nodes| && nodes[i].Array?
    requires |more| <= 1 && (more != [] ==> more[0] == EMPTY_ARRAY || more[0] == EMPTY_TABLE)
    requires x.Val? == (more == []) && (more != [] ==> x == if more[0].Array? then Arr(|nodes|) else Tab(|nodes|))
    ensures var node := Array(Join(nodes[i].kind, Tag(x)), nodes[i].items + [x]);
            && Tree(Changed(nodes, i, node, more), owner + seq(|more|, _ => i))
            && Extends(nodes, Changed(nodes, i, node, more))
  {
    var node := Array(Join(nodes[i].kind, Tag(x)), nodes[i].items + [x]);
    ChangeKeepsOthers(nodes, owner, i, node, more);
    assert NodeOk(nodes, owner, i);
    assert (nodes[i].items + [x])[..|nodes[i].items|] == nodes[i].items;
  }

  /** A change of the flags of a table. */
  lemma {:induction false} FlagKeepsTree(nodes: seq<Node>, owner: seq<nat>, i: nat, implicit: bool, readonly: bool)
    requires Tree(nodes, owner) && i < |nodes| && nodes[i].Table?
    ensures var node := nodes[i].(implicit := implicit, readonly := readonly);
            Tree(Changed(nodes, i, node, []), owner) && Extends(nodes, Changed(nodes, i, node, []))
  {
    var node := nodes[i].(implicit := implicit, readonly := readonly);
    ChangeKeepsOthers(nodes, owner, i, node, []);
    assert owner + seq(0, _ => i) == owner;
    assert NodeOk(nodes, owner, i);
    forall k
      ensures Total(node, k) <= 1
    {
      assert Total(node, k) == Total(nodes[i], k);
    }
  }

  // ----- Lookup -----

  datatype Found = NoKey | FoundVal(text: string) | FoundArr(id: nat) | FoundTab(id: nat)

  function Check(t: Node, k: string): Found
    requires t.Table?
  {
    if Find(t.kvals, k).Some? then FoundVal(Find(t.kvals, k).value)
    else if Find(t.arrs, k).Some? then FoundArr(Find(t.arrs, k).value)
    else if Find(t.tabs, k).Some? then FoundTab(Find(t.tabs, k).value)
    else NoKey
  }

  lemma CheckIffTotal(t: Node, k: string)
    requires t.Table?
    ensures Check(t, k) == NoKey <==> Total(t, k) == 0
  {
    FindIffCounted(t.kvals, k);
    FindIffCounted(t.arrs, k);
    FindIffCounted(t.tabs, k);
  }

  lemma {:induction false} CheckIsOwned(nodes: seq<Node>, owner: seq<nat>, i: nat, k: string)
    requires Tree(nodes, owner) && i < |nodes| && nodes[i].Table?
    ensures var f := Check(nodes[i], k);
            && (f.FoundArr? ==> i < f.id < |nodes| && nodes[f.id].Array?)
            && (f.FoundTab? ==> i < f.id < |nodes| && nodes[f.id].Table?)
  {
    assert NodeOk(nodes, owner, i);
    var f := Check(nodes[i], k);
    if f.FoundArr? {
      var a := FindIsEntry(nodes[i].arrs, k);
    } else if f.FoundTab? {
      var a := FindIsEntry(nodes[i].tabs, k);
    }
  }

  /** `toml_key_exists`, `toml_raw_in`, `toml_array_in`, `toml_table_in`: of the three
      lookups exactly one finds a key that exists, and none finds another. */
  lemma {:induction false} ExactlyOneLookup(nodes: seq<Node>, owner: seq<nat>, i: nat, k: string)
    requires Tree(nodes, owner) && i < |nodes| && nodes[i].Table?
    ensures var t := nodes[i];
            var raw, arr, tab := Find(t.kvals, k).Some?, Find(t.arrs, k).Some?, Find(t.tabs, k).Some?;
            && !(raw && arr) && !(raw && tab) && !(arr && tab)
            && (raw || arr || tab <==> Total(t, k) == 1)
            && (Total(t, k) == 1 <==> Check(t, k) != NoKey)
  {
    assert NodeOk(nodes, owner, i);
    assert Total(nodes[i], k) <= 1;
    FindIffCounted(nodes[i].kvals, k);
    FindIffCounted(nodes[i].arrs, k);
    FindIffCounted(nodes[i].tabs, k);
  }
}

/** What a TOML text means: the tree its statements build, one after the other, or nothing if
    one of them collides with an earlier one; and that the tree then holds what they say. */
module TomlBuild {
  import opened Options
  import opened TomlTree
  import opened TomlSyntax

  predicate IsTable(nodes: seq<Node>, t: nat) {
    t < |nodes| && nodes[t].Table?
  }

  predicate IsArray(nodes: seq<Node>, a: nat) {
    a < |nodes| && nodes[a].Array?
  }

  // ----- One step -----

  datatype Made = Made(nodes: seq<Node>, id: nat)

  /** A value under a new key. */
  function AddValue(nodes: seq<Node>, t: nat, k: string, text: string): Option<seq<Node>>
    requires IsTable(nodes, t)
  {
    if Check(nodes[t], k) != NoKey then None
    else Some(Changed(nodes, t, nodes[t].(kvals := nodes[t].kvals + [Named(k, text)]), []))
  }

  /** A table under a new key, or the implicit one under this key, which becomes explicit. */
  function AddTable(nodes: seq<Node>, t: nat, k: string, implicit: bool): Option<Made>
    requires IsTable(nodes, t)
  {
    match Check(nodes[t], k)
    case NoKey =>
      Some(Made(Changed(nodes, t, nodes[t].(tabs := nodes[t].tabs + [Named(k, |nodes|)]), [EMPTY_TABLE.(implicit := implicit)]), |nodes|))
    case FoundTab(id) =>
      if IsTable(nodes, id) && nodes[id].implicit then Some(Made(Changed(nodes, id, nodes[id].(implicit := false), []), id)) else None
    case _ => None
  }

  /** An array under a new key. */
  function AddArray(nodes: seq<Node>, t: nat, k: string): Option<Made>
    requires IsTable(nodes, t)
  {
    if Check(nodes[t], k) != NoKey then None
    else Some(Made(Changed(nodes, t, nodes[t].(arrs := nodes[t].arrs + [Named(k, |nodes|)]), [EMPTY_ARRAY]), |nodes|))
  }

  /** An item at the end of an array, with its own node if it has one. */
  function Appended(nodes: seq<Node>, a: nat, x: Item, more: seq<Node>): seq<Node>
    requires IsArray(nodes, a)
  {
    Changed(nodes, a, Array(Join(nodes[a].kind, Tag(x)), nodes[a].items + [x]), more)
  }

  // ----- Entries and values -----

  function BuildEntry(nodes: seq<Node>, t: nat, e: Entry): Option<seq<Node>>
    decreases e, 0
  {
    if !IsTable(nodes, t) || nodes[t].readonly then None else
      match e
      case Under(k, rest) =>
        (match Find(nodes[t].tabs, k)
         case Some(id) => BuildEntry(nodes, id, rest)
         case None =>
           match AddTable(nodes, t, k, false)
           case None => None
           case Some(m) => BuildEntry(m.nodes, m.id, rest))
      case Set(k, Text(text)) => AddValue(nodes, t, k, text)
      case Set(k, List(xs)) =>
        (match AddArray(nodes, t, k)
         case None => None
         case Some(m) => BuildItems(m.nodes, m.id, xs))
      case Set(k, Inline(es)) =>
        match AddTable(nodes, t, k, false)
        case None => None
        case Some(m) => BuildInline(m.nodes, m.id, es)
  }

  function BuildItem(nodes: seq<Node>, a: nat, x: Value): Option<seq<Node>>
    decreases x, 0
  {
    if !IsArray(nodes, a) then None else
      match x
      case Text(text) => Some(Appended(nodes, a, Val(text), []))
      case List(xs) => BuildItems(Appended(nodes, a, Arr(|nodes|), [EMPTY_ARRAY]), |nodes|, xs)
      case Inline(es) => BuildInline(Appended(nodes, a, Tab(|nodes|), [EMPTY_TABLE]), |nodes|, es)
  }

  function BuildItems(nodes: seq<Node>, a: nat, xs: seq<Value>): Option<seq<Node>>
    decreases xs, 1
  {
    if xs == [] then Some(nodes) else
      match BuildItem(nodes, a, xs[0])
      case None => None
      case Some(nodes1) => BuildItems(nodes1, a, xs[1..])
  }

  function BuildEntries(nodes: seq<Node>, t: nat, es: seq<Entry>): Option<seq<Node>>
    decreases es, 1
  {
    if es == [] then Some(nodes) else
      match BuildEntry(nodes, t, es[0])
      case None => None
      case Some(nodes1) => BuildEntries(nodes1, t, es[1..])
  }

  /** An inline table is closed after its entries. */
  function BuildInline(nodes: seq<Node>, t: nat, es: seq<Entry>): Option<seq<Node>>
    decreases es, 2
  {
    match BuildEntries(nodes, t, es)
    case None => None
    case Some(nodes1) => if IsTable(nodes1, t) then Some(Changed(nodes1, t, nodes1[t].(readonly := true), [])) else None
  }

  // ----- Headers -----

  /** Along one key of a header: into a table, into the last table of an array of tables, or
      into an implicit table made here. */
  function StepInto(nodes: seq<Node>, t: nat, k: string): Option<Made> {
    if !IsTable(nodes, t) then None else
      match Check(nodes[t], k)
      case FoundTab(id) => Some(Made(nodes, id))
      case FoundArr(id) =>
        if IsArray(nodes, id) && nodes[id].kind == 't' && nodes[id].items != [] && nodes[id].items[|nodes[id].items| - 1].Tab?
        then Some(Made(nodes, nodes[id].items[|nodes[id].items| - 1].id)) else None
      case FoundVal(_) => None
      case NoKey => AddTable(nodes, t, k, true)
  }

  function WalkPath(nodes: seq<Node>, t: nat, path: seq<string>): Option<Made>
    decreases path
  {
    if path == [] then Some(Made(nodes, t)) else
      match StepInto(nodes, t, path[0])
      case None => None
      case Some(m) => WalkPath(m.nodes, m.id, path[1..])
  }

  /** The array under the last key of a doubled header, made if there is none. */
  function ArrayOfTables(nodes: seq<Node>, t: nat, k: string): Option<Made>
    requires IsTable(nodes, t)
  {
    match Find(nodes[t].arrs, k)
    case Some(a) => if IsArray(nodes, a) && nodes[a].kind == 't' then Some(Made(nodes, a)) else None
    case None => AddArray(nodes, t, k)
  }

  function Select(nodes: seq<Node>, t: nat, k: string, doubled: bool): Option<Made> {
    if !IsTable(nodes, t) then None
    else if !doubled then AddTable(nodes, t, k, false)
    else
      match ArrayOfTables(nodes, t, k)
      case None => None
      case Some(m) =>
        if IsArray(m.nodes, m.id) then Some(Made(Appended(m.nodes, m.id, Tab(|m.nodes|), [EMPTY_TABLE]), |m.nodes|)) else None
  }

  function BuildHeader(nodes: seq<Node>, path: seq<string>, doubled: bool): Option<Made>
    requires path != []
  {
    match WalkPath(nodes, 0, path[..|path| - 1])
    case None => None
    case Some(m) => Select(m.nodes, m.id, path[|path| - 1], doubled)
  }

  // ----- Documents -----

  /** The tree so far, and the table the next entry goes to. */
  function BuildStatement(m: Made, s: Statement): Option<Made> {
    match s
    case KeyVal(e) =>
      (match BuildEntry(m.nodes, m.id, e)
       case None => None
       case Some(nodes) => Some(Made(nodes, m.id)))
    case Header(doubled, path) => if path == [] then None else BuildHeader(m.nodes, path, doubled)
  }

  function BuildDocument(m: Made, ss: seq<Statement>): Option<Made>
    decreases ss
  {
    if ss == [] then Some(m) else
      match BuildStatement(m, ss[0])
      case None => None
      case Some(m1) => BuildDocument(m1, ss[1..])
  }

  const EMPTY_DOCUMENT := Made([EMPTY_TABLE], 0)

  // ----- What the tree holds -----

  /** The tree, read from table `t`, holds the entry. */
  ghost predicate HoldsEntry(nodes: seq<Node>, t: nat, e: Entry)
    decreases e, 0
  {
    IsTable(nodes, t) &&
    match e
    case Under(k, rest) => Find(nodes[t].tabs, k).Some? && HoldsEntry(nodes, Find(nodes[t].tabs, k).value, rest)
    case Set(k, Text(text)) => Find(nodes[t].kvals, k) == Some(text)
    case Set(k, List(xs)) => Find(nodes[t].arrs, k).Some? && HoldsItems(nodes, Find(nodes[t].arrs, k).value, 0, xs)
    case Set(k, Inline(es)) => Find(nodes[t].tabs, k).Some? && HoldsEntries(nodes, Find(nodes[t].tabs, k).value, es)
  }

  ghost predicate HoldsEntries(nodes: seq<Node>, t: nat, es: seq<Entry>)
    decreases es, 1
  {
    es == [] || (HoldsEntry(nodes, t, es[0]) && HoldsEntries(nodes, t, es[1..]))
  }

  /** The items of array `a` from the `from`-th on are these values, in order. */
  ghost predicate HoldsItems(nodes: seq<Node>, a: nat, from: nat, xs: seq<Value>)
    decreases xs, 1
  {
    IsArray(nodes, a) &&
    (xs == [] || (from < |nodes[a].items| && HoldsItem(nodes, nodes[a].items[from], xs[0]) && HoldsItems(nodes, a, from + 1, xs[1..])))
  }

  ghost predicate HoldsItem(nodes: seq<Node>, x: Item, v: Value)
    decreases v, 0
  {
    match v
    case Text(text) => x == Val(text)
    case List(xs) => x.Arr? && HoldsItems(nodes, x.id, 0, xs)
    case Inline(es) => x.Tab? && HoldsEntries(nodes, x.id, es)
  }

  // ----- What is held stays held -----

  lemma {:induction false} EntryStays(nodes: seq<Node>, nodes': seq<Node>, t: nat, e: Entry)
    requires Extends(nodes, nodes') && HoldsEntry(nodes, t, e)
    ensures HoldsEntry(nodes', t, e)
    decreases e, 0
  {
    assert NodeGrows(nodes[t], nodes'[t]);
    match e
    case Under(k, rest) =>
      FindStable(nodes[t].tabs, nodes'[t].tabs, k);
      EntryStays(nodes, nodes', Find(nodes[t].tabs, k).value, rest);
    case Set(k, Text(_)) => FindStable(nodes[t].kvals, nodes'[t].kvals, k);
    case Set(k, List(xs)) =>
      FindStable(nodes[t].arrs, nodes'[t].arrs, k);
      ItemsStay(nodes, nodes', Find(nodes[t].arrs, k).value, 0, xs);
    case Set(k, Inline(es)) =>
      FindStable(nodes[t].tabs, nodes'[t].tabs, k);
      EntriesStay(nodes, nodes', Find(nodes[t].tabs, k).value, es);
  }

  lemma {:induction false} EntriesStay(nodes: seq<Node>, nodes': seq<Node>, t: nat, es: seq<Entry>)
    requires Extends(nodes, nodes') && HoldsEntries(nodes, t, es)
    ensures HoldsEntries(nodes', t, es)
    decreases es, 1
  {
    if es != [] {
      EntryStays(nodes, nodes', t, es[0]);
      EntriesStay(nodes, nodes', t, es[1..]);
    }
  }

  lemma {:induction false} ItemsStay(nodes: seq<Node>, nodes': seq<Node>, a: nat, from: nat, xs: seq<Value>)
    requires Extends(nodes, nodes') && HoldsItems(nodes, a, from, xs)
    ensures HoldsItems(nodes', a, from, xs)
    decreases xs, 1
  {
    assert NodeGrows(nodes[a], nodes'[a]);
    if xs != [] {
      ItemStays(nodes, nodes', nodes[a].items[from], xs[0]);
      ItemsStay(nodes, nodes', a, from + 1, xs[1..]);
    }
  }

  lemma {:induction false} ItemStays(nodes: seq<Node>, nodes': seq<Node>, x: Item, v: Value)
    requires Extends(nodes, nodes') && HoldsItem(nodes, x, v)
    ensures HoldsItem(nodes', x, v)
    decreases v, 0
  {
    match v
    case Text(_) =>
    case List(xs) => ItemsStay(nodes, nodes', x.id, 0, xs);
    case Inline(es) => EntriesStay(nodes, nodes', x.id, es);
  }

  // ----- Building keeps the tree a tree and adds only what it says -----

  /** The nodes made before node `i` are untouched. */
  ghost predicate SameBelow(nodes: seq<Node>, nodes': seq<Node>, i: nat) {
    |nodes| <= |nodes'| && forall j: nat | j < i && j < |nodes| :: nodes'[j] == nodes[j]
  }

  /** The nodes form a tree. */
  ghost predicate Sound(nodes: seq<Node>) {
    exists owner :: Tree(nodes, owner)
  }

  /** `nodes'` is a tree that has grown out of `nodes` at node `i` and later ones. */
  ghost predicate Grown(nodes: seq<Node>, nodes': seq<Node>, i: nat) {
    Sound(nodes') && Extends(nodes, nodes') && SameBelow(nodes, nodes', i)
  }

  lemma {:induction false} GrownFurther(a: seq<Node>, b: seq<Node>, c: seq<Node>, i: nat, j: nat)
    requires Grown(a, b, i) && Grown(b, c, j) && i <= j
    ensures Grown(a, c, i)
  {
    ExtendsTransitive(a, b, c);
  }

  lemma {:induction false} ValueAdded(nodes: seq<Node>, t: nat, k: string, text: string)
    requires Sound(nodes) && IsTable(nodes, t) && AddValue(nodes, t, k, text).Some?
    ensures var nodes' := AddValue(nodes, t, k, text).value;
            Grown(nodes, nodes', t) && IsTable(nodes', t) && Find(nodes'[t].kvals, k) == Some(text)
  {
    var owner :| Tree(nodes, owner);
    CheckIffTotal(nodes[t], k);
    ValueKeepsTree(nodes, owner, t, k, text);
    SnocKeys(nodes[t].kvals, Named(k, text), k);
  }

  lemma {:induction false} NewTableAdded(nodes: seq<Node>, t: nat, k: string, implicit: bool)
    requires Sound(nodes) && IsTable(nodes, t) && Check(nodes[t], k) == NoKey
    ensures var m := AddTable(nodes, t, k, implicit).value;
            && Grown(nodes, m.nodes, t) && IsTable(m.nodes, t) && IsTable(m.nodes, m.id) && t < m.id
            && Find(m.nodes[t].tabs, k) == Some(m.id) && Check(m.nodes[t], k) == FoundTab(m.id)
  {
    var owner :| Tree(nodes, owner);
    CheckIffTotal(nodes[t], k);
    TableKeepsTree(nodes, owner, t, k, implicit);
    FindIffCounted(nodes[t].kvals, k);
    FindIffCounted(nodes[t].arrs, k);
    SnocKeys(nodes[t].tabs, Named(k, |nodes|), k);
  }

  lemma {:induction false} TableAdded(nodes: seq<Node>, t: nat, k: string, implicit: bool)
    requires Sound(nodes) && IsTable(nodes, t) && AddTable(nodes, t, k, implicit).Some?
    ensures var m := AddTable(nodes, t, k, implicit).value;
            && Grown(nodes, m.nodes, t) && IsTable(m.nodes, t) && IsTable(m.nodes, m.id) && t < m.id
            && Find(m.nodes[t].tabs, k) == Some(m.id) && Check(m.nodes[t], k) == FoundTab(m.id)
  {
    if Check(nodes[t], k) == NoKey {
      NewTableAdded(nodes, t, k, implicit);
    } else {
      var owner :| Tree(nodes, owner);
      CheckIffTotal(nodes[t], k);
      CheckIsOwned(nodes, owner, t, k);
      hide Check, Find;
      var id := Check(nodes[t], k).id;
      FlagKeepsTree(nodes, owner, id, false, nodes[id].readonly);
    }
  }

  lemma {:induction false} ArrayAdded(nodes: seq<Node>, t: nat, k: string)
    requires Sound(nodes) && IsTable(nodes, t) && AddArray(nodes, t, k).Some?
    ensures var m := AddArray(nodes, t, k).value;
            && Grown(nodes, m.nodes, t) && IsTable(m.nodes, t) && t < m.id < |m.nodes| && m.nodes[m.id] == EMPTY_ARRAY
            && Find(m.nodes[t].arrs, k) == Some(m.id) && Check(m.nodes[t], k) == FoundArr(m.id)
  {
    var owner :| Tree(nodes, owner);
    CheckIffTotal(nodes[t], k);
    ArrayKeepsTree(nodes, owner, t, k);
    FindIffCounted(nodes[t].kvals, k);
    SnocKeys(nodes[t].arrs, Named(k, |nodes|), k);
  }

  lemma {:induction false} ItemAppended(nodes: seq<Node>, a: nat, x: Item, more: seq<Node>)
    requires Sound(nodes) && IsArray(nodes, a)
    requires |more| <= 1 && (more != [] ==> more[0] == EMPTY_ARRAY || more[0] == EMPTY_TABLE)
    requires x.Val? == (more == []) && (more != [] ==> x == if more[0].Array? then Arr(|nodes|) else Tab(|nodes|))
    ensures var nodes' := Appended(nodes, a, x, more);
            && Grown(nodes, nodes', a) && IsArray(nodes', a) && nodes'[a].items == nodes[a].items + [x]
            && (more != [] ==> |nodes'| == |nodes| + 1 && nodes'[|nodes|] == more[0])
  {
    var owner :| Tree(nodes, owner);
    ItemKeepsTree(nodes, owner, a, x, more);
  }

  lemma {:induction false} TableClosed(nodes: seq<Node>, t: nat)
    requires Sound(nodes) && IsTable(nodes, t)
    ensures var nodes' := Changed(nodes, t, nodes[t].(readonly := true), []);
            Grown(nodes, nodes', t) && IsTable(nodes', t) && nodes'[t].readonly
  {
    var owner :| Tree(nodes, owner);
    FlagKeepsTree(nodes, owner, t, nodes[t].implicit, true);
  }

  lemma {:induction false} SubtableIsTable(nodes: seq<Node>, t: nat, k: string)
    requires Sound(nodes) && IsTable(nodes, t) && Find(nodes[t].tabs, k).Some?
    ensures t < Find(nodes[t].tabs, k).value && IsTable(nodes, Find(nodes[t].tabs, k).value)
  {
    var owner :| Tree(nodes, owner);
    assert NodeOk(nodes, owner, t);
    var i := FindIsEntry(nodes[t].tabs, k);
  }

  lemma {:induction false} EntryBuilt(nodes: seq<Node>, t: nat, e: Entry)
    requires Sound(nodes) && IsTable(nodes, t) && BuildEntry(nodes, t, e).Some?
    ensures var nodes' := BuildEntry(nodes, t, e).value;
            Grown(nodes, nodes', t) && IsTable(nodes', t) && HoldsEntry(nodes', t, e)
    decreases e, 0
  {
    hide Sound, Extends, Check, Find;
    var nodes' := BuildEntry(nodes, t, e).value;
    match e
    case Under(k, rest) =>
      if Find(nodes[t].tabs, k).Some? {
        SubtableIsTable(nodes, t, k);
        var id := Find(nodes[t].tabs, k).value;
        EntryBuilt(nodes, id, rest);
      } else {
        TableAdded(nodes, t, k, false);
        var m := AddTable(nodes, t, k, false).value;
        EntryBuilt(m.nodes, m.id, rest);
        GrownFurther(nodes, m.nodes, nodes', t, m.id);
      }
    case Set(k, Text(text)) => ValueAdded(nodes, t, k, text);
    case Set(k, List(xs)) =>
      ArrayAdded(nodes, t, k);
      var m := AddArray(nodes, t, k).value;
      ItemsBuilt(m.nodes, m.id, xs);
      GrownFurther(nodes, m.nodes, nodes', t, m.id);
    case Set(k, Inline(es)) =>
      TableAdded(nodes, t, k, false);
      var m := AddTable(nodes, t, k, false).value;
      InlineBuilt(m.nodes, m.id, es);
      GrownFurther(nodes, m.nodes, nodes', t, m.id);
  }

  lemma {:induction false} EntriesBuilt(nodes: seq<Node>, t: nat, es: seq<Entry>)
    requires Sound(nodes) && IsTable(nodes, t) && BuildEntries(nodes, t, es).Some?
    ensures var nodes' := BuildEntries(nodes, t, es).value;
            Grown(nodes, nodes', t) && IsTable(nodes', t) && HoldsEntries(nodes', t, es)
    decreases es, 1
  {
    if es != [] {
      var nodes1, nodes' := BuildEntry(nodes, t, es[0]).value, BuildEntries(nodes, t, es).value;
      EntryBuilt(nodes, t, es[0]);
      EntriesBuilt(nodes1, t, es[1..]);
      GrownFurther(nodes, nodes1, nodes', t, t);
      EntryStays(nodes1, nodes', t, es[0]);
    }
  }

  lemma {:induction false} InlineBuilt(nodes: seq<Node>, t: nat, es: seq<Entry>)
    requires Sound(nodes) && IsTable(nodes, t) && BuildInline(nodes, t, es).Some?
    ensures var nodes' := BuildInline(nodes, t, es).value;
            Grown(nodes, nodes', t) && IsTable(nodes', t) && HoldsEntries(nodes', t, es) && nodes'[t].readonly
    decreases es, 2
  {
    var nodes1, nodes' := BuildEntries(nodes, t, es).value, BuildInline(nodes, t, es).value;
    EntriesBuilt(nodes, t, es);
    TableClosed(nodes1, t);
    GrownFurther(nodes, nodes1, nodes', t, t);
    EntriesStay(nodes1, nodes', t, es);
  }

  lemma {:induction false} ItemBuilt(nodes: seq<Node>, a: nat, x: Value)
    requires Sound(nodes) && IsArray(nodes, a) && BuildItem(nodes, a, x).Some?
    ensures var nodes' := BuildItem(nodes, a, x).value;
            && Grown(nodes, nodes', a) && IsArray(nodes', a)
            && |nodes'[a].items| == |nodes[a].items| + 1 && HoldsItem(nodes', nodes'[a].items[|nodes[a].items|], x)
    decreases x, 0
  {
    hide Sound, Extends, Join, Tag;
    var nodes' := BuildItem(nodes, a, x).value;
    match x
    case Text(text) => ItemAppended(nodes, a, Val(text), []);
    case List(xs) =>
      ItemAppended(nodes, a, Arr(|nodes|), [EMPTY_ARRAY]);
      var nodes1 := Appended(nodes, a, Arr(|nodes|), [EMPTY_ARRAY]);
      ItemsBuilt(nodes1, |nodes|, xs);
      GrownFurther(nodes, nodes1, nodes', a, |nodes|);
    case Inline(es) =>
      ItemAppended(nodes, a, Tab(|nodes|), [EMPTY_TABLE]);
      var nodes1 := Appended(nodes, a, Tab(|nodes|), [EMPTY_TABLE]);
      InlineBuilt(nodes1, |nodes|, es);
      GrownFurther(nodes, nodes1, nodes', a, |nodes|);
  }

  lemma {:induction false} ItemsBuilt(nodes: seq<Node>, a: nat, xs: seq<Value>)
    requires Sound(nodes) && IsArray(nodes, a) && BuildItems(nodes, a, xs).Some?
    ensures var nodes' := BuildItems(nodes, a, xs).value;
            && Grown(nodes, nodes', a) && IsArray(nodes', a)
            && |nodes'[a].items| == |nodes[a].items| + |xs| && HoldsItems(nodes', a, |nodes[a].items|, xs)
    decreases xs, 1
  {
    if xs != [] {
      var nodes1, nodes' := BuildItem(nodes, a, xs[0]).value, BuildItems(nodes, a, xs).value;
      ItemBuilt(nodes, a, xs[0]);
      ItemsBuilt(nodes1, a, xs[1..]);
      GrownFurther(nodes, nodes1, nodes', a, a);
      ItemStays(nodes1, nodes', nodes1[a].items[|nodes[a].items|], xs[0]);
      assert NodeGrows(nodes1[a], nodes'[a]);
    }
  }

  // ----- Headers select the table they name -----

  /** One step of a header's path: a table, or the last table of an array of tables. */
  ghost function Step(nodes: seq<Node>, t: nat, k: string): Option<nat>
    requires IsTable(nodes, t)
  {
    match Check(nodes[t], k)
    case FoundTab(id) => Some(id)
    case FoundArr(id) =>
      if IsArray(nodes, id) && nodes[id].kind == 't' && nodes[id].items != [] && nodes[id].items[|nodes[id].items| - 1].Tab?
      then Some(nodes[id].items[|nodes[id].items| - 1].id) else None
    case _ => None
  }

  /** The table a path leads to from the root. */
  ghost function Follow(nodes: seq<Node>, path: seq<string>): Option<nat> {
    if path == [] then Some(0) else
      match Follow(nodes, path[..|path| - 1])
      case None => None
      case Some(t) => if IsTable(nodes, t) then Step(nodes, t, path[|path| - 1]) else None
  }

  /** A step leads to a table made later, and so does not depend on it. */
  lemma {:induction false} StepForward(nodes: seq<Node>, t: nat, k: string)
    requires Sound(nodes) && IsTable(nodes, t) && Step(nodes, t, k).Some?
    ensures var r := Step(nodes, t, k).value;
            t < r && IsTable(nodes, r) && (Check(nodes[t], k).FoundArr? ==> Check(nodes[t], k).id < r)
  {
    var owner :| Tree(nodes, owner);
    CheckIsOwned(nodes, owner, t, k);
    var f := Check(nodes[t], k);
    if f.FoundArr? {
      assert NodeOk(nodes, owner, f.id);
    }
  }

  lemma {:induction false} FollowStays(nodes: seq<Node>, nodes': seq<Node>, path: seq<string>)
    requires Sound(nodes) && Follow(nodes, path).Some? && SameBelow(nodes, nodes', Follow(nodes, path).value)
    ensures IsTable(nodes, Follow(nodes, path).value) && Follow(nodes', path) == Follow(nodes, path)
  {
    if path == [] {
      var owner :| Tree(nodes, owner);
    } else {
      var init, k := path[..|path| - 1], path[|path| - 1];
      StepForward(nodes, Follow(nodes, init).value, k);
      FollowStays(nodes, nodes', init);
    }
  }

  lemma FollowSnoc(nodes: seq<Node>, path: seq<string>, k: string)
    ensures Follow(nodes, path + [k]) ==
            match Follow(nodes, path)
            case None => None
            case Some(t) => if IsTable(nodes, t) then Step(nodes, t, k) else None
  {
    assert (path + [k])[..|path|] == path;
  }

  lemma {:induction false} SteppedInto(nodes: seq<Node>, before: seq<string>, t: nat, k: string)
    requires Sound(nodes) && Follow(nodes, before) == Some(t) && IsTable(nodes, t) && StepInto(nodes, t, k).Some?
    ensures var m := StepInto(nodes, t, k).value;
            Grown(nodes, m.nodes, t) && IsTable(m.nodes, m.id) && Follow(m.nodes, before + [k]) == Some(m.id)
  {
    var m := StepInto(nodes, t, k).value;
    if Check(nodes[t], k) == NoKey {
      TableAdded(nodes, t, k, true);
      FollowStays(nodes, m.nodes, before);
      FollowSnoc(m.nodes, before, k);
    } else {
      StepForward(nodes, t, k);
      FollowSnoc(nodes, before, k);
      GrownInPlace(nodes, t);
    }
  }

  lemma GrownInPlace(nodes: seq<Node>, i: nat)
    requires Sound(nodes)
    ensures Grown(nodes, nodes, i)
  {
  }

  lemma {:induction false} PathWalked(nodes: seq<Node>, before: seq<string>, t: nat, path: seq<string>)
    requires Sound(nodes) && Follow(nodes, before) == Some(t) && IsTable(nodes, t) && WalkPath(nodes, t, path).Some?
    ensures var m := WalkPath(nodes, t, path).value;
            Grown(nodes, m.nodes, t) && IsTable(m.nodes, m.id) && Follow(m.nodes, before + path) == Some(m.id)
    decreases path
  {
    hide Sound, Step, Follow, StepInto, Extends;
    if path == [] {
      assert before + path == before;
      GrownInPlace(nodes, t);
    } else {
      var m1 := StepInto(nodes, t, path[0]).value;
      SteppedInto(nodes, before, t, path[0]);
      PathWalked(m1.nodes, before + [path[0]], m1.id, path[1..]);
      assert before + [path[0]] + path[1..] == before + path;
      var m := WalkPath(nodes, t, path).value;
      SteppedForward(nodes, t, path[0]);
      GrownFurther(nodes, m1.nodes, m.nodes, t, m1.id);
    }
  }

  lemma {:induction false} SteppedForward(nodes: seq<Node>, t: nat, k: string)
    requires Sound(nodes) && IsTable(nodes, t) && StepInto(nodes, t, k).Some?
    ensures t < StepInto(nodes, t, k).value.id
  {
    if Check(nodes[t], k) == NoKey {
      TableAdded(nodes, t, k, true);
    } else {
      StepForward(nodes, t, k);
    }
  }

  lemma {:induction false} ArrayOfTablesFound(nodes: seq<Node>, t: nat, k: string)
    requires Sound(nodes) && IsTable(nodes, t) && ArrayOfTables(nodes, t, k).Some?
    ensures var m := ArrayOfTables(nodes, t, k).value;
            && Grown(nodes, m.nodes, t) && IsTable(m.nodes, t) && t < m.id && IsArray(m.nodes, m.id)
            && Check(m.nodes[t], k) == FoundArr(m.id) && Join(m.nodes[m.id].kind, 't') == 't'
  {
    if Find(nodes[t].arrs, k).None? {
      ArrayAdded(nodes, t, k);
    } else {
      var owner :| Tree(nodes, owner);
      ExactlyOneLookup(nodes, owner, t, k);
      CheckIsOwned(nodes, owner, t, k);
      GrownInPlace(nodes, t);
    }
  }

  /** The selected table is the one under the last key: new, no longer implicit, or the last
      of its array. */
  lemma {:induction false} Selected(nodes: seq<Node>, init: seq<string>, t: nat, k: string, doubled: bool)
    requires Sound(nodes) && Follow(nodes, init) == Some(t) && IsTable(nodes, t) && Select(nodes, t, k, doubled).Some?
    ensures var m := Select(nodes, t, k, doubled).value;
            Grown(nodes, m.nodes, t) && IsTable(m.nodes, m.id) && Follow(m.nodes, init + [k]) == Some(m.id)
  {
    var m := Select(nodes, t, k, doubled).value;
    if doubled {
      ArrayOfTablesFound(nodes, t, k);
      var m1 := ArrayOfTables(nodes, t, k).value;
      ItemAppended(m1.nodes, m1.id, Tab(|m1.nodes|), [EMPTY_TABLE]);
      GrownFurther(nodes, m1.nodes, m.nodes, t, m1.id);
    } else {
      TableAdded(nodes, t, k, false);
    }
    FollowStays(nodes, m.nodes, init);
    FollowSnoc(m.nodes, init, k);
  }

  lemma {:induction false} HeaderBuilt(nodes: seq<Node>, path: seq<string>, doubled: bool)
    requires Sound(nodes) && path != [] && BuildHeader(nodes, path, doubled).Some?
    ensures var m := BuildHeader(nodes, path, doubled).value;
            Grown(nodes, m.nodes, 0) && IsTable(m.nodes, m.id) && Follow(m.nodes, path) == Some(m.id)
  {
    var n := |path| - 1;
    var init, k := path[..n], path[n];
    var m1 := WalkPath(nodes, 0, init).value;
    assert IsTable(nodes, 0) && [] + init == init && init + [k] == path;
    PathWalked(nodes, [], 0, init);
    Selected(m1.nodes, init, m1.id, k, doubled);
    hide *;
    GrownFurther0(nodes, m1.nodes, BuildHeader(nodes, path, doubled).value.nodes, m1.id);
  }

  lemma GrownFurther0(a: seq<Node>, b: seq<Node>, c: seq<Node>, j: nat)
    requires Grown(a, b, 0) && Grown(b, c, j)
    ensures Grown(a, c, 0)
  {
    GrownFurther(a, b, c, 0, j);
  }

  // ----- Whole documents -----

  /** The table statement `i` is read under: that of the last header before it, or the root. */
  function TableOf(m: Made, ss: seq<Statement>, i: nat): Option<nat>
    requires i <= |ss|
  {
    match BuildDocument(m, ss[..i])
    case None => None
    case Some(m1) => Some(m1.id)
  }

  /** Statements without a header between them share their table. */
  lemma {:induction false} TableChangesAtHeaders(m: Made, ss: seq<Statement>, i: nat)
    requires i < |ss| && ss[i].KeyVal? && BuildDocument(m, ss[..i + 1]).Some?
    ensures TableOf(m, ss, i + 1) == TableOf(m, ss, i)
  {
    DocumentSnoc(m, ss[..i], ss[i]);
    assert ss[..i + 1] == ss[..i] + [ss[i]];
  }

  lemma {:induction false} DocumentSnoc(m: Made, ss: seq<Statement>, s: Statement)
    ensures BuildDocument(m, ss + [s]) ==
            match BuildDocument(m, ss)
            case None => None
            case Some(m1) => BuildStatement(m1, s)
    decreases ss
  {
    if ss == [] {
      assert (ss + [s])[1..] == [];
      assert BuildStatement(m, s).Some? ==> BuildDocument(BuildStatement(m, s).value, []) == BuildStatement(m, s);
    } else {
      assert (ss + [s])[1..] == ss[1..] + [s];
      if BuildStatement(m, ss[0]).Some? {
        DocumentSnoc(BuildStatement(m, ss[0]).value, ss[1..], s);
      }
    }
  }

  lemma {:induction false} StatementBuilt(m: Made, s: Statement)
    requires Sound(m.nodes) && IsTable(m.nodes, m.id) && BuildStatement(m, s).Some?
    ensures var m' := BuildStatement(m, s).value;
            && Grown(m.nodes, m'.nodes, 0) && IsTable(m'.nodes, m'.id)
            && (s.KeyVal? ==> m'.id == m.id && HoldsEntry(m'.nodes, m.id, s.entry))
            && (s.Header? ==> Follow(m'.nodes, s.path) == Some(m'.id))
  {
    hide BuildEntry, BuildHeader, Sound;
    match s
    case KeyVal(e) => EntryBuilt(m.nodes, m.id, e);
    case Header(doubled, path) => HeaderBuilt(m.nodes, path, doubled);
  }

  /** The whole document is in the tree at the end: every entry under the table of its
      header, with all its items and inline entries, whatever came after it. */
  lemma {:induction false} DocumentHolds(m: Made, ss: seq<Statement>)
    requires Sound(m.nodes) && IsTable(m.nodes, m.id) && BuildDocument(m, ss).Some?
    ensures var m' := BuildDocument(m, ss).value;
            && Grown(m.nodes, m'.nodes, 0) && IsTable(m'.nodes, m'.id)
            && forall i | 0 <= i < |ss| && ss[i].KeyVal? ::
                 TableOf(m, ss, i).Some? && HoldsEntry(m'.nodes, TableOf(m, ss, i).value, ss[i].entry)
    decreases |ss|
  {
    if ss == [] {
      GrownInPlace(m.nodes, 0);
    } else {
      var n := |ss| - 1;
      var init, last := ss[..n], ss[n];
      assert ss == init + [last];
      DocumentSnoc(m, init, last);
      DocumentHolds(m, init);
      var m1, m' := BuildDocument(m, init).value, BuildDocument(m, ss).value;
      StatementBuilt(m1, last);
      GrownFurther(m.nodes, m1.nodes, m'.nodes, 0, 0);
      hide BuildStatement, BuildDocument, Sound;
      forall i | 0 <= i < |ss| && ss[i].KeyVal?
        ensures TableOf(m, ss, i).Some? && HoldsEntry(m'.nodes, TableOf(m, ss, i).value, ss[i].entry)
      {
        assert ss[..i] == if i == n then init else init[..i];
        if i < n {
          EntryStays(m1.nodes, m'.nodes, TableOf(m, init, i).value, init[i].entry);
        }
      }
    }
  }

  /** After a header the table is the one its path leads to from the root. */
  lemma {:induction false} HeaderSelects(m: Made, ss: seq<Statement>, i: nat)
    requires Sound(m.nodes) && IsTable(m.nodes, m.id) && i < |ss| && ss[i].Header? && BuildDocument(m, ss[..i + 1]).Some?
    ensures var m' := BuildDocument(m, ss[..i + 1]).value;
            TableOf(m, ss, i + 1) == Some(m'.id) && Follow(m'.nodes, ss[i].path) == Some(m'.id)
  {
    assert ss[..i + 1] == ss[..i] + [ss[i]];
    DocumentSnoc(m, ss[..i], ss[i]);
    DocumentHolds(m, ss[..i]);
    StatementBuilt(BuildDocument(m, ss[..i]).value, ss[i]);
  }

  /** What a document builds from nothing is a tree: distinct keys in every table, truthful
      kinds, every node in one place. */
  lemma DocumentIsTree(ss: seq<Statement>)
    requires BuildDocument(EMPTY_DOCUMENT, ss).Some?
    ensures Sound(BuildDocument(EMPTY_DOCUMENT, ss).value.nodes)
  {
    EmptyIsTree();
    DocumentHolds(EMPTY_DOCUMENT, ss);
  }

  lemma EmptyIsTree()
    ensures Sound([EMPTY_TABLE])
  {
    assert Tree([EMPTY_TABLE], [0]);
  }

  // ----- What is refused -----

  lemma {:induction false} FollowPrefix(nodes: seq<Node>, path: seq<string>, more: seq<string>)
    requires Follow(nodes, path + more).Some?
    ensures Follow(nodes, path).Some?
    decreases more
  {
    if more == [] {
      assert path + more == path;
    } else {
      var n := |more| - 1;
      assert path + more == (path + more[..n]) + [more[n]];
      FollowSnoc(nodes, path + more[..n], more[n]);
      FollowPrefix(nodes, path, more[..n]);
    }
  }

  /** A path that leads somewhere is walked without making anything. */
  lemma {:induction false} KnownPathWalked(nodes: seq<Node>, before: seq<string>, t: nat, path: seq<string>)
    requires Follow(nodes, before) == Some(t) && Follow(nodes, before + path).Some?
    ensures WalkPath(nodes, t, path) == Some(Made(nodes, Follow(nodes, before + path).value))
    decreases path
  {
    if path == [] {
      assert before + path == before;
    } else {
      var k, rest := path[0], path[1..];
      assert before + path == (before + [k]) + rest;
      FollowPrefix(nodes, before + [k], rest);
      FollowSnoc(nodes, before, k);
      KnownPathWalked(nodes, before + [k], Follow(nodes, before + [k]).value, rest);
    }
  }

  /** A single header whose path already leads somewhere is accepted if and only if that is a
      table under its last key that no header or entry has made explicit: no table is
      defined twice. */
  lemma {:induction false} TableTwice(nodes: seq<Node>, path: seq<string>)
    requires Sound(nodes) && path != [] && Follow(nodes, path).Some?
    ensures var n := |path| - 1;
            var t := Follow(nodes, path[..n]).value;
            && Follow(nodes, path[..n]).Some? && IsTable(nodes, t) && IsTable(nodes, Follow(nodes, path).value)
            && (BuildHeader(nodes, path, false).Some? <==>
                  Check(nodes[t], path[n]).FoundTab? && nodes[Follow(nodes, path).value].implicit)
  {
    var n := |path| - 1;
    assert path == path[..n] + [path[n]];
    FollowSnoc(nodes, path[..n], path[n]);
    assert [] + path[..n] == path[..n];
    KnownPathWalked(nodes, [], 0, path[..n]);
    var t := Follow(nodes, path[..n]).value;
    StepForward(nodes, t, path[n]);
  }
}

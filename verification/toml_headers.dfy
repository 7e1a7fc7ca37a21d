/** Which headers a TOML document accepts, by where their keys lead from the root. */
module TomlHeaders {
  import opened Options
  import opened TomlTree
  import opened TomlSyntax
  import opened TomlBuild
  import opened TomlParser
  import opened TomlSpelling
  import opened TomlAccepts

  // ----- Where the keys of a header lead -----

  /** One key of a header leads into a table or into the last table of an array of tables. */
  function Goes(nodes: seq<Node>, t: nat, k: string): Place {
    if !IsTable(nodes, t) then Taken else
      match Check(nodes[t], k)
      case NoKey => Free
      case FoundVal(_) => Taken
      case FoundTab(id) => TableAt(id)
      case FoundArr(id) => if IsArray(nodes, id) && nodes[id].kind == 't' then LastOf(nodes[id].items) else Taken
  }

  function LastOf(xs: seq<Item>): Place {
    if xs != [] && xs[|xs| - 1].Tab? then TableAt(xs[|xs| - 1].id) else Taken
  }

  function HeadLead(nodes: seq<Node>, t: nat, p: seq<string>): Place
    decreases p
  {
    if p == [] then TableAt(t) else
      match Goes(nodes, t, p[0])
      case TableAt(id) => HeadLead(nodes, id, p[1..])
      case pl => pl
  }

  /** The keys before the last lead to a table, or to nothing, and the last key has nothing
      under it or, for a single header, a table that is still implicit, or, for a doubled
      one, an array of tables. */
  predicate AcceptsHeader(nodes: seq<Node>, path: seq<string>, doubled: bool)
    requires path != []
  {
    match HeadLead(nodes, 0, path[..|path| - 1])
    case Free => true
    case Taken => false
    case TableAt(t) => AcceptsLast(nodes, t, path[|path| - 1], doubled)
  }

  predicate AcceptsLast(nodes: seq<Node>, t: nat, k: string, doubled: bool) {
    IsTable(nodes, t) &&
    match Check(nodes[t], k)
    case NoKey => true
    case FoundVal(_) => false
    case FoundTab(id) => !doubled && IsTable(nodes, id) && nodes[id].implicit
    case FoundArr(id) => doubled && IsArray(nodes, id) && nodes[id].kind == 't'
  }

  // ----- The law for headers -----

  lemma StepGoes(nodes: seq<Node>, t: nat, k: string)
    requires Sound(nodes) && IsTable(nodes, t)
    ensures match Goes(nodes, t, k)
            case Free => Check(nodes[t], k).NoKey? && StepInto(nodes, t, k).Some? && StepInto(nodes, t, k) == AddTable(nodes, t, k, true)
            case Taken => StepInto(nodes, t, k).None?
            case TableAt(id) => StepInto(nodes, t, k) == Some(Made(nodes, id)) && IsTable(nodes, id)
  {
    if Goes(nodes, t, k).TableAt? {
      StepForward(nodes, t, k);
    }
  }

  lemma {:induction false} WalkAccepted(nodes: seq<Node>, t: nat, path: seq<string>)
    requires Sound(nodes) && IsTable(nodes, t)
    ensures WalkPath(nodes, t, path).Some? <==> !HeadLead(nodes, t, path).Taken?
    ensures HeadLead(nodes, t, path).TableAt? ==>
              WalkPath(nodes, t, path) == Some(Made(nodes, HeadLead(nodes, t, path).id)) && IsTable(nodes, HeadLead(nodes, t, path).id)
    ensures HeadLead(nodes, t, path).Free? ==> Blank(WalkPath(nodes, t, path).value.nodes, WalkPath(nodes, t, path).value.id, true)
    decreases path
  {
    hide Sound, Goes, StepInto, Check;
    if path != [] {
      StepGoes(nodes, t, path[0]);
      match Goes(nodes, t, path[0])
      case Free => NewWalk(nodes, t, path);
      case Taken =>
      case TableAt(id) => WalkAccepted(nodes, id, path[1..]);
    }
  }

  lemma BlankGoes(nodes: seq<Node>, t: nat, p: seq<string>)
    requires Blank(nodes, t, true)
    ensures HeadLead(nodes, t, p) == if p == [] then TableAt(t) else Free
    ensures p != [] ==> Goes(nodes, t, p[0]).Free?
  {
  }

  lemma {:induction false} NewWalk(nodes: seq<Node>, t: nat, path: seq<string>)
    requires Sound(nodes) && IsTable(nodes, t) && path != [] && Goes(nodes, t, path[0]).Free?
    ensures WalkPath(nodes, t, path).Some?
    ensures Blank(WalkPath(nodes, t, path).value.nodes, WalkPath(nodes, t, path).value.id, true)
    decreases path
  {
    hide Sound, Goes, StepInto, Check, KeyPut, AddTable;
    StepGoes(nodes, t, path[0]);
    TablePut(nodes, t, path[0], true);
    TableAdded(nodes, t, path[0], true);
    var m := AddTable(nodes, t, path[0], true).value;
    GrownSound(nodes, m.nodes, t);
    BlankGoes(m.nodes, m.id, path[1..]);
    if path[1..] != [] {
      NewWalk(m.nodes, m.id, path[1..]);
    }
  }

  lemma SelectAccepted(nodes: seq<Node>, t: nat, k: string, doubled: bool)
    requires Sound(nodes) && IsTable(nodes, t)
    ensures Select(nodes, t, k, doubled).Some? <==> AcceptsLast(nodes, t, k, doubled)
  {
    var owner :| Tree(nodes, owner);
    ExactlyOneLookup(nodes, owner, t, k);
    CheckIsOwned(nodes, owner, t, k);
    hide Sound, Tree, Find;
    if doubled && Check(nodes[t], k).NoKey? {
      ArrayReady(nodes, t, k);
    }
  }

  /** A header is built if and only if it is accepted. */
  lemma HeaderAccepted(nodes: seq<Node>, path: seq<string>, doubled: bool)
    requires Sound(nodes) && path != []
    ensures BuildHeader(nodes, path, doubled).Some? <==> AcceptsHeader(nodes, path, doubled)
  {
    var n := |path| - 1;
    RootIsTable(nodes);
    hide Sound, Select, AcceptsLast, Check, Follow, HeadLead, WalkPath;
    WalkAccepted(nodes, 0, path[..n]);
    if WalkPath(nodes, 0, path[..n]).Some? {
      var m := WalkPath(nodes, 0, path[..n]).value;
      assert [] + path[..n] == path[..n];
      NoKeysFollow(nodes);
      PathWalked(nodes, [], 0, path[..n]);
      GrownSound(nodes, m.nodes, 0);
      SelectAccepted(m.nodes, m.id, path[n], doubled);
      if HeadLead(nodes, 0, path[..n]).Free? {
        BlankTakes(m.nodes, m.id, path[n], doubled);
      }
    }
  }

  lemma RootIsTable(nodes: seq<Node>)
    requires Sound(nodes)
    ensures IsTable(nodes, 0)
  {
  }

  lemma NoKeysFollow(nodes: seq<Node>)
    ensures Follow(nodes, []) == Some(0)
  {
  }

  lemma BlankTakes(nodes: seq<Node>, t: nat, k: string, doubled: bool)
    requires Blank(nodes, t, true)
    ensures AcceptsLast(nodes, t, k, doubled)
  {
  }

  // ----- Headers after headers -----

  /** No single header can be repeated at once. */
  lemma HeaderOnce(nodes: seq<Node>, path: seq<string>)
    requires Sound(nodes) && path != [] && BuildHeader(nodes, path, false).Some?
    ensures BuildHeader(BuildHeader(nodes, path, false).value.nodes, path, false).None?
  {
    hide *;
    var m := BuildHeader(nodes, path, false).value;
    HeaderBuilt(nodes, path, false);
    GrownSound(nodes, m.nodes, 0);
    SelectedExplicit(nodes, path);
    TableTwice(m.nodes, path);
  }

  lemma SelectedExplicit(nodes: seq<Node>, path: seq<string>)
    requires path != [] && BuildHeader(nodes, path, false).Some?
    ensures var m := BuildHeader(nodes, path, false).value; IsTable(m.nodes, m.id) ==> !m.nodes[m.id].implicit
  {
    hide WalkPath, Check;
  }

  /** The flags of the tables that are there stay as they are. */
  ghost predicate FlagsStay(nodes: seq<Node>, nodes': seq<Node>) {
    |nodes| <= |nodes'| &&
    forall j: nat | IsTable(nodes, j) :: IsTable(nodes', j) && nodes'[j].implicit == nodes[j].implicit && nodes'[j].readonly == nodes[j].readonly
  }

  /** A table that keys lead to stays where it is. */
  lemma {:induction false} LeadStays(nodes: seq<Node>, nodes': seq<Node>, t: nat, p: seq<string>)
    requires Sound(nodes) && Sound(nodes') && Extends(nodes, nodes') && Lead(nodes, t, p).TableAt?
    ensures Lead(nodes', t, p) == Lead(nodes, t, p)
    decreases p
  {
    hide Sound, Check;
    assert NodeGrows(nodes[t], nodes'[t]);
    if p != [] {
      TabStays(nodes, nodes', t, p[0]);
      LeadStays(nodes, nodes', Check(nodes[t], p[0]).id, p[1..]);
    }
  }

  lemma TabStays(nodes: seq<Node>, nodes': seq<Node>, t: nat, k: string)
    requires Sound(nodes) && Sound(nodes') && Extends(nodes, nodes') && IsTable(nodes, t) && Check(nodes[t], k).FoundTab?
    ensures IsTable(nodes', t) && Check(nodes'[t], k) == Check(nodes[t], k)
  {
    hide Sound, Check;
    assert NodeGrows(nodes[t], nodes'[t]);
    CheckTab(nodes, t, k);
    FindStable(nodes[t].tabs, nodes'[t].tabs, k);
    CheckTab(nodes', t, k);
  }

  lemma NewTableFlags(nodes: seq<Node>, t: nat, k: string)
    requires Sound(nodes) && IsTable(nodes, t) && Check(nodes[t], k).NoKey?
    ensures AddTable(nodes, t, k, true).Some? && FlagsStay(nodes, AddTable(nodes, t, k, true).value.nodes)
  {
    hide Sound, Check;
  }

  lemma {:induction false} WalkGrows(nodes: seq<Node>, t: nat, path: seq<string>)
    requires Sound(nodes) && IsTable(nodes, t) && WalkPath(nodes, t, path).Some?
    ensures var m := WalkPath(nodes, t, path).value;
            Grown(nodes, m.nodes, t) && IsTable(m.nodes, m.id) && FlagsStay(nodes, m.nodes)
    decreases path
  {
    hide Sound, Goes, StepInto, Check, Extends;
    if path == [] {
      GrownInPlace(nodes, t);
    } else {
      StepGoes(nodes, t, path[0]);
      SteppedForward(nodes, t, path[0]);
      var m1, m := StepInto(nodes, t, path[0]).value, WalkPath(nodes, t, path).value;
      if Goes(nodes, t, path[0]).Free? {
        TableAdded(nodes, t, path[0], true);
        NewTableFlags(nodes, t, path[0]);
      } else {
        GrownInPlace(nodes, t);
      }
      WalkGrows(m1.nodes, m1.id, path[1..]);
      GrownFurther(nodes, m1.nodes, m.nodes, t, m1.id);
    }
  }

  /** The tables a header makes on its way are implicit. */
  lemma {:induction false} NewWalkImplicit(nodes: seq<Node>, t: nat, path: seq<string>, i: nat)
    requires Sound(nodes) && IsTable(nodes, t) && 1 <= i <= |path| && Goes(nodes, t, path[0]).Free? && WalkPath(nodes, t, path).Some?
    ensures Seen(WalkPath(nodes, t, path).value.nodes, t, path[..i]) == Branch(true, false)
    decreases path
  {
    hide Sound, Goes, StepInto, Check, KeyPut, AddTable;
    var k, rest := path[0], path[1..];
    StepGoes(nodes, t, k);
    TablePut(nodes, t, k, true);
    TableAdded(nodes, t, k, true);
    var m1, m := AddTable(nodes, t, k, true).value, WalkPath(nodes, t, path).value;
    GrownSound(nodes, m1.nodes, t);
    WalkGrows(m1.nodes, m1.id, rest);
    GrownSound(m1.nodes, m.nodes, m1.id);
    TabStays(m1.nodes, m.nodes, t, k);
    assert path[..i] == [k] + rest[..i - 1];
    LeadCons(m.nodes, t, k, rest[..i - 1]);
    if i == 1 {
      assert rest[..i - 1] == [];
    } else {
      BlankGoes(m1.nodes, m1.id, rest);
      NewWalkImplicit(m1.nodes, m1.id, rest, i - 1);
    }
  }

  /** The keys lead to a table that is still implicit, under the last of them. */
  ghost predicate ImplicitAt(nodes: seq<Node>, p: seq<string>) {
    p != [] &&
    var u := Follow(nodes, p[..|p| - 1]);
    u.Some? && IsTable(nodes, u.value) && IsImplicit(nodes, Check(nodes[u.value], p[|p| - 1]))
  }

  predicate IsImplicit(nodes: seq<Node>, f: Found) {
    f.FoundTab? && IsTable(nodes, f.id) && nodes[f.id].implicit
  }

  lemma {:induction false} LeadFollow(nodes: seq<Node>, before: seq<string>, t: nat, p: seq<string>)
    requires Follow(nodes, before) == Some(t) && p != [] && Seen(nodes, t, p).Branch? && Seen(nodes, t, p).implicit
    ensures ImplicitAt(nodes, before + p)
    decreases p
  {
    hide Check, Step;
    var k, r := p[0], p[1..];
    LeadCons(nodes, t, k, r);
    FollowSnoc(nodes, before, k);
    assert p == [k] + r;
    if r == [] {
      assert p == [k] && (before + p)[..|before + p| - 1] == before;
      LeadCons(nodes, Check(nodes[t], k).id, k, r);
    } else {
      StepTab(nodes, t, k);
      LeadFollow(nodes, before + [k], Check(nodes[t], k).id, r);
      assert (before + [k]) + r == before + p;
    }
  }

  lemma StepTab(nodes: seq<Node>, t: nat, k: string)
    requires IsTable(nodes, t) && Check(nodes[t], k).FoundTab?
    ensures Step(nodes, t, k) == Some(Check(nodes[t], k).id)
  {
  }

  lemma {:induction false} WalkImplicit(nodes: seq<Node>, before: seq<string>, t: nat, path: seq<string>, i: nat)
    requires Sound(nodes) && Follow(nodes, before) == Some(t) && IsTable(nodes, t) && WalkPath(nodes, t, path).Some?
    requires 1 <= i <= |path| && HeadLead(nodes, t, path[..i]).Free?
    ensures ImplicitAt(WalkPath(nodes, t, path).value.nodes, before + path[..i])
    decreases path
  {
    hide Sound, Goes, StepInto, Check, Seen, Follow, Extends, ImplicitAt;
    var m := WalkPath(nodes, t, path).value;
    assert path[..i][0] == path[0] && path[..i][1..] == path[1..][..i - 1];
    StepGoes(nodes, t, path[0]);
    if Goes(nodes, t, path[0]).Free? {
      WalkGrows(nodes, t, path);
      FollowStays(nodes, m.nodes, before);
      NewWalkImplicit(nodes, t, path, i);
      LeadFollow(m.nodes, before, t, path[..i]);
    } else {
      SteppedInto(nodes, before, t, path[0]);
      WalkImplicit(nodes, before + [path[0]], Goes(nodes, t, path[0]).id, path[1..], i - 1);
      assert (before + [path[0]]) + path[1..][..i - 1] == before + path[..i];
    }
  }

  lemma {:induction false} HeadFreeOn(nodes: seq<Node>, t: nat, path: seq<string>, i: nat)
    requires i <= |path| && HeadLead(nodes, t, path[..i]).Free?
    ensures HeadLead(nodes, t, path).Free?
    decreases path
  {
    hide Goes;
    if i > 0 {
      assert path[..i][0] == path[0] && path[..i][1..] == path[1..][..i - 1];
      if Goes(nodes, t, path[0]).TableAt? {
        HeadFreeOn(nodes, Goes(nodes, t, path[0]).id, path[1..], i - 1);
      }
    }
  }

  lemma SelectFlags(nodes: seq<Node>, t: nat, k: string, doubled: bool)
    requires Blank(nodes, t, true) && Select(nodes, t, k, doubled).Some?
    ensures FlagsStay(nodes, Select(nodes, t, k, doubled).value.nodes)
  {
  }

  /** More keys lead to later tables. */
  lemma {:induction false} FollowForward(nodes: seq<Node>, p: seq<string>, i: nat)
    requires Sound(nodes) && i < |p| && Follow(nodes, p).Some?
    ensures Follow(nodes, p[..i]).Some? && Follow(nodes, p[..i]).value < Follow(nodes, p).value
    decreases p
  {
    hide Sound, Step;
    var n := |p| - 1;
    StepForward(nodes, Follow(nodes, p[..n]).value, p[n]);
    if i < n {
      assert p[..n][..i] == p[..i];
      FollowForward(nodes, p[..n], i);
    }
  }

  /** What is selected under the last key leaves the tables before it as they are. */
  lemma ImplicitStays(nodes: seq<Node>, nodes': seq<Node>, init: seq<string>, i: nat, t: nat)
    requires Sound(nodes) && Follow(nodes, init) == Some(t) && 1 <= i <= |init| && ImplicitAt(nodes, init[..i])
    requires SameBelow(nodes, nodes', t) && FlagsStay(nodes, nodes')
    ensures ImplicitAt(nodes', init[..i])
  {
    hide Sound, Follow, Check;
    var p := init[..i];
    assert p[..i - 1] == init[..i - 1];
    FollowForward(nodes, init, i - 1);
    FollowStays(nodes, nodes', p[..i - 1]);
  }

  lemma ImplicitFollows(nodes: seq<Node>, p: seq<string>)
    requires ImplicitAt(nodes, p)
    ensures Follow(nodes, p).Some? && Check(nodes[Follow(nodes, p[..|p| - 1]).value], p[|p| - 1]).FoundTab?
    ensures IsTable(nodes, Follow(nodes, p).value) && nodes[Follow(nodes, p).value].implicit
  {
    var n := |p| - 1;
    assert p == p[..n] + [p[n]];
    FollowSnoc(nodes, p[..n], p[n]);
    StepTab(nodes, Follow(nodes, p[..n]).value, p[n]);
    hide Check, Step;
  }

  /** After a header the tables it made on its way can still be defined by headers of their
      own: `[a.b]` and then `[a]`. */
  lemma SuperTableLater(nodes: seq<Node>, path: seq<string>, doubled: bool, i: nat)
    requires Sound(nodes) && 1 <= i < |path| && HeadLead(nodes, 0, path[..i]).Free? && BuildHeader(nodes, path, doubled).Some?
    ensures BuildHeader(BuildHeader(nodes, path, doubled).value.nodes, path[..i], false).Some?
  {
    hide *;
    var n := |path| - 1;
    var init := path[..n];
    HeaderParts(nodes, path, doubled);
    var m1, m := WalkPath(nodes, 0, init).value, BuildHeader(nodes, path, doubled).value;
    Inits(path, i);
    RootIsTable(nodes);
    NoKeysFollow(nodes);
    WalkGrows(nodes, 0, init);
    GrownSound(nodes, m1.nodes, 0);
    PathWalked(nodes, [], 0, init);
    WalkImplicit(nodes, [], 0, init, i);
    HeadFreeOn(nodes, 0, init, i);
    WalkAccepted(nodes, 0, init);
    SelectFlags(m1.nodes, m1.id, path[n], doubled);
    Selected(m1.nodes, init, m1.id, path[n], doubled);
    GrownParts(m1.nodes, m.nodes, m1.id);
    ImplicitStays(m1.nodes, m.nodes, init, i, m1.id);
    ImplicitFollows(m.nodes, path[..i]);
    TableTwice(m.nodes, path[..i]);
  }

  lemma Inits(path: seq<string>, i: nat)
    requires 1 <= i < |path|
    ensures var init := path[..|path| - 1]; init[..i] == path[..i] && [] + init == init && [] + init[..i] == init[..i]
  {
  }

  lemma HeaderParts(nodes: seq<Node>, path: seq<string>, doubled: bool)
    requires path != [] && BuildHeader(nodes, path, doubled).Some?
    ensures var n := |path| - 1; var w := WalkPath(nodes, 0, path[..n]);
            w.Some? && BuildHeader(nodes, path, doubled) == Select(w.value.nodes, w.value.id, path[n], doubled)
  {
    hide WalkPath, Select;
  }

  lemma GrownParts(nodes: seq<Node>, nodes': seq<Node>, i: nat)
    requires Grown(nodes, nodes', i)
    ensures Sound(nodes') && SameBelow(nodes, nodes', i)
  {
  }

  // ----- Written documents -----

  /** A written document without headers is read if and only if no keys begin, or are, those of
      another entry, and the same holds within every inline table in it. */
  lemma WrittenEntriesParse(es: seq<Entry>)
    ensures Writable(KeyVals(es))
    ensures DocumentOutcome(EMPTY_DOCUMENT, [NewLine] + SpellDocument(KeyVals(es)), 0).Some? <==> EntriesOk(es)
  {
    hide EntriesOk, DocumentOutcome, BuildDocument;
    NoHeaders(es);
    WrittenDocumentParses(KeyVals(es));
    DocumentAccepted(es);
  }

  lemma {:induction false} NoHeaders(es: seq<Entry>)
    ensures forall s | s in KeyVals(es) :: s.KeyVal?
  {
    if es != [] {
      NoHeaders(es[1..]);
    }
  }
}

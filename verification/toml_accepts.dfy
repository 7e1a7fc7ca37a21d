/** Which statements a TOML document accepts: entries by where their keys lead, entries into
    a new table by their spelling alone, and headers by where their keys lead. */
module TomlAccepts {
  import opened Options
  import opened TomlTree
  import opened TomlSyntax
  import opened TomlBuild

  // ----- Keys of an entry -----

  /** All keys of an entry, the last one included. */
  function PathOf(e: Entry): seq<string> {
    match e
    case Under(k, rest) => [k] + PathOf(rest)
    case Set(k, _) => [k]
  }

  /** Where keys lead from a table: to nothing yet, to a value or an array, or to a table. */
  datatype Place = Free | Taken | TableAt(id: nat)

  function Lead(nodes: seq<Node>, t: nat, p: seq<string>): Place
    decreases p
  {
    if !IsTable(nodes, t) then Taken
    else if p == [] then TableAt(t)
    else
      match Check(nodes[t], p[0])
      case FoundTab(id) => Lead(nodes, id, p[1..])
      case NoKey => Free
      case _ => Taken
  }

  /** No table, or one that no inline table has closed. */
  predicate IsOpen(nodes: seq<Node>, pl: Place) {
    pl.Free? || (pl.TableAt? && IsTable(nodes, pl.id) && !nodes[pl.id].readonly)
  }

  /** The keys before the last lead to open tables, or to nothing. */
  predicate Way(nodes: seq<Node>, t: nat, p: seq<string>) {
    forall i | 0 <= i < |p| :: IsOpen(nodes, Lead(nodes, t, p[..i]))
  }

  // ----- What is accepted, by spelling -----

  /** The inline tables in it are all in order. */
  predicate ValueOk(v: Value)
    decreases v, 0
  {
    match v
    case Text(_) => true
    case List(xs) => forall i | 0 <= i < |xs| :: ValueOk(xs[i])
    case Inline(es) => EntriesOk(es)
  }

  predicate EntryOk(e: Entry)
    decreases e, 0
  {
    match e
    case Under(_, rest) => EntryOk(rest)
    case Set(_, v) => ValueOk(v)
  }

  /** The keys of no entry begin, or are, those of another. */
  predicate PrefixFree(es: seq<Entry>) {
    forall i, j | 0 <= i < |es| && 0 <= j < |es| && i != j :: !(PathOf(es[i]) <= PathOf(es[j]))
  }

  predicate EntriesOk(es: seq<Entry>)
    decreases es, 1
  {
    (forall i | 0 <= i < |es| :: EntryOk(es[i])) && PrefixFree(es)
  }

  // ----- What is accepted, in a given tree -----

  /** The keys before the last lead to open tables or to nothing, the last key leads to
      nothing, and the value is in order; or the last key leads to an implicit table and the
      value is an inline table, whose entries are accepted there one after the other. */
  predicate Accepts(nodes: seq<Node>, t: nat, e: Entry)
    decreases e, 1
  {
    Way(nodes, t, PathOf(e)) && Suits(nodes, Lead(nodes, t, PathOf(e)), e)
  }

  predicate Suits(nodes: seq<Node>, pl: Place, e: Entry)
    decreases e, 0
  {
    match e
    case Under(_, rest) => Suits(nodes, pl, rest)
    case Set(_, v) =>
      match pl
      case Free => ValueOk(v)
      case Taken => false
      case TableAt(id) =>
        && v.Inline? && IsTable(nodes, id) && nodes[id].implicit
        && AcceptsAll(nodes[id := nodes[id].(implicit := false)], id, v.entries)
  }

  predicate AcceptsAll(nodes: seq<Node>, t: nat, es: seq<Entry>)
    decreases es, 0
  {
    es == [] ||
    (Accepts(nodes, t, es[0]) && BuildEntry(nodes, t, es[0]).Some? && AcceptsAll(BuildEntry(nodes, t, es[0]).value, t, es[1..]))
  }

  // ----- Where keys lead -----

  lemma CheckTab(nodes: seq<Node>, t: nat, k: string)
    requires Sound(nodes) && IsTable(nodes, t)
    ensures Find(nodes[t].tabs, k).Some? <==> Check(nodes[t], k).FoundTab?
    ensures Check(nodes[t], k).FoundTab? ==>
              Check(nodes[t], k).id == Find(nodes[t].tabs, k).value && t < Check(nodes[t], k).id && IsTable(nodes, Check(nodes[t], k).id)
  {
    var owner :| Tree(nodes, owner);
    ExactlyOneLookup(nodes, owner, t, k);
    CheckIsOwned(nodes, owner, t, k);
  }

  /** Where the rest of the keys leads after one that was found or not. */
  function Onward(nodes: seq<Node>, f: Found, p: seq<string>): Place {
    match f
    case FoundTab(id) => Lead(nodes, id, p)
    case NoKey => Free
    case _ => Taken
  }

  predicate WayOn(nodes: seq<Node>, f: Found, p: seq<string>) {
    p == [] || f.NoKey? || (f.FoundTab? && Way(nodes, f.id, p))
  }

  lemma LeadCons(nodes: seq<Node>, t: nat, k: string, p: seq<string>)
    requires IsTable(nodes, t)
    ensures Lead(nodes, t, [k] + p) == Onward(nodes, Check(nodes[t], k), p) && Lead(nodes, t, []) == TableAt(t)
  {
    assert ([k] + p)[1..] == p;
  }

  /** The way on from a table that is there, or is not. */
  lemma WayCons(nodes: seq<Node>, t: nat, k: string, p: seq<string>)
    requires IsTable(nodes, t)
    ensures Way(nodes, t, [k] + p) <==> !nodes[t].readonly && WayOn(nodes, Check(nodes[t], k), p)
  {
    hide Lead, Check, WayOn, Onward;
    var q := [k] + p;
    assert q[..0] == [];
    LeadCons(nodes, t, k, []);
    forall j | 1 <= j <= |p|
      ensures Lead(nodes, t, q[..j]) == Onward(nodes, Check(nodes[t], k), p[..j - 1])
    {
      assert q[..j] == [k] + p[..j - 1];
      LeadCons(nodes, t, k, p[..j - 1]);
    }
    WayParts(nodes, t, q, p, Check(nodes[t], k));
  }

  lemma WayParts(nodes: seq<Node>, t: nat, q: seq<string>, p: seq<string>, f: Found)
    requires |q| == |p| + 1 && IsTable(nodes, t) && Lead(nodes, t, q[..0]) == TableAt(t)
    requires forall j | 1 <= j <= |p| :: Lead(nodes, t, q[..j]) == Onward(nodes, f, p[..j - 1])
    ensures Way(nodes, t, q) <==> !nodes[t].readonly && WayOn(nodes, f, p)
  {
    if p != [] {
      assert p[..0] == [];
      assert Lead(nodes, t, q[..1]) == Onward(nodes, f, p[..1 - 1]);
      if Way(nodes, t, q) {
        assert IsOpen(nodes, Lead(nodes, t, q[..0])) && IsOpen(nodes, Lead(nodes, t, q[..1]));
        forall i | 0 <= i < |p|
          ensures IsOpen(nodes, Onward(nodes, f, p[..i]))
        {
          assert Lead(nodes, t, q[..i + 1]) == Onward(nodes, f, p[..i + 1 - 1]);
        }
      }
    }
    hide Lead;
  }

  // ----- Subtrees do not meet -----

  lemma OwnedTab(nodes: seq<Node>, owner: seq<nat>, t: nat, k: string) returns (a: nat)
    requires Tree(nodes, owner) && IsTable(nodes, t) && Check(nodes[t], k).FoundTab?
    ensures var id := Check(nodes[t], k).id;
            t < id < |owner| && IsTable(nodes, id) && owner[id] == t && a < |nodes[t].tabs| && nodes[t].tabs[a] == Named(k, id)
  {
    assert NodeOk(nodes, owner, t);
    a := FindIsEntry(nodes[t].tabs, k);
  }

  /** The child of `t` that `x` lies below. */
  function Child(owner: seq<nat>, t: nat, x: nat): nat {
    if x < |owner| && owner[x] < x && owner[x] != t then Child(owner, t, owner[x]) else x
  }

  lemma {:induction false} LeadDescends(nodes: seq<Node>, owner: seq<nat>, t: nat, y: nat, p: seq<string>)
    requires Tree(nodes, owner) && t < y && IsTable(nodes, y) && Lead(nodes, y, p).TableAt?
    ensures var x := Lead(nodes, y, p).id; y <= x && IsTable(nodes, x) && Child(owner, t, x) == Child(owner, t, y)
    decreases p
  {
    hide Check, Tree;
    if p != [] {
      var a := OwnedTab(nodes, owner, y, p[0]);
      LeadDescends(nodes, owner, t, Check(nodes[y], p[0]).id, p[1..]);
    }
  }

  /** From table `y` no keys lead to `x`. */
  ghost predicate Avoids(nodes: seq<Node>, y: nat, x: nat) {
    forall p :: Lead(nodes, y, p) != TableAt(x)
  }

  lemma AvoidsSmaller(nodes: seq<Node>, y: nat, x: nat)
    requires Sound(nodes) && IsTable(nodes, y) && x < y
    ensures Avoids(nodes, y, x)
  {
    var owner :| Tree(nodes, owner);
    forall p
      ensures Lead(nodes, y, p) != TableAt(x)
    {
      if Lead(nodes, y, p).TableAt? {
        LeadDescends(nodes, owner, x, y, p);
      }
    }
  }

  lemma AvoidsSibling(nodes: seq<Node>, t: nat, k: string, k': string, q: seq<string>)
    requires Sound(nodes) && IsTable(nodes, t) && k != k'
    requires Check(nodes[t], k).FoundTab? && Check(nodes[t], k').FoundTab? && Lead(nodes, Check(nodes[t], k).id, q).TableAt?
    ensures Avoids(nodes, Check(nodes[t], k').id, Lead(nodes, Check(nodes[t], k).id, q).id)
  {
    var owner :| Tree(nodes, owner);
    var id, id' := Check(nodes[t], k).id, Check(nodes[t], k').id;
    var a := OwnedTab(nodes, owner, t, k);
    var a' := OwnedTab(nodes, owner, t, k');
    assert id != id' by {
      assert NodeOk(nodes, owner, t);
    }
    hide Check, Tree;
    LeadDescends(nodes, owner, t, id, q);
    forall p
      ensures Lead(nodes, id', p) != Lead(nodes, id, q)
    {
      if Lead(nodes, id', p).TableAt? {
        LeadDescends(nodes, owner, t, id', p);
      }
    }
  }

  // ----- What keys see -----

  datatype Sight = Nothing | Leaf | Branch(implicit: bool, closed: bool)

  function SightOf(nodes: seq<Node>, pl: Place): Sight {
    match pl
    case Free => Nothing
    case Taken => Leaf
    case TableAt(id) => if IsTable(nodes, id) then Branch(nodes[id].implicit, nodes[id].readonly) else Leaf
  }

  function Seen(nodes: seq<Node>, t: nat, p: seq<string>): Sight {
    SightOf(nodes, Lead(nodes, t, p))
  }

  /** Of the nodes that are there, only `x` has changed. */
  ghost predicate OnlyAt(nodes: seq<Node>, nodes': seq<Node>, x: nat) {
    |nodes| <= |nodes'| && forall j: nat | j < |nodes| && j != x :: nodes'[j] == nodes[j]
  }

  lemma {:induction false} FrameSeen(nodes: seq<Node>, nodes': seq<Node>, y: nat, x: nat, p: seq<string>)
    requires Sound(nodes) && IsTable(nodes, y) && Avoids(nodes, y, x) && OnlyAt(nodes, nodes', x)
    ensures Seen(nodes', y, p) == Seen(nodes, y, p)
    decreases p
  {
    hide Check, Sound;
    assert Lead(nodes, y, []) == TableAt(y);
    if p != [] {
      var k := p[0];
      CheckTab(nodes, y, k);
      if Check(nodes[y], k).FoundTab? {
        var id := Check(nodes[y], k).id;
        forall r
          ensures Lead(nodes, id, r) != TableAt(x)
        {
          LeadCons(nodes, y, k, r);
        }
        FrameSeen(nodes, nodes', id, x, p[1..]);
      }
    }
  }

  /** A key has been added to table `t`: others see what they saw. */
  lemma {:induction false} OtherKeySeen(nodes: seq<Node>, nodes': seq<Node>, t: nat, k: string, p: seq<string>)
    requires Sound(nodes) && IsTable(nodes, t) && OnlyAt(nodes, nodes', t) && IsTable(nodes', t)
    requires nodes'[t].implicit == nodes[t].implicit && nodes'[t].readonly == nodes[t].readonly
    requires p != [] ==> p[0] != k && Check(nodes'[t], p[0]) == Check(nodes[t], p[0])
    ensures Seen(nodes', t, p) == Seen(nodes, t, p)
  {
    hide Check, Sound;
    if p != [] {
      CheckTab(nodes, t, p[0]);
      if Check(nodes[t], p[0]).FoundTab? {
        var id := Check(nodes[t], p[0]).id;
        AvoidsSmaller(nodes, id, t);
        FrameSeen(nodes, nodes', id, t, p[1..]);
      }
    }
  }

  // ----- What building an entry changes -----

  /** Of keys `p` after an entry was built under the keys `q`, which led to nothing: tables
      now stand along the way, and something closed to others at its end; what other keys
      see is as it was. */
  predicate SeenThen(was: Sight, now: Sight, p: seq<string>, q: seq<string>) {
    if p == q then now == Leaf || now == Branch(false, true)
    else if p <= q then now == if was == Nothing then Branch(false, false) else was
    else q <= p || now == was
  }

  ghost predicate Effect(nodes: seq<Node>, nodes': seq<Node>, t: nat, q: seq<string>) {
    forall p :: SeenThen(Seen(nodes, t, p), Seen(nodes', t, p), p, q)
  }

  /** The last table the keys lead through. */
  function Deepest(nodes: seq<Node>, t: nat, q: seq<string>): nat
    decreases q
  {
    if IsTable(nodes, t) && q != [] && Check(nodes[t], q[0]).FoundTab? then Deepest(nodes, Check(nodes[t], q[0]).id, q[1..]) else t
  }

  lemma {:induction false} DeepestLead(nodes: seq<Node>, t: nat, q: seq<string>) returns (p: seq<string>)
    requires Sound(nodes) && IsTable(nodes, t)
    ensures Lead(nodes, t, p) == TableAt(Deepest(nodes, t, q))
    decreases q
  {
    hide Check, Sound;
    p := [];
    if q != [] && Check(nodes[t], q[0]).FoundTab? {
      CheckTab(nodes, t, q[0]);
      var r := DeepestLead(nodes, Check(nodes[t], q[0]).id, q[1..]);
      LeadCons(nodes, t, q[0], r);
      p := [q[0]] + r;
    }
  }

  lemma KeysOf(e: Entry)
    ensures PathOf(e) != [] && PathOf(e)[0] == e.key && PathOf(e)[1..] == if e.Under? then PathOf(e.rest) else []
    ensures PathOf(e) == [e.key] + PathOf(e)[1..]
  {
  }

  lemma {:induction false} FlagsKept(nodes: seq<Node>, t: nat, e: Entry)
    requires Sound(nodes) && IsTable(nodes, t) && BuildEntry(nodes, t, e).Some?
    ensures var nodes' := BuildEntry(nodes, t, e).value;
            IsTable(nodes', t) && nodes'[t].implicit == nodes[t].implicit && nodes'[t].readonly == nodes[t].readonly
  {
    hide Sound, Extends, HoldsEntry, HoldsItems, HoldsEntries, BuildItems, BuildInline, Check, Find;
    EntryBuilt(nodes, t, e);
    CheckTab(nodes, t, e.key);
    match e
    case Under(k, rest) =>
      if Find(nodes[t].tabs, k).Some? {
        EntryBuilt(nodes, Find(nodes[t].tabs, k).value, rest);
      } else {
        TableAdded(nodes, t, k, false);
        var m := AddTable(nodes, t, k, false).value;
        EntryBuilt(m.nodes, m.id, rest);
      }
    case Set(k, Text(_)) =>
    case Set(k, List(xs)) =>
      ArrayAdded(nodes, t, k);
      var m := AddArray(nodes, t, k).value;
      ItemsBuilt(m.nodes, m.id, xs);
    case Set(k, Inline(es)) =>
      TableAdded(nodes, t, k, false);
      var m := AddTable(nodes, t, k, false).value;
      InlineBuilt(m.nodes, m.id, es);
  }

  lemma {:induction false} AllFlagsKept(nodes: seq<Node>, t: nat, es: seq<Entry>)
    requires Sound(nodes) && IsTable(nodes, t) && BuildEntries(nodes, t, es).Some?
    ensures var nodes' := BuildEntries(nodes, t, es).value;
            IsTable(nodes', t) && nodes'[t].implicit == nodes[t].implicit && nodes'[t].readonly == nodes[t].readonly
    decreases es
  {
    hide Sound, Extends, HoldsEntry, BuildEntry;
    if es != [] {
      EntryBuilt(nodes, t, es[0]);
      FlagsKept(nodes, t, es[0]);
      AllFlagsKept(BuildEntry(nodes, t, es[0]).value, t, es[1..]);
    }
  }

  lemma {:induction false} InlineFlags(nodes: seq<Node>, t: nat, es: seq<Entry>)
    requires Sound(nodes) && IsTable(nodes, t) && BuildInline(nodes, t, es).Some?
    ensures var nodes' := BuildInline(nodes, t, es).value;
            IsTable(nodes', t) && nodes'[t].implicit == nodes[t].implicit && nodes'[t].readonly
  {
    hide BuildEntries;
    AllFlagsKept(nodes, t, es);
  }

  /** Something was put under key `k` of table `t`, which had nothing there. */
  ghost predicate KeyPut(nodes: seq<Node>, nodes': seq<Node>, t: nat, k: string) {
    && IsTable(nodes, t) && IsTable(nodes', t) && OnlyAt(nodes, nodes', t)
    && nodes'[t].implicit == nodes[t].implicit && nodes'[t].readonly == nodes[t].readonly
    && Check(nodes[t], k) == NoKey && forall k' | k' != k :: Check(nodes'[t], k') == Check(nodes[t], k')
  }

  /** Keys that do not start with `k` see what they saw; the others saw nothing. */
  lemma KeyPutSeen(nodes: seq<Node>, nodes': seq<Node>, t: nat, k: string, p: seq<string>)
    requires Sound(nodes) && KeyPut(nodes, nodes', t, k)
    ensures p == [] || p[0] != k ==> Seen(nodes', t, p) == Seen(nodes, t, p)
    ensures p != [] && p[0] == k ==> Seen(nodes, t, p) == Nothing && Seen(nodes', t, p) == SightOf(nodes', Onward(nodes', Check(nodes'[t], k), p[1..]))
  {
    hide Check, Sound;
    if p == [] || p[0] != k {
      OtherKeySeen(nodes, nodes', t, k, p);
    } else {
      assert p == [k] + p[1..];
      LeadCons(nodes', t, k, p[1..]);
    }
  }

  lemma ValuePut(nodes: seq<Node>, t: nat, k: string, text: string)
    requires Sound(nodes) && IsTable(nodes, t) && AddValue(nodes, t, k, text).Some?
    ensures var nodes' := AddValue(nodes, t, k, text).value;
            KeyPut(nodes, nodes', t, k) && Check(nodes'[t], k).FoundVal?
  {
    var e := Named(k, text);
    forall k'
      ensures var s := nodes[t].kvals + [e];
              Find(s, k') == if Find(nodes[t].kvals, k').Some? then Find(nodes[t].kvals, k') else if k == k' then Some(text) else None
    {
      SnocKeys(nodes[t].kvals, e, k');
    }
    hide Find;
  }

  lemma ArrayPut(nodes: seq<Node>, t: nat, k: string)
    requires Sound(nodes) && IsTable(nodes, t) && AddArray(nodes, t, k).Some?
    ensures var m := AddArray(nodes, t, k).value;
            m.id == |nodes| && KeyPut(nodes, m.nodes, t, k) && Check(m.nodes[t], k) == FoundArr(m.id)
  {
    ArrayAdded(nodes, t, k);
    var e: Named<nat> := Named(k, |nodes|);
    forall k'
      ensures var s := nodes[t].arrs + [e];
              Find(s, k') == if Find(nodes[t].arrs, k').Some? then Find(nodes[t].arrs, k') else if k == k' then Some(|nodes|) else None
    {
      SnocKeys(nodes[t].arrs, e, k');
    }
    hide Find, Sound, Grown;
  }

  /** A table of its own, empty, open and as implicit as it is asked to be. */
  ghost predicate Blank(nodes: seq<Node>, t: nat, implicit: bool) {
    IsTable(nodes, t) && nodes[t] == EMPTY_TABLE.(implicit := implicit)
  }

  lemma TablePut(nodes: seq<Node>, t: nat, k: string, implicit: bool)
    requires Sound(nodes) && IsTable(nodes, t) && Check(nodes[t], k) == NoKey
    ensures AddTable(nodes, t, k, implicit).Some?
    ensures var m := AddTable(nodes, t, k, implicit).value;
            m.id == |nodes| && KeyPut(nodes, m.nodes, t, k) && Check(m.nodes[t], k) == FoundTab(m.id) && Blank(m.nodes, m.id, implicit)
  {
    NewTableAdded(nodes, t, k, implicit);
    var e: Named<nat> := Named(k, |nodes|);
    forall k'
      ensures var s := nodes[t].tabs + [e];
              Find(s, k') == if Find(nodes[t].tabs, k').Some? then Find(nodes[t].tabs, k') else if k == k' then Some(|nodes|) else None
    {
      SnocKeys(nodes[t].tabs, e, k');
    }
    hide Find, Sound, Grown;
  }

  /** What is built in new nodes leaves the key put. */
  lemma PutStays(nodes: seq<Node>, nodes1: seq<Node>, nodes': seq<Node>, t: nat, k: string)
    requires KeyPut(nodes, nodes1, t, k) && Grown(nodes1, nodes', |nodes|)
    ensures KeyPut(nodes, nodes', t, k) && nodes'[t] == nodes1[t]
  {
    hide Check, Sound, Extends;
  }

  lemma BlankSees(nodes: seq<Node>, t: nat, implicit: bool, p: seq<string>)
    requires Blank(nodes, t, implicit)
    ensures Lead(nodes, t, p) == if p == [] then TableAt(t) else Free
    ensures Seen(nodes, t, p) == if p == [] then Branch(implicit, false) else Nothing
  {
  }

  lemma {:induction false} EntryEffect(nodes: seq<Node>, t: nat, e: Entry)
    requires Sound(nodes) && IsTable(nodes, t) && BuildEntry(nodes, t, e).Some? && Lead(nodes, t, PathOf(e)).Free?
    ensures var nodes' := BuildEntry(nodes, t, e).value;
            Effect(nodes, nodes', t, PathOf(e)) && OnlyAt(nodes, nodes', Deepest(nodes, t, PathOf(e)))
    decreases e
  {
    hide Sound, Grown, Check, Find, BuildItems, BuildInline, HoldsEntry, HoldsItems, HoldsEntries, KeyPut, Effect;
    var nodes' := BuildEntry(nodes, t, e).value;
    KeysOf(e);
    CheckTab(nodes, t, e.key);
    LeadCons(nodes, t, e.key, PathOf(e)[1..]);
    match e
    case Under(k, rest) =>
      if Find(nodes[t].tabs, k).Some? {
        EntryEffect(nodes, Find(nodes[t].tabs, k).value, rest);
        DeeperEffect(nodes, t, k, rest);
      } else {
        NewTableReady(nodes, t, k, rest);
        var m := AddTable(nodes, t, k, false).value;
        EntryEffect(m.nodes, m.id, rest);
        NewTableEffect(nodes, t, k, rest);
      }
    case Set(k, v) => SetEffect(nodes, t, k, v);
  }

  lemma SetEffect(nodes: seq<Node>, t: nat, k: string, v: Value)
    requires Sound(nodes) && IsTable(nodes, t) && BuildEntry(nodes, t, Set(k, v)).Some? && Check(nodes[t], k) == NoKey
    ensures var nodes' := BuildEntry(nodes, t, Set(k, v)).value;
            Effect(nodes, nodes', t, [k]) && OnlyAt(nodes, nodes', Deepest(nodes, t, [k]))
  {
    hide Sound, Grown, Check, Find, BuildItems, BuildInline, HoldsEntry, HoldsItems, HoldsEntries, KeyPut, Effect;
    var nodes' := BuildEntry(nodes, t, Set(k, v)).value;
    match v {
      case Text(text) => ValuePut(nodes, t, k, text);
      case List(xs) =>
        ArrayPut(nodes, t, k);
        ArrayAdded(nodes, t, k);
        GrownSound(nodes, AddArray(nodes, t, k).value.nodes, t);
        var m := AddArray(nodes, t, k).value;
        ItemsBuilt(m.nodes, m.id, xs);
        PutStays(nodes, m.nodes, nodes', t, k);
      case Inline(es) =>
        TablePut(nodes, t, k, false);
        TableAdded(nodes, t, k, false);
        GrownSound(nodes, AddTable(nodes, t, k, false).value.nodes, t);
        var m := AddTable(nodes, t, k, false).value;
        InlineBuilt(m.nodes, m.id, es);
        InlineFlags(m.nodes, m.id, es);
        PutStays(nodes, m.nodes, nodes', t, k);
    }
    PutEffect(nodes, nodes', t, k);
  }

  lemma GrownSound(nodes: seq<Node>, nodes': seq<Node>, i: nat)
    requires Grown(nodes, nodes', i)
    ensures Sound(nodes')
  {
  }

  lemma PutEffect(nodes: seq<Node>, nodes': seq<Node>, t: nat, k: string)
    requires Sound(nodes) && KeyPut(nodes, nodes', t, k)
    requires var f := Check(nodes'[t], k);
             f.FoundVal? || f.FoundArr? || (f.FoundTab? && IsTable(nodes', f.id) && nodes'[f.id].readonly && !nodes'[f.id].implicit)
    ensures Effect(nodes, nodes', t, [k]) && OnlyAt(nodes, nodes', Deepest(nodes, t, [k]))
  {
    hide Check, Sound, Seen;
    forall p
      ensures SeenThen(Seen(nodes, t, p), Seen(nodes', t, p), p, [k])
    {
      KeyPutSeen(nodes, nodes', t, k, p);
      RootSeen(nodes, t);
      if p == [k] {
        assert p[1..] == [];
      } else if p != [] && p[0] == k {
        assert [k] <= p;
      }
    }
  }

  lemma RootSeen(nodes: seq<Node>, t: nat)
    requires IsTable(nodes, t)
    ensures Seen(nodes, t, []) == Branch(nodes[t].implicit, nodes[t].readonly)
  {
  }

  lemma ThenShifted(was: Sight, now: Sight, k: string, r: seq<string>, q: seq<string>)
    requires SeenThen(was, now, r, q)
    ensures SeenThen(was, now, [k] + r, [k] + q)
  {
    assert ([k] + r)[1..] == r && ([k] + q)[1..] == q;
  }

  lemma NewTableReady(nodes: seq<Node>, t: nat, k: string, rest: Entry)
    requires Sound(nodes) && IsTable(nodes, t) && Check(nodes[t], k) == NoKey
    ensures AddTable(nodes, t, k, false).Some?
    ensures var m := AddTable(nodes, t, k, false).value;
            && Sound(m.nodes) && IsTable(m.nodes, m.id) && Blank(m.nodes, m.id, false) && m.id == |nodes|
            && KeyPut(nodes, m.nodes, t, k) && Check(m.nodes[t], k) == FoundTab(m.id) && Lead(m.nodes, m.id, PathOf(rest)).Free?
  {
    hide KeyPut, AddTable, Check, Find;
    TablePut(nodes, t, k, false);
    TableAdded(nodes, t, k, false);
    var m := AddTable(nodes, t, k, false).value;
    BlankSees(m.nodes, m.id, false, PathOf(rest));
    KeysOf(rest);
  }

  lemma NewTableEffect(nodes: seq<Node>, t: nat, k: string, rest: Entry)
    requires Sound(nodes) && IsTable(nodes, t) && Check(nodes[t], k) == NoKey && AddTable(nodes, t, k, false).Some?
    requires var m := AddTable(nodes, t, k, false).value;
             && BuildEntry(m.nodes, m.id, rest).Some? && Effect(m.nodes, BuildEntry(m.nodes, m.id, rest).value, m.id, PathOf(rest))
    ensures var m := AddTable(nodes, t, k, false).value;
            var nodes', q := BuildEntry(m.nodes, m.id, rest).value, [k] + PathOf(rest);
            Effect(nodes, nodes', t, q) && OnlyAt(nodes, nodes', Deepest(nodes, t, q))
  {
    hide KeyPut, AddTable, Check, Find, Sound, BuildEntry, Seen, SeenThen, PathOf;
    var m := AddTable(nodes, t, k, false).value;
    var nodes', q' := BuildEntry(m.nodes, m.id, rest).value, PathOf(rest);
    NewTableReady(nodes, t, k, rest);
    EntryBuilt(m.nodes, m.id, rest);
    PutStays(nodes, m.nodes, nodes', t, k);
    KeyPutAt(nodes, nodes', t, k);
    KeysOf(rest);
    forall p
      ensures SeenThen(Seen(nodes, t, p), Seen(nodes', t, p), p, [k] + q')
    {
      KeyPutSeen(nodes, nodes', t, k, p);
      if p == [] || p[0] != k {
        OtherKeyThen(nodes, t, Seen(nodes', t, p), k, p, q');
      } else {
        var r := p[1..];
        assert p == [k] + r;
        BlankSees(m.nodes, m.id, false, r);
        assert SeenThen(Seen(m.nodes, m.id, r), Seen(nodes', m.id, r), r, q');
        SeenIs(nodes', m.id, r);
        if r == [] {
          assert p == [k];
          FirstKeyThen(Seen(nodes', m.id, r), k, q');
        } else {
          ThenShifted(Nothing, Seen(nodes', m.id, r), k, r, q');
        }
      }
    }
  }

  lemma KeyPutAt(nodes: seq<Node>, nodes': seq<Node>, t: nat, k: string)
    requires KeyPut(nodes, nodes', t, k)
    ensures OnlyAt(nodes, nodes', t) && IsTable(nodes', t)
  {
  }

  lemma SeenIs(nodes: seq<Node>, t: nat, p: seq<string>)
    ensures Seen(nodes, t, p) == SightOf(nodes, Lead(nodes, t, p))
  {
  }

  lemma OtherKeyThen(nodes: seq<Node>, t: nat, now: Sight, k: string, p: seq<string>, q: seq<string>)
    requires IsTable(nodes, t) && (p == [] || p[0] != k) && now == Seen(nodes, t, p)
    ensures SeenThen(Seen(nodes, t, p), now, p, [k] + q)
  {
    RootSeen(nodes, t);
  }

  lemma FirstKeyThen(now: Sight, k: string, q: seq<string>)
    requires q != [] && SeenThen(Branch(false, false), now, [], q)
    ensures SeenThen(Nothing, now, [k], [k] + q)
  {
  }

  lemma DeeperEffect(nodes: seq<Node>, t: nat, k: string, rest: Entry)
    requires Sound(nodes) && IsTable(nodes, t) && Check(nodes[t], k).FoundTab? && BuildEntry(nodes, Check(nodes[t], k).id, rest).Some?
    requires var id, nodes' := Check(nodes[t], k).id, BuildEntry(nodes, Check(nodes[t], k).id, rest).value;
             IsTable(nodes, id) && Effect(nodes, nodes', id, PathOf(rest)) && OnlyAt(nodes, nodes', Deepest(nodes, id, PathOf(rest)))
    ensures var nodes' := BuildEntry(nodes, Check(nodes[t], k).id, rest).value; var q := [k] + PathOf(rest);
            Effect(nodes, nodes', t, q) && OnlyAt(nodes, nodes', Deepest(nodes, t, q))
  {
    hide Check, Find, Sound, BuildEntry, Seen, SeenThen, PathOf, Extends;
    var id := Check(nodes[t], k).id;
    var nodes', q' := BuildEntry(nodes, id, rest).value, PathOf(rest);
    CheckTab(nodes, t, k);
    EntryBuilt(nodes, id, rest);
    assert nodes'[t] == nodes[t];
    assert ([k] + q')[1..] == q';
    forall p
      ensures SeenThen(Seen(nodes, t, p), Seen(nodes', t, p), p, [k] + q')
    {
      if p != [] && p[0] == k {
        var r := p[1..];
        assert p == [k] + r;
        LeadCons(nodes, t, k, r);
        LeadCons(nodes', t, k, r);
        SeenIs(nodes, id, r);
        SeenIs(nodes', id, r);
        SeenIs(nodes, t, p);
        SeenIs(nodes', t, p);
        assert SeenThen(Seen(nodes, id, r), Seen(nodes', id, r), r, q');
        ThenShifted(Seen(nodes, id, r), Seen(nodes', id, r), k, r, q');
      } else {
        SiblingSeen(nodes, nodes', t, k, q', p);
        OtherKeyThen(nodes, t, Seen(nodes', t, p), k, p, q');
      }
    }
  }

  /** A change below key `k` is not seen under another one. */
  lemma SiblingSeen(nodes: seq<Node>, nodes': seq<Node>, t: nat, k: string, q: seq<string>, p: seq<string>)
    requires Sound(nodes) && IsTable(nodes, t) && Check(nodes[t], k).FoundTab? && (p == [] || p[0] != k)
    requires OnlyAt(nodes, nodes', Deepest(nodes, Check(nodes[t], k).id, q)) && t < |nodes'| && nodes'[t] == nodes[t]
    ensures Seen(nodes', t, p) == Seen(nodes, t, p)
  {
    hide Check, Sound;
    if p != [] && Check(nodes[t], p[0]).FoundTab? {
      CheckTab(nodes, t, k);
      CheckTab(nodes, t, p[0]);
      var id := Check(nodes[t], k).id;
      var r := DeepestLead(nodes, id, q);
      AvoidsSibling(nodes, t, k, p[0], r);
      FrameSeen(nodes, nodes', Check(nodes[t], p[0]).id, Deepest(nodes, id, q), p[1..]);
    }
  }

  // ----- The law for one entry -----

  /** Whether an entry suits keys that lead nowhere is a matter of spelling. */
  lemma {:induction false} SuitsFree(nodes: seq<Node>, e: Entry)
    ensures Suits(nodes, Free, e) <==> EntryOk(e)
    ensures !Suits(nodes, Taken, e)
  {
    if e.Under? {
      SuitsFree(nodes, e.rest);
    }
  }

  lemma {:induction false} SuitsExplicit(nodes: seq<Node>, id: nat, e: Entry)
    requires !(IsTable(nodes, id) && nodes[id].implicit)
    ensures !Suits(nodes, TableAt(id), e)
  {
    if e.Under? {
      SuitsExplicit(nodes, id, e.rest);
    }
  }

  lemma BlankWay(nodes: seq<Node>, t: nat, implicit: bool, e: Entry)
    requires Blank(nodes, t, implicit)
    ensures Way(nodes, t, PathOf(e)) && Lead(nodes, t, PathOf(e)) == Free
  {
    KeysOf(e);
    BlankSees(nodes, t, implicit, PathOf(e));
    forall i | 0 <= i < |PathOf(e)|
      ensures IsOpen(nodes, Lead(nodes, t, PathOf(e)[..i]))
    {
      BlankSees(nodes, t, implicit, PathOf(e)[..i]);
    }
  }

  /** An entry is built if and only if it is accepted. */
  lemma {:induction false} EntryAccepted(nodes: seq<Node>, t: nat, e: Entry)
    requires Sound(nodes) && IsTable(nodes, t)
    ensures BuildEntry(nodes, t, e).Some? <==> Accepts(nodes, t, e)
    decreases e, 1
  {
    hide Sound, Check, BuildEntry, Accepts, AddTable, BuildUnder, UnderSuits, Blank, EntryOk, KeyPut, Lead, PathOf;
    match e
    case Under(k, rest) =>
      KeysOf(rest);
      CheckTab(nodes, t, k);
      UnderTurn(nodes, t, k, rest);
      UnderCases(nodes, t, k, rest);
      if Check(nodes[t], k).FoundTab? {
        EntryAccepted(nodes, Check(nodes[t], k).id, rest);
      } else if Check(nodes[t], k).NoKey? {
        NewTableReady(nodes, t, k, rest);
        var m := AddTable(nodes, t, k, false).value;
        EntryAccepted(m.nodes, m.id, rest);
        BlankAccepts(m.nodes, m.id, rest);
      }
    case Set(k, v) => SetAccepted(nodes, t, k, v);
  }

  lemma BlankAccepts(nodes: seq<Node>, t: nat, e: Entry)
    requires Blank(nodes, t, false)
    ensures Accepts(nodes, t, e) <==> EntryOk(e)
  {
    hide Suits, Lead, Way, EntryOk;
    BlankWay(nodes, t, false, e);
    SuitsFree(nodes, e);
  }

  function BuildUnder(nodes: seq<Node>, t: nat, k: string, rest: Entry): Option<seq<Node>>
    requires IsTable(nodes, t)
  {
    match Check(nodes[t], k)
    case FoundTab(id) => BuildEntry(nodes, id, rest)
    case NoKey =>
      var m := AddTable(nodes, t, k, false);
      if m.Some? then BuildEntry(m.value.nodes, m.value.id, rest) else None
    case _ => None
  }

  predicate UnderSuits(nodes: seq<Node>, f: Found, rest: Entry) {
    match f
    case FoundTab(id) => Accepts(nodes, id, rest)
    case NoKey => EntryOk(rest)
    case _ => false
  }

  lemma UnderTurn(nodes: seq<Node>, t: nat, k: string, rest: Entry)
    requires Sound(nodes) && IsTable(nodes, t)
    ensures BuildEntry(nodes, t, Under(k, rest)).Some? <==> !nodes[t].readonly && BuildUnder(nodes, t, k, rest).Some?
    ensures Accepts(nodes, t, Under(k, rest)) <==> !nodes[t].readonly && UnderSuits(nodes, Check(nodes[t], k), rest)
  {
    hide Suits, Lead, Way, EntryOk, Check, Find, Sound;
    KeysOf(rest);
    CheckTab(nodes, t, k);
    WayCons(nodes, t, k, PathOf(rest));
    LeadCons(nodes, t, k, PathOf(rest));
    SuitsFree(nodes, rest);
    SuitsUnder(nodes, Lead(nodes, t, [k] + PathOf(rest)), k, rest);
    hide PathOf;
  }

  lemma UnderCases(nodes: seq<Node>, t: nat, k: string, rest: Entry)
    requires IsTable(nodes, t)
    ensures var f := Check(nodes[t], k);
            && (f.FoundTab? ==> BuildUnder(nodes, t, k, rest) == BuildEntry(nodes, f.id, rest))
            && (f.FoundTab? ==> (UnderSuits(nodes, f, rest) <==> Accepts(nodes, f.id, rest)))
            && (f.NoKey? && AddTable(nodes, t, k, false).Some? ==>
                  var m := AddTable(nodes, t, k, false).value; BuildUnder(nodes, t, k, rest) == BuildEntry(m.nodes, m.id, rest))
            && (f.NoKey? ==> (UnderSuits(nodes, f, rest) <==> EntryOk(rest)))
            && (f.FoundVal? || f.FoundArr? ==> BuildUnder(nodes, t, k, rest).None? && !UnderSuits(nodes, f, rest))
  {
    hide Check, AddTable, BuildEntry, Accepts, EntryOk;
  }

  lemma SuitsUnder(nodes: seq<Node>, pl: Place, k: string, rest: Entry)
    ensures Suits(nodes, pl, Under(k, rest)) <==> Suits(nodes, pl, rest)
  {
  }

  lemma {:induction false} SetAccepted(nodes: seq<Node>, t: nat, k: string, v: Value)
    requires Sound(nodes) && IsTable(nodes, t)
    ensures BuildEntry(nodes, t, Set(k, v)).Some? <==> Accepts(nodes, t, Set(k, v))
    decreases v, 0
  {
    hide Accepts, AcceptsAll, EntriesOk, Check, BuildEntry, BuildItems, BuildInline, BuildEntries, Sound, AddArray, AddTable;
    SetTurn(nodes, t, k, v);
    match v
    case Text(_) =>
    case List(xs) =>
      if Check(nodes[t], k).NoKey? {
        ArrayReady(nodes, t, k);
        var m := AddArray(nodes, t, k).value;
        ItemsAccepted(m.nodes, m.id, xs);
      }
    case Inline(es) =>
      if Check(nodes[t], k).NoKey? {
        NewTableReady(nodes, t, k, Set(k, v));
        var m := AddTable(nodes, t, k, false).value;
        InlineAccepted(m.nodes, m.id, es);
      } else if Check(nodes[t], k).FoundTab? {
        CheckTab(nodes, t, k);
        var id := Check(nodes[t], k).id;
        if nodes[id].implicit {
          MadeExplicit(nodes, t, k);
          var nodes1 := nodes[id := nodes[id].(implicit := false)];
          AllAccepted(nodes1, id, es);
          InlineIff(nodes1, id, es);
        }
      }
  }

  lemma ArrayReady(nodes: seq<Node>, t: nat, k: string)
    requires Sound(nodes) && IsTable(nodes, t) && Check(nodes[t], k).NoKey?
    ensures AddArray(nodes, t, k).Some?
    ensures var m := AddArray(nodes, t, k).value; Sound(m.nodes) && IsArray(m.nodes, m.id)
  {
    assert AddArray(nodes, t, k).Some?;
    hide Sound;
    ArrayAdded(nodes, t, k);
  }

  lemma MadeExplicit(nodes: seq<Node>, t: nat, k: string)
    requires Sound(nodes) && IsTable(nodes, t) && Check(nodes[t], k).FoundTab?
    requires var id := Check(nodes[t], k).id; IsTable(nodes, id) && nodes[id].implicit
    ensures var id := Check(nodes[t], k).id; var nodes1 := nodes[id := nodes[id].(implicit := false)];
            AddTable(nodes, t, k, false) == Some(Made(nodes1, id)) && Sound(nodes1) && IsTable(nodes1, id)
  {
    var id := Check(nodes[t], k).id;
    assert Changed(nodes, id, nodes[id].(implicit := false), []) == nodes[id := nodes[id].(implicit := false)];
    TableAdded(nodes, t, k, false);
    hide Sound, Check;
  }

  lemma SetTurn(nodes: seq<Node>, t: nat, k: string, v: Value)
    requires Sound(nodes) && IsTable(nodes, t)
    ensures var f, e := Check(nodes[t], k), Set(k, v);
            && (BuildEntry(nodes, t, e).Some? <==> !nodes[t].readonly && SetBuilds(nodes, t, k, v))
            && (Accepts(nodes, t, e) <==> !nodes[t].readonly && SetSuits(nodes, f, v))
            && (f.FoundVal? || f.FoundArr? ==> AddTable(nodes, t, k, false).None?)
            && (f.FoundTab? && !(IsTable(nodes, f.id) && nodes[f.id].implicit) ==> AddTable(nodes, t, k, false).None?)
  {
    hide Lead, Way, AcceptsAll, ValueOk, Check, BuildItems, BuildInline, Sound;
    CheckTab(nodes, t, k);
    WayCons(nodes, t, k, []);
    LeadCons(nodes, t, k, []);
    assert [k] + [] == [k];
    if Check(nodes[t], k).FoundTab? {
      LeadCons(nodes, Check(nodes[t], k).id, k, []);
    }
  }

  predicate SetBuilds(nodes: seq<Node>, t: nat, k: string, v: Value)
    requires IsTable(nodes, t)
  {
    match v
    case Text(_) => Check(nodes[t], k).NoKey?
    case List(xs) =>
      var m := AddArray(nodes, t, k);
      Check(nodes[t], k).NoKey? && m.Some? && BuildItems(m.value.nodes, m.value.id, xs).Some?
    case Inline(es) =>
      var m := AddTable(nodes, t, k, false);
      m.Some? && BuildInline(m.value.nodes, m.value.id, es).Some?
  }

  predicate SetSuits(nodes: seq<Node>, f: Found, v: Value) {
    match f
    case NoKey => ValueOk(v)
    case FoundTab(id) =>
      && v.Inline? && IsTable(nodes, id) && nodes[id].implicit
      && AcceptsAll(nodes[id := nodes[id].(implicit := false)], id, v.entries)
    case _ => false
  }

  lemma {:induction false} AllAccepted(nodes: seq<Node>, t: nat, es: seq<Entry>)
    requires Sound(nodes) && IsTable(nodes, t)
    ensures BuildEntries(nodes, t, es).Some? <==> AcceptsAll(nodes, t, es)
    decreases es, 0
  {
    hide Sound, BuildEntry, Accepts;
    if es != [] {
      EntryAccepted(nodes, t, es[0]);
      if BuildEntry(nodes, t, es[0]).Some? {
        EntryBuilt(nodes, t, es[0]);
        AllAccepted(BuildEntry(nodes, t, es[0]).value, t, es[1..]);
      }
    }
  }

  lemma InlineIff(nodes: seq<Node>, t: nat, es: seq<Entry>)
    requires Sound(nodes) && IsTable(nodes, t)
    ensures BuildInline(nodes, t, es).Some? <==> BuildEntries(nodes, t, es).Some?
  {
    hide BuildEntries;
    if BuildEntries(nodes, t, es).Some? {
      AllFlagsKept(nodes, t, es);
    }
  }

  lemma {:induction false} InlineAccepted(nodes: seq<Node>, t: nat, es: seq<Entry>)
    requires Sound(nodes) && Blank(nodes, t, false)
    ensures BuildInline(nodes, t, es).Some? <==> EntriesOk(es)
    decreases es, 1
  {
    hide BuildEntries, BuildInline, EntriesOk, Sound;
    InlineIff(nodes, t, es);
    EntriesFresh(nodes, t, es);
  }

  lemma {:induction false} ItemsAccepted(nodes: seq<Node>, a: nat, xs: seq<Value>)
    requires Sound(nodes) && IsArray(nodes, a)
    ensures BuildItems(nodes, a, xs).Some? <==> forall i | 0 <= i < |xs| :: ValueOk(xs[i])
    decreases xs, 1
  {
    hide Sound, BuildItem, ValueOk;
    if xs != [] {
      ItemAccepted(nodes, a, xs[0]);
      if BuildItem(nodes, a, xs[0]).Some? {
        ItemBuilt(nodes, a, xs[0]);
        ItemsAccepted(BuildItem(nodes, a, xs[0]).value, a, xs[1..]);
        assert forall i | 0 <= i < |xs| :: xs[i] == if i == 0 then xs[0] else xs[1..][i - 1];
      }
    }
  }

  lemma {:induction false} ItemAccepted(nodes: seq<Node>, a: nat, x: Value)
    requires Sound(nodes) && IsArray(nodes, a)
    ensures BuildItem(nodes, a, x).Some? <==> ValueOk(x)
    decreases x, 1
  {
    hide Sound, BuildItems, BuildInline, EntriesOk, Join, Tag, Extends;
    match x
    case Text(_) =>
    case List(xs) =>
      ItemAppended(nodes, a, Arr(|nodes|), [EMPTY_ARRAY]);
      ItemsAccepted(Appended(nodes, a, Arr(|nodes|), [EMPTY_ARRAY]), |nodes|, xs);
    case Inline(es) =>
      ItemAppended(nodes, a, Tab(|nodes|), [EMPTY_TABLE]);
      InlineAccepted(Appended(nodes, a, Tab(|nodes|), [EMPTY_TABLE]), |nodes|, es);
  }

  // ----- Entries of a new table -----

  /** What keys see in a new table that got these entries. */
  predicate Claim(s: Sight, es: seq<Entry>, p: seq<string>) {
    && (forall i | 0 <= i < |es| && PathOf(es[i]) == p :: s == Leaf || s == Branch(false, true))
    && (forall i | 0 <= i < |es| && p <= PathOf(es[i]) && p != PathOf(es[i]) :: s == Branch(false, false))
    && ((forall i | 0 <= i < |es| :: !(PathOf(es[i]) <= p) && !(p <= PathOf(es[i]))) ==> s == Nothing)
  }

  ghost predicate Filled(nodes: seq<Node>, t: nat, es: seq<Entry>) {
    && Sound(nodes) && IsTable(nodes, t) && Seen(nodes, t, []) == Branch(false, false)
    && forall p | p != [] :: Claim(Seen(nodes, t, p), es, p)
  }

  /** No entry's keys begin those of `e`, or the other way round. */
  predicate Apart(es: seq<Entry>, e: Entry) {
    forall i | 0 <= i < |es| :: !(PathOf(es[i]) <= PathOf(e)) && !(PathOf(e) <= PathOf(es[i]))
  }

  lemma EntriesOkSnoc(es: seq<Entry>, e: Entry)
    ensures EntriesOk(es + [e]) <==> EntriesOk(es) && EntryOk(e) && Apart(es, e)
  {
    hide EntryOk, PathOf;
    var fs := es + [e];
    assert fs[|es|] == e && forall i | 0 <= i < |es| :: fs[i] == es[i];
    if EntriesOk(fs) {
      assert EntryOk(fs[|es|]);
      forall i | 0 <= i < |es|
        ensures EntryOk(es[i]) && !(PathOf(es[i]) <= PathOf(e)) && !(PathOf(e) <= PathOf(es[i]))
      {
        assert EntryOk(fs[i]) && !(PathOf(fs[i]) <= PathOf(fs[|es|])) && !(PathOf(fs[|es|]) <= PathOf(fs[i]));
      }
      forall i, j | 0 <= i < |es| && 0 <= j < |es| && i != j
        ensures !(PathOf(es[i]) <= PathOf(es[j]))
      {
        assert !(PathOf(fs[i]) <= PathOf(fs[j]));
      }
    }
  }

  lemma {:induction false} EntriesSnoc(nodes: seq<Node>, t: nat, es: seq<Entry>, e: Entry)
    ensures BuildEntries(nodes, t, es + [e]) ==
            match BuildEntries(nodes, t, es)
            case None => None
            case Some(nodes1) => BuildEntry(nodes1, t, e)
    decreases es
  {
    hide BuildEntry;
    if es == [] {
      assert (es + [e])[1..] == [];
      assert BuildEntry(nodes, t, e).Some? ==> BuildEntries(BuildEntry(nodes, t, e).value, t, []) == BuildEntry(nodes, t, e);
    } else {
      assert (es + [e])[1..] == es[1..] + [e];
      if BuildEntry(nodes, t, es[0]).Some? {
        EntriesSnoc(BuildEntry(nodes, t, es[0]).value, t, es[1..], e);
      }
    }
  }

  lemma SeenOpen(nodes: seq<Node>, t: nat, p: seq<string>)
    ensures IsOpen(nodes, Lead(nodes, t, p)) <==> Seen(nodes, t, p) == Nothing || (Seen(nodes, t, p).Branch? && !Seen(nodes, t, p).closed)
  {
    hide Lead;
  }

  lemma SeenSuits(nodes: seq<Node>, t: nat, e: Entry)
    ensures var s, pl := Seen(nodes, t, PathOf(e)), Lead(nodes, t, PathOf(e));
            && (s == Nothing ==> pl.Free? && (Suits(nodes, pl, e) <==> EntryOk(e)))
            && (s == Leaf || (s.Branch? && !s.implicit) ==> !Suits(nodes, pl, e))
  {
    hide Lead, Suits, PathOf, EntryOk;
    SuitsFree(nodes, e);
    var pl := Lead(nodes, t, PathOf(e));
    if pl.TableAt? && !(IsTable(nodes, pl.id) && nodes[pl.id].implicit) {
      SuitsExplicit(nodes, pl.id, e);
    }
  }

  /** In such a table an entry is accepted exactly if its keys are apart from all others. */
  lemma FilledAccepts(nodes: seq<Node>, t: nat, es: seq<Entry>, e: Entry)
    requires Filled(nodes, t, es)
    ensures Accepts(nodes, t, e) <==> EntryOk(e) && Apart(es, e)
    ensures Accepts(nodes, t, e) ==> Lead(nodes, t, PathOf(e)).Free?
  {
    hide Lead, Suits, PathOf, EntryOk, Seen, Sound;
    var q := PathOf(e);
    KeysOf(e);
    SeenSuits(nodes, t, e);
    assert Claim(Seen(nodes, t, q), es, q);
    if Apart(es, e) {
      forall i | 0 <= i < |q|
        ensures IsOpen(nodes, Lead(nodes, t, q[..i]))
      {
        SeenOpen(nodes, t, q[..i]);
        assert q[..i] == [] || Claim(Seen(nodes, t, q[..i]), es, q[..i]);
        ApartOpen(Seen(nodes, t, q[..i]), es, e, i);
      }
      ApartFree(Seen(nodes, t, q), es, e);
    } else {
      var j :| 0 <= j < |es| && (PathOf(es[j]) <= q || q <= PathOf(es[j]));
      var r := PathOf(es[j]);
      if r <= q && r != q {
        KeysOf(es[j]);
        assert q[..|r|] == r && Claim(Seen(nodes, t, r), es, r);
        SeenOpen(nodes, t, q[..|r|]);
      }
    }
  }

  lemma ApartOpen(s: Sight, es: seq<Entry>, e: Entry, i: nat)
    requires i < |PathOf(e)| && Apart(es, e)
    requires if i == 0 then s == Branch(false, false) else Claim(s, es, PathOf(e)[..i])
    ensures s == Nothing || s == Branch(false, false)
  {
    if i > 0 {
      hide PathOf;
      ApartBefore(s, es, e, PathOf(e)[..i]);
    }
  }

  lemma ApartFree(s: Sight, es: seq<Entry>, e: Entry)
    requires Apart(es, e) && Claim(s, es, PathOf(e))
    ensures s == Nothing
  {
    hide PathOf;
  }

  lemma FilledMore(nodes: seq<Node>, nodes': seq<Node>, t: nat, es: seq<Entry>, e: Entry)
    requires Filled(nodes, t, es) && Apart(es, e) && Effect(nodes, nodes', t, PathOf(e)) && Sound(nodes') && IsTable(nodes', t)
    ensures Filled(nodes', t, es + [e])
  {
    hide PathOf, Seen, Sound, Claim, Apart;
    KeysOf(e);
    assert SeenThen(Seen(nodes, t, []), Seen(nodes', t, []), [], PathOf(e));
    forall p | p != []
      ensures Claim(Seen(nodes', t, p), es + [e], p)
    {
      assert SeenThen(Seen(nodes, t, p), Seen(nodes', t, p), p, PathOf(e));
      ClaimMore(Seen(nodes, t, p), Seen(nodes', t, p), es, e, p);
    }
  }

  lemma ClaimMore(was: Sight, now: Sight, es: seq<Entry>, e: Entry, p: seq<string>)
    requires Claim(was, es, p) && SeenThen(was, now, p, PathOf(e)) && Apart(es, e)
    ensures Claim(now, es + [e], p)
  {
    hide PathOf;
    var fs, q := es + [e], PathOf(e);
    assert fs[|es|] == e && forall i | 0 <= i < |es| :: fs[i] == es[i];
    forall i | 0 <= i < |fs| && PathOf(fs[i]) == p
      ensures now == Leaf || now == Branch(false, true)
    {
      if i < |es| {
        assert PathOf(es[i]) == p;
      }
    }
    forall i | 0 <= i < |fs| && p <= PathOf(fs[i]) && p != PathOf(fs[i])
      ensures now == Branch(false, false)
    {
      BetweenClaims(was, now, es, e, p, i);
    }
    if forall i | 0 <= i < |fs| :: !(PathOf(fs[i]) <= p) && !(p <= PathOf(fs[i])) {
      assert !(PathOf(fs[|es|]) <= p) && !(p <= PathOf(fs[|es|]));
      forall i | 0 <= i < |es|
        ensures !(PathOf(es[i]) <= p) && !(p <= PathOf(es[i]))
      {
        assert !(PathOf(fs[i]) <= p) && !(p <= PathOf(fs[i]));
      }
    }
  }

  lemma BetweenClaims(was: Sight, now: Sight, es: seq<Entry>, e: Entry, p: seq<string>, i: nat)
    requires Claim(was, es, p) && SeenThen(was, now, p, PathOf(e)) && Apart(es, e)
    requires i <= |es| && var r := if i < |es| then PathOf(es[i]) else PathOf(e); p <= r && p != r
    ensures now == Branch(false, false)
  {
    hide PathOf;
    var q := PathOf(e);
    if i < |es| {
      var r := PathOf(es[i]);
      assert was == Branch(false, false);
      assert q <= p ==> q <= r;
    } else {
      ApartBefore(was, es, e, p);
    }
  }

  /** What keys see that start those of a new entry, before it is built. */
  lemma ApartBefore(s: Sight, es: seq<Entry>, e: Entry, p: seq<string>)
    requires Claim(s, es, p) && Apart(es, e) && p <= PathOf(e)
    ensures s == Nothing || s == Branch(false, false)
  {
    hide PathOf;
    if forall i | 0 <= i < |es| :: !(p <= PathOf(es[i])) {
      forall i | 0 <= i < |es|
        ensures !(PathOf(es[i]) <= p)
      {
        PrefixOfPrefix(PathOf(es[i]), p, PathOf(e));
      }
    } else {
      var i :| 0 <= i < |es| && p <= PathOf(es[i]);
      PrefixOfPrefix(PathOf(es[i]), p, PathOf(e));
    }
  }

  lemma PrefixOfPrefix(a: seq<string>, b: seq<string>, c: seq<string>)
    ensures a <= b && b <= c ==> a <= c
  {
  }

  /** A new table takes a list of entries if and only if no keys begin others. */
  lemma {:induction false} EntriesFresh(nodes: seq<Node>, t: nat, es: seq<Entry>)
    requires Sound(nodes) && Blank(nodes, t, false)
    ensures BuildEntries(nodes, t, es).Some? <==> EntriesOk(es)
    ensures EntriesOk(es) ==> Filled(BuildEntries(nodes, t, es).value, t, es)
    decreases es, 0
  {
    hide *;
    if es == [] {
      NothingFilled(nodes, t);
    } else {
      var init, e := es[..|es| - 1], es[|es| - 1];
      assert init + [e] == es;
      EntriesFresh(nodes, t, init);
      EntriesOkSnoc(init, e);
      EntriesSnoc(nodes, t, init, e);
      if EntriesOk(init) {
        var nodes1 := BuildEntries(nodes, t, init).value;
        FilledIs(nodes1, t, init);
        EntryAccepted(nodes1, t, e);
        FilledAccepts(nodes1, t, init, e);
        if BuildEntry(nodes1, t, e).Some? {
          EntryBuilt(nodes1, t, e);
          EntryEffect(nodes1, t, e);
          GrownSound(nodes1, BuildEntry(nodes1, t, e).value, t);
          FilledMore(nodes1, BuildEntry(nodes1, t, e).value, t, init, e);
        }
      }
    }
  }

  lemma FilledIs(nodes: seq<Node>, t: nat, es: seq<Entry>)
    requires Filled(nodes, t, es)
    ensures Sound(nodes) && IsTable(nodes, t)
  {
  }

  lemma NothingFilled(nodes: seq<Node>, t: nat)
    requires Sound(nodes) && Blank(nodes, t, false)
    ensures BuildEntries(nodes, t, []) == Some(nodes) && EntriesOk([]) && Filled(nodes, t, [])
  {
    hide Sound, Seen;
    BlankSees(nodes, t, false, []);
    forall p | p != []
      ensures Claim(Seen(nodes, t, p), [], p)
    {
      BlankSees(nodes, t, false, p);
    }
  }

  // ----- Documents of entries -----

  function KeyVals(es: seq<Entry>): seq<Statement> {
    if es == [] then [] else [KeyVal(es[0])] + KeyVals(es[1..])
  }

  lemma {:induction false} KeyValsBuilt(m: Made, es: seq<Entry>)
    ensures BuildDocument(m, KeyVals(es)) ==
            match BuildEntries(m.nodes, m.id, es)
            case None => None
            case Some(nodes) => Some(Made(nodes, m.id))
    decreases es
  {
    hide BuildEntry;
    if es != [] {
      assert KeyVals(es)[1..] == KeyVals(es[1..]);
      if BuildEntry(m.nodes, m.id, es[0]).Some? {
        KeyValsBuilt(Made(BuildEntry(m.nodes, m.id, es[0]).value, m.id), es[1..]);
      }
    }
  }

  /** Entries read where nothing has been read before, as at the start of a document or after
      the header of a new table, are built if and only if the keys of none begin, or are,
      those of another, and the same holds within every inline table in them. */
  lemma SectionAccepted(m: Made, es: seq<Entry>)
    requires Sound(m.nodes) && Blank(m.nodes, m.id, false)
    ensures BuildDocument(m, KeyVals(es)).Some? <==> EntriesOk(es)
  {
    hide *;
    KeyValsBuilt(m, es);
    EntriesFresh(m.nodes, m.id, es);
  }

  lemma DocumentAccepted(es: seq<Entry>)
    ensures BuildDocument(EMPTY_DOCUMENT, KeyVals(es)).Some? <==> EntriesOk(es)
  {
    EmptyIsTree();
    SectionAccepted(EMPTY_DOCUMENT, es);
  }

  predicate NoInline(v: Value) {
    v.Text? || (v.List? && forall i | 0 <= i < |v.items| :: NoInline(v.items[i]))
  }

  function ValueOf(e: Entry): Value {
    match e
    case Under(_, rest) => ValueOf(rest)
    case Set(_, v) => v
  }

  lemma {:induction false} PlainValueOk(v: Value)
    requires NoInline(v)
    ensures ValueOk(v)
  {
    if v.List? {
      forall i | 0 <= i < |v.items|
        ensures ValueOk(v.items[i])
      {
        PlainValueOk(v.items[i]);
      }
    }
  }

  lemma {:induction false} PlainEntryOk(e: Entry)
    requires NoInline(ValueOf(e))
    ensures EntryOk(e)
  {
    match e
    case Under(_, rest) => PlainEntryOk(rest);
    case Set(_, v) => PlainValueOk(v);
  }

  /** A document without headers and inline tables is built if and only if no keys begin, or
      are, the keys of another entry. */
  lemma PlainDocument(es: seq<Entry>)
    requires forall i | 0 <= i < |es| :: NoInline(ValueOf(es[i]))
    ensures BuildDocument(EMPTY_DOCUMENT, KeyVals(es)).Some? <==>
            forall i, j | 0 <= i < |es| && 0 <= j < |es| && i != j :: !(PathOf(es[i]) <= PathOf(es[j]))
  {
    hide BuildDocument, EntryOk, NoInline, PathOf, ValueOf;
    DocumentAccepted(es);
    forall i | 0 <= i < |es|
      ensures EntryOk(es[i])
    {
      PlainEntryOk(es[i]);
    }
  }
}

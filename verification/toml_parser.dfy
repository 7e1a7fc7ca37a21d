/** The parser as the code runs it: one pass over the tokens that changes the tree as it
    reads.  It succeeds exactly when the text can be read and its statements can be built,
    and then has built exactly what they build. */
module TomlParser {
  import opened Options
  import opened TomlTree
  import opened TomlSyntax
  import opened TomlBuild

  // ----- Reading, then building -----

  /** A tree and the position after what it was built from. */
  type Outcome = Option<(seq<Node>, nat)>

  function ArrayOutcome(nodes: seq<Node>, a: nat, toks: seq<Token>, p: nat): Outcome
    requires p <= |toks|
  {
    match ReadArray(toks, p)
    case Failed => None
    case Read(xs, q) => match BuildItems(nodes, a, xs) case None => None case Some(nodes1) => Some((nodes1, q))
  }

  function ItemsOutcome(nodes: seq<Node>, a: nat, toks: seq<Token>, p: nat): Outcome
    requires p <= |toks|
  {
    match ReadItems(toks, p)
    case Failed => None
    case Read(xs, q) => match BuildItems(nodes, a, xs) case None => None case Some(nodes1) => Some((nodes1, q))
  }

  function ItemOutcome(nodes: seq<Node>, a: nat, toks: seq<Token>, p: nat): Outcome
    requires p <= |toks|
  {
    match ReadValue(toks, p)
    case Failed => None
    case Read(x, q) => match BuildItem(nodes, a, x) case None => None case Some(nodes1) => Some((nodes1, q))
  }

  function InlineOutcome(nodes: seq<Node>, t: nat, toks: seq<Token>, p: nat): Outcome
    requires p <= |toks|
  {
    match ReadInline(toks, p)
    case Failed => None
    case Read(es, q) => match BuildInline(nodes, t, es) case None => None case Some(nodes1) => Some((nodes1, q))
  }

  function EntriesOutcome(nodes: seq<Node>, t: nat, toks: seq<Token>, p: nat): Outcome
    requires p <= |toks|
  {
    match ReadEntries(toks, p)
    case Failed => None
    case Read(es, q) => match BuildEntries(nodes, t, es) case None => None case Some(nodes1) => Some((nodes1, q))
  }

  function EntryOutcome(nodes: seq<Node>, t: nat, toks: seq<Token>, p: nat): Outcome
    requires p <= |toks|
  {
    match ReadEntry(toks, p)
    case Failed => None
    case Read(e, q) => match BuildEntry(nodes, t, e) case None => None case Some(nodes1) => Some((nodes1, q))
  }

  /** After an item: another one and its followers, or the end. */
  function ItemsAfter(nodes: seq<Node>, a: nat, toks: seq<Token>, p: nat): Outcome
    requires p <= |toks|
  {
    match AfterItem(toks, p)
    case Failed => None
    case Read(again, q) => if again then ItemsOutcome(nodes, a, toks, q) else Some((nodes, q))
  }

  function EntriesAfter(nodes: seq<Node>, t: nat, toks: seq<Token>, p: nat): Outcome
    requires p <= |toks|
  {
    match AfterEntry(toks, p)
    case Failed => None
    case Read(again, q) => if again then EntriesOutcome(nodes, t, toks, q) else Some((nodes, q))
  }

  function LineOutcome(m: Made, toks: seq<Token>, p: nat): Option<(Made, nat)>
    requires p <= |toks|
  {
    match ReadLine(toks, p)
    case Failed => None
    case Read(s, q) => match BuildStatement(m, s) case None => None case Some(m1) => Some((m1, q))
  }

  function HeaderOutcome(m: Made, toks: seq<Token>, p: nat): Option<(Made, nat)>
    requires p <= |toks|
  {
    match ReadHeader(toks, p)
    case Failed => None
    case Read(s, q) => match BuildStatement(m, s) case None => None case Some(m1) => Some((m1, q))
  }

  function DocumentOutcome(m: Made, toks: seq<Token>, p: nat): Option<Made>
    requires p <= |toks|
  {
    match ReadDocument(toks, p)
    case Failed => None
    case Read(ss, _) => BuildDocument(m, ss)
  }

  /** What a method that returned `ok` delivered, in its final state. */
  predicate Delivers(spec: Outcome, ok: bool, nodes: seq<Node>, pos: nat) {
    match spec
    case None => !ok
    case Some((nodes1, q)) => ok && nodes == nodes1 && pos == q
  }

  // ----- One turn of a loop -----

  lemma ItemsCons(nodes: seq<Node>, a: nat, x: Value, xs: seq<Value>)
    ensures BuildItems(nodes, a, [x] + xs) ==
            match BuildItem(nodes, a, x) case None => None case Some(nodes1) => BuildItems(nodes1, a, xs)
  {
    hide BuildItem;
    assert ([x] + xs)[1..] == xs;
  }

  lemma EntriesCons(nodes: seq<Node>, t: nat, e: Entry, es: seq<Entry>)
    ensures BuildEntries(nodes, t, [e] + es) ==
            match BuildEntry(nodes, t, e) case None => None case Some(nodes1) => BuildEntries(nodes1, t, es)
  {
    hide BuildEntry;
    assert ([e] + es)[1..] == es;
  }

  /** An element, and what comes after it. */
  lemma {:induction false} ItemsTurn(nodes: seq<Node>, a: nat, toks: seq<Token>, p: nat)
    requires p <= |toks|
    ensures ItemsOutcome(nodes, a, toks, p) ==
      match SkipNewlines(toks, p)
      case Failed => None
      case Read(_, p1) =>
        if At(toks, p1).RBracket? then
          (match Advance(toks, p1) case Failed => None case Read(_, q) => Some((nodes, q)))
        else
          match ItemOutcome(nodes, a, toks, p1)
          case None => None
          case Some((nodes1, p2)) => if p2 > |toks| then None else ItemsAfter(nodes1, a, toks, p2)
  {
    hide SkipNewlines, Advance, ReadValue, BuildItem, AfterItem;
    var p1 := SkipNewlines(toks, p);
    if p1.Read? && !At(toks, p1.next).RBracket? {
      var x := ReadValue(toks, p1.next);
      if x.Read? {
        var after := AfterItem(toks, x.next);
        assert [x.value] + [] == [x.value];
        ItemsCons(nodes, a, x.value, []);
        if after.Read? && after.value {
          var more := ReadItems(toks, after.next);
          if more.Read? {
            ItemsCons(nodes, a, x.value, more.value);
          }
        }
      }
    }
  }

  /** An entry of an inline table, and what comes after it. */
  lemma {:induction false} EntriesTurn(nodes: seq<Node>, t: nat, toks: seq<Token>, p: nat)
    requires p <= |toks|
    ensures EntriesOutcome(nodes, t, toks, p) ==
      if At(toks, p) == RBrace then
        (match Advance(toks, p) case Failed => None case Read(_, q) => Some((nodes, q)))
      else
        match EntryOutcome(nodes, t, toks, p)
        case None => None
        case Some((nodes1, p1)) => if p1 > |toks| then None else EntriesAfter(nodes1, t, toks, p1)
  {
    hide Advance, ReadEntry, BuildEntry, AfterEntry;
    var e := ReadEntry(toks, p);
    if e.Read? && At(toks, p) != RBrace {
      var after := AfterEntry(toks, e.next);
      assert [e.value] + [] == [e.value];
      EntriesCons(nodes, t, e.value, []);
      if after.Read? && after.value {
        var more := ReadEntries(toks, after.next);
        if more.Read? {
          EntriesCons(nodes, t, e.value, more.value);
        }
      }
    }
  }

  /** A statement, and the rest of the document. */
  lemma {:induction false} DocumentTurn(m: Made, toks: seq<Token>, p: nat)
    requires p <= |toks|
    ensures DocumentOutcome(m, toks, p) ==
      if p == |toks| then Some(m)
      else if toks[p] == NewLine then
        (match Advance(toks, p) case Failed => None case Read(_, q) => DocumentOutcome(m, toks, q))
      else
        match (if toks[p].Str? then LineOutcome(m, toks, p) else if toks[p].LBracket? then HeaderOutcome(m, toks, p) else None)
        case None => None
        case Some((m1, q)) => if q > |toks| then None else DocumentOutcome(m1, toks, q)
  {
    hide Advance, ReadLine, ReadHeader, BuildStatement;
    if p < |toks| && toks[p] != NewLine {
      var s := if toks[p].Str? then ReadLine(toks, p) else if toks[p].LBracket? then ReadHeader(toks, p) else Failed;
      if s.Read? {
        var more := ReadDocument(toks, s.next);
        assert more.Read? ==> ([s.value] + more.value)[1..] == more.value;
      }
    }
  }

  /** A reading that goes on from these keys. */
  function Prefixed(path: seq<string>, r: Reading<seq<string>>): Reading<seq<string>> {
    match r
    case Failed => Failed
    case Read(keys, q) => Read(path + keys, q)
  }

  lemma NothingBefore(r: Reading<seq<string>>)
    ensures Prefixed([], r) == r
  {
    assert r.Read? ==> [] + r.value == r.value;
  }

  lemma {:induction false} PathTurn(path: seq<string>, toks: seq<Token>, p: nat)
    requires p <= |toks| && |path| < MAX_PATH && At(toks, p).Str? && At(toks, p).key.Some?
    ensures var path1 := path + [At(toks, p).key.value];
            Prefixed(path, ReadPath(toks, p, |path|)) ==
              match Advance(toks, p)
              case Failed => Failed
              case Read(_, p1) =>
                if At(toks, p1).RBracket? then Read(path1, p1)
                else if At(toks, p1) == Dot then
                  (match Advance(toks, p1) case Failed => Failed case Read(_, p2) => Prefixed(path1, ReadPath(toks, p2, |path1|)))
                else Failed
  {
    var k, path1 := At(toks, p).key.value, path + [At(toks, p).key.value];
    var p1 := Advance(toks, p);
    if p1.Read? && At(toks, p1.next) == Dot {
      var p2 := Advance(toks, p1.next);
      if p2.Read? {
        var more := ReadPath(toks, p2.next, |path1|);
        assert more.Read? ==> path + ([k] + more.value) == path1 + more.value;
      }
    }
  }

  /** A header is opened, its path read and walked, its table selected, and then closed. */
  lemma {:induction false} HeaderTurn(m: Made, toks: seq<Token>, p: nat)
    requires p <= |toks|
    ensures HeaderOutcome(m, toks, p) ==
      match OpenHeader(toks, p)
      case Failed => None
      case Read(doubled, p1) =>
        match ReadPath(toks, p1, 0)
        case Failed => None
        case Read(path, p2) =>
          match WalkPath(m.nodes, 0, path[..|path| - 1])
          case None => None
          case Some(m1) =>
            match Select(m1.nodes, m1.id, path[|path| - 1], doubled)
            case None => None
            case Some(m2) =>
              match CloseHeader(toks, p2, doubled)
              case Failed => None
              case Read(_, q) => Some((m2, q))
  {
    hide OpenHeader, ReadPath, WalkPath, Select, CloseHeader;
  }

  lemma {:induction false} WalkTurn(nodes: seq<Node>, t: nat, path: seq<string>, i: nat)
    requires i < |path|
    ensures WalkPath(nodes, t, path[i..]) ==
            match StepInto(nodes, t, path[i]) case None => None case Some(m) => WalkPath(m.nodes, m.id, path[i + 1..])
  {
    assert path[i..][1..] == path[i + 1..];
  }

  // ----- The parser -----

  class Parser {
    const toks: seq<Token>
    var pos: nat
    var nodes: seq<Node>
    var cur: nat

    ghost predicate Valid()
      reads this
    {
      pos <= |toks| && Sound(nodes) && IsTable(nodes, 0) && IsTable(nodes, cur)
    }

    /** `toml_parse` starts with an empty root and a newline of its own. */
    constructor (tokens: seq<Token>)
      ensures Valid() && pos == 0 && Made(nodes, cur) == EMPTY_DOCUMENT && toks == [NewLine] + tokens
    {
      EmptyIsTree();
      toks, pos, nodes, cur := [NewLine] + tokens, 0, [EMPTY_TABLE], 0;
    }

    function Tok(): Token
      reads this
    {
      At(toks, pos)
    }

    method Next() returns (ok: bool)
      requires pos <= |toks|
      modifies `pos
      ensures pos <= |toks|
      ensures match Advance(toks, old(pos)) case Failed => !ok case Read(_, q) => ok && pos == q
    {
      if pos < |toks| {
        pos := pos + 1;
      }
      ok := Tok() != Bad;
    }

    /** `skip_newlines` */
    method SkipNewLines() returns (ok: bool)
      requires pos <= |toks|
      modifies `pos
      ensures pos <= |toks|
      ensures match SkipNewlines(toks, old(pos)) case Failed => !ok case Read(_, q) => ok && pos == q
    {
      while Tok() == NewLine
        invariant pos <= |toks| && SkipNewlines(toks, pos) == SkipNewlines(toks, old(pos))
        decreases |toks| - pos
      {
        var done := Next();
        if !done {
          return false;
        }
        if pos == |toks| {
          return true;
        }
      }
      return true;
    }

    // ----- Creating -----

    method CreateKeyval(t: nat, key: Option<string>, text: string) returns (ok: bool)
      requires IsTable(nodes, t)
      modifies `nodes
      ensures key.None? ==> !ok
      ensures key.Some? ==>
        match AddValue(old(nodes), t, key.value, text) case None => !ok case Some(nodes1) => ok && nodes == nodes1
    {
      if key.None? || Check(nodes[t], key.value) != NoKey {
        return false;
      }
      nodes := Changed(nodes, t, nodes[t].(kvals := nodes[t].kvals + [Named(key.value, text)]), []);
      return true;
    }

    /** A new table; or an existing one, if it is implicit, which then is explicit. */
    method CreateKeytable(t: nat, key: Option<string>, implicit: bool) returns (r: Option<nat>)
      requires Sound(nodes) && IsTable(nodes, t)
      modifies `nodes
      ensures key.None? ==> r == None
      ensures key.Some? ==>
        match AddTable(old(nodes), t, key.value, implicit) case None => r == None case Some(m) => r == Some(m.id) && nodes == m.nodes
      ensures key.Some? && old(Check(nodes[t], key.value)).FoundTab? ==>
        var id := old(Check(nodes[t], key.value)).id;
        id < |old(nodes)| && old(nodes)[id].Table? && (r == if old(nodes)[id].implicit then Some(id) else None)
      ensures r.Some? && r.value < |old(nodes)| ==> nodes[r.value].Table? && !nodes[r.value].implicit
    {
      if key.None? {
        return None;
      }
      var found := Check(nodes[t], key.value);
      if found != NoKey {
        if found.FoundTab? {
          FoundIsTable(nodes, t, key.value);
          if nodes[found.id].implicit {
            nodes := Changed(nodes, found.id, nodes[found.id].(implicit := false), []);
            return Some(found.id);
          }
        }
        return None;
      }
      r := Some(|nodes|);
      nodes := Changed(nodes, t, nodes[t].(tabs := nodes[t].tabs + [Named(key.value, |nodes|)]), [EMPTY_TABLE.(implicit := implicit)]);
    }

    method CreateKeyarray(t: nat, key: Option<string>) returns (r: Option<nat>)
      requires IsTable(nodes, t)
      modifies `nodes
      ensures key.None? ==> r == None
      ensures key.Some? ==>
        match AddArray(old(nodes), t, key.value) case None => r == None case Some(m) => r == Some(m.id) && nodes == m.nodes
    {
      if key.None? || Check(nodes[t], key.value) != NoKey {
        return None;
      }
      r := Some(|nodes|);
      nodes := Changed(nodes, t, nodes[t].(arrs := nodes[t].arrs + [Named(key.value, |nodes|)]), [EMPTY_ARRAY]);
    }

    // ----- Arrays -----

    /** `parse_array` */
    method ParseArray(a: nat) returns (ok: bool)
      requires pos <= |toks| && Sound(nodes) && IsArray(nodes, a)
      modifies `pos, `nodes
      ensures pos <= |toks| && Delivers(ArrayOutcome(old(nodes), a, toks, old(pos)), ok, nodes, pos)
      decreases |toks| - pos, 0
    {
      if !Tok().LBracket? {
        return false;
      }
      ok := Next();
      if ok {
        ok := ParseItems(a);
      }
    }

    method ParseItems(a: nat) returns (ok: bool)
      requires pos <= |toks| && Sound(nodes) && IsArray(nodes, a)
      modifies `pos, `nodes
      ensures pos <= |toks| && Delivers(ItemsOutcome(old(nodes), a, toks, old(pos)), ok, nodes, pos)
      decreases |toks| - pos, 3
    {
      hide ItemsOutcome, ItemOutcome, SkipNewlines, Advance, Sound;
      while true
        invariant old(pos) <= pos <= |toks| && Sound(nodes) && IsArray(nodes, a)
        invariant ItemsOutcome(nodes, a, toks, pos) == ItemsOutcome(old(nodes), a, toks, old(pos))
        decreases |toks| - pos
      {
        ItemsTurn(nodes, a, toks, pos);
        ok := SkipNewLines();
        if !ok {
          return;
        }
        if Tok().RBracket? {
          break;
        }
        ghost var nodes0, p1 := nodes, pos;
        ok := ParseItem(a);
        if !ok {
          return;
        }
        ItemDelivered(nodes0, a, toks, p1);
        ok := SkipNewLines();
        if !ok {
          return;
        }
        if Tok() != Comma {
          break;
        }
        ok := Next();
        if !ok {
          return;
        }
      }
      if !Tok().RBracket? {
        return false;
      }
      ok := Next();
    }

    method ParseItem(a: nat) returns (ok: bool)
      requires pos <= |toks| && Sound(nodes) && IsArray(nodes, a)
      modifies `pos, `nodes
      ensures pos <= |toks| && Delivers(ItemOutcome(old(nodes), a, toks, old(pos)), ok, nodes, pos)
      decreases |toks| - pos, 1
    {
      hide Advance, ReadArray, ReadInline, BuildItems, BuildInline, Sound, Appended;
      var child := |nodes|;
      match Tok() {
        case Str(text, _) =>
          nodes := AppendItem(nodes, a, Val(text), []);
          ok := Next();
        case LBracket(_) =>
          nodes := AppendItem(nodes, a, Arr(child), [EMPTY_ARRAY]);
          ok := ParseArray(child);
        case LBrace =>
          nodes := AppendItem(nodes, a, Tab(child), [EMPTY_TABLE]);
          ok := ParseInlineTable(child);
        case _ =>
          ok := false;
      }
    }

    // ----- Inline tables and entries -----

    /** `parse_inline_table` */
    method ParseInlineTable(t: nat) returns (ok: bool)
      requires pos <= |toks| && Sound(nodes) && IsTable(nodes, t)
      modifies `pos, `nodes
      ensures pos <= |toks| && Delivers(InlineOutcome(old(nodes), t, toks, old(pos)), ok, nodes, pos)
      decreases |toks| - pos, 0
    {
      if Tok() != LBrace {
        return false;
      }
      ok := Next();
      if !ok {
        return;
      }
      ghost var nodes0, p := nodes, pos;
      ok := ParseEntries(t);
      if ok {
        EntriesDelivered(nodes0, t, toks, p);
        nodes := Changed(nodes, t, nodes[t].(readonly := true), []);
      }
    }

    method ParseEntries(t: nat) returns (ok: bool)
      requires pos <= |toks| && Sound(nodes) && IsTable(nodes, t)
      modifies `pos, `nodes
      ensures pos <= |toks| && Delivers(EntriesOutcome(old(nodes), t, toks, old(pos)), ok, nodes, pos)
      decreases |toks| - pos, 3
    {
      hide EntriesOutcome, EntryOutcome, Advance, Sound;
      while true
        invariant old(pos) <= pos <= |toks| && Sound(nodes) && IsTable(nodes, t)
        invariant EntriesOutcome(nodes, t, toks, pos) == EntriesOutcome(old(nodes), t, toks, old(pos))
        decreases |toks| - pos
      {
        EntriesTurn(nodes, t, toks, pos);
        NoEntryHere(nodes, t, toks, pos);
        if Tok() == NewLine {
          return false;
        }
        if Tok() == RBrace {
          break;
        }
        if !Tok().Str? {
          return false;
        }
        ghost var nodes0, p := nodes, pos;
        ok := ParseKeyval(t);
        if !ok {
          return;
        }
        EntryDelivered(nodes0, t, toks, p);
        if Tok() == NewLine {
          return false;
        }
        if Tok() != Comma {
          break;
        }
        ok := Next();
        if !ok {
          return;
        }
      }
      if Tok() != RBrace {
        return false;
      }
      ok := Next();
    }

    /** `parse_keyval` */
    method ParseKeyval(t: nat) returns (ok: bool)
      requires pos <= |toks| && Sound(nodes) && IsTable(nodes, t)
      modifies `pos, `nodes
      ensures pos <= |toks| && Delivers(EntryOutcome(old(nodes), t, toks, old(pos)), ok, nodes, pos)
      decreases |toks| - pos, 1
    {
      if nodes[t].readonly {
        ReadonlyRefuses(nodes, t, toks, pos);
        return false;
      }
      if !Tok().Str? {
        return false;
      }
      var key := Tok().key;
      ok := Next();
      if !ok {
        return;
      }
      if Tok() == Dot {
        ok := ParseDotted(t, key);
        return;
      }
      if Tok() != Equal {
        return false;
      }
      ok := Next();
      if !ok {
        return;
      }
      ok := ParseBound(t, key);
    }

    /** After `key .` */
    method ParseDotted(t: nat, key: Option<string>) returns (ok: bool)
      requires pos < |toks| && Tok() == Dot && Sound(nodes) && IsTable(nodes, t) && !nodes[t].readonly
      modifies `pos, `nodes
      ensures pos <= |toks| && Delivers(DottedOutcome(old(nodes), t, key, toks, old(pos)), ok, nodes, pos)
      decreases |toks| - pos, 2
    {
      hide ReadEntry, Advance, Sound;
      if key.None? {
        return false;
      }
      var sub := Find(nodes[t].tabs, key.value);
      if sub.Some? {
        SubtableIsTable(nodes, t, key.value);
      } else {
        ghost var nodes0 := nodes;
        sub := CreateKeytable(t, key, false);
        if sub.None? {
          return false;
        }
        TableAdded(nodes0, t, key.value, false);
      }
      ok := Next();
      if ok {
        ok := ParseKeyval(sub.value);
      }
    }

    /** After `key =` */
    method ParseBound(t: nat, key: Option<string>) returns (ok: bool)
      requires pos <= |toks| && Sound(nodes) && IsTable(nodes, t) && !nodes[t].readonly
      modifies `pos, `nodes
      ensures pos <= |toks| && Delivers(BoundOutcome(old(nodes), t, key, toks, old(pos)), ok, nodes, pos)
      decreases |toks| - pos, 2
    {
      hide ReadArray, ReadInline, Advance, Sound, BuildItems, BuildInline, AddValue, AddTable, AddArray;
      ghost var nodes0 := nodes;
      match Tok() {
        case Str(text, _) =>
          ok := CreateKeyval(t, key, text);
          if ok {
            ok := Next();
          }
        case LBracket(_) =>
          var a := CreateKeyarray(t, key);
          if a.None? {
            return false;
          }
          ArrayAdded(nodes0, t, key.value);
          ok := ParseArray(a.value);
        case LBrace =>
          var sub := CreateKeytable(t, key, false);
          if sub.None? {
            return false;
          }
          TableAdded(nodes0, t, key.value, false);
          ok := ParseInlineTable(sub.value);
        case _ =>
          ok := false;
      }
    }

    // ----- Headers -----

    /** `fill_tabpath` */
    method FillTabpath() returns (ok: bool, path: seq<string>)
      requires pos <= |toks|
      modifies `pos
      ensures pos <= |toks|
      ensures match ReadPath(toks, old(pos), 0) case Failed => !ok case Read(keys, q) => ok && path == keys && pos == q
    {
      ghost var p0 := pos;
      path := [];
      NothingBefore(ReadPath(toks, pos, 0));
      while true
        invariant pos <= |toks| && Prefixed(path, ReadPath(toks, pos, |path|)) == ReadPath(toks, p0, 0)
        decreases |toks| - pos
      {
        if |path| >= MAX_PATH || !Tok().Str? || Tok().key.None? {
          return false, path;
        }
        PathTurn(path, toks, pos);
        path := path + [Tok().key.value];
        ok := Next();
        if !ok {
          return;
        }
        if Tok().RBracket? {
          return;
        }
        if Tok() != Dot {
          return false, path;
        }
        ok := Next();
        if !ok {
          return;
        }
      }
    }

    /** `walk_tabpath` */
    method WalkTabpath(path: seq<string>) returns (ok: bool, t: nat)
      requires Sound(nodes) && IsTable(nodes, 0)
      modifies `nodes
      ensures match WalkPath(old(nodes), 0, path) case None => !ok case Some(m) => ok && nodes == m.nodes && t == m.id
    {
      hide Sound;
      ghost var nodes0 := nodes;
      t := 0;
      for i := 0 to |path|
        invariant Sound(nodes) && IsTable(nodes, t)
        invariant WalkPath(nodes, t, path[i..]) == WalkPath(nodes0, 0, path)
      {
        WalkTurn(nodes, t, path, i);
        ghost var here, at := nodes, t;
        var found := Check(nodes[t], path[i]);
        match found {
          case FoundTab(id) =>
            t := id;
          case FoundArr(id) =>
            FoundIsArray(nodes, t, path[i]);
            var items := nodes[id].items;
            if nodes[id].kind != 't' || items == [] {
              return false, t;
            }
            t := items[|items| - 1].id;
          case FoundVal(_) =>
            return false, t;
          case NoKey =>
            var made := CreateKeytable(t, Some(path[i]), true);
            t := made.value;
        }
        SteppedOnce(here, at, path[i]);
      }
      assert path[|path|..] == [];
      ok := true;
    }

    /** The table of a doubled header: a new one, at the end of its array. */
    method SelectInArray(t: nat, key: string) returns (r: Option<nat>)
      requires Sound(nodes) && IsTable(nodes, t)
      modifies `nodes
      ensures match Select(old(nodes), t, key, true) case None => r == None case Some(m) => r == Some(m.id) && nodes == m.nodes
    {
      var found := Find(nodes[t].arrs, key);
      if found.None? {
        found := CreateKeyarray(t, Some(key));
        if found.None? {
          return None;
        }
        KindAhead(nodes, found.value);
        nodes := nodes[found.value := nodes[found.value].(kind := 't')];
      } else {
        ArrayIsArray(nodes, t, key);
      }
      var a := found.value;
      if nodes[a].kind != 't' {
        return None;
      }
      r := Some(|nodes|);
      nodes := Appended(nodes, a, Tab(|nodes|), [EMPTY_TABLE]);
    }

    /** `parse_select` */
    method ParseSelect() returns (ok: bool)
      requires Valid() && Tok().LBracket?
      modifies `pos, `nodes, `cur
      ensures pos <= |toks|
      ensures match HeaderOutcome(Made(old(nodes), old(cur)), toks, old(pos))
              case None => !ok
              case Some((m, q)) => ok && Made(nodes, cur) == m && pos == q
    {
      hide Sound, ReadPath, WalkPath, OpenHeader, CloseHeader, AddTable, ArrayOfTables;
      HeaderTurn(Made(nodes, cur), toks, pos);
      hide HeaderOutcome;
      var doubled, path, t;
      ok, doubled := OpenSelect();
      if !ok {
        return;
      }
      ok, path := FillTabpath();
      if !ok {
        return;
      }
      var n := |path| - 1;
      WalkKeepsSound(nodes, path[..n]);
      ok, t := WalkTabpath(path[..n]);
      if !ok {
        return;
      }
      var made;
      if doubled {
        made := SelectInArray(t, path[n]);
      } else {
        made := CreateKeytable(t, Some(path[n]), false);
      }
      if made.None? {
        return false;
      }
      cur := made.value;
      ok := CloseSelect(doubled);
    }

    /** The end of a header, whose last key has been read. */
    method CloseSelect(doubled: bool) returns (ok: bool)
      requires pos <= |toks|
      modifies `pos
      ensures pos <= |toks|
      ensures match CloseHeader(toks, old(pos), doubled) case Failed => !ok case Read(_, q) => ok && pos == q
    {
      if !Tok().RBracket? || (doubled && !Tok().doubled) {
        return false;
      }
      ok := Next();
      if ok && doubled {
        if !Tok().RBracket? {
          return false;
        }
        ok := Next();
      }
      ok := ok && Tok() == NewLine;
    }

    /** The start of a header. */
    method OpenSelect() returns (ok: bool, doubled: bool)
      requires pos <= |toks| && Tok().LBracket?
      modifies `pos
      ensures pos <= |toks|
      ensures match OpenHeader(toks, old(pos)) case Failed => !ok case Read(d, q) => ok && doubled == d && pos == q
    {
      doubled := Tok().doubled;
      ok := Next();
      if ok && doubled {
        if !Tok().LBracket? {
          return false, doubled;
        }
        ok := Next();
      }
    }

    /** `toml_parse` */
    method Parse() returns (ok: bool)
      requires Valid()
      modifies `pos, `nodes, `cur
      ensures match DocumentOutcome(Made(old(nodes), old(cur)), toks, old(pos))
              case None => !ok
              case Some(m) => ok && Made(nodes, cur) == m && Valid()
    {
      hide Sound, DocumentOutcome, HeaderOutcome, LineOutcome, EntryOutcome, Advance;
      ghost var m0, p0 := Made(nodes, cur), pos;
      while pos < |toks|
        invariant Valid()
        invariant DocumentOutcome(Made(nodes, cur), toks, pos) == DocumentOutcome(m0, toks, p0)
        decreases |toks| - pos
      {
        DocumentTurn(Made(nodes, cur), toks, pos);
        ghost var m, p := Made(nodes, cur), pos;
        match Tok() {
          case NewLine =>
            ok := Next();
          case Str(_, _) =>
            ok := ParseLine();
            if ok {
              LineDelivered(m, toks, p);
            }
          case LBracket(_) =>
            ok := ParseSelect();
            if ok {
              HeaderDelivered(m, toks, p);
            }
          case _ =>
            ok := false;
        }
        if !ok {
          return;
        }
      }
      DocumentTurn(Made(nodes, cur), toks, pos);
      ok := true;
    }

    /** An entry has its line to itself. */
    method ParseLine() returns (ok: bool)
      requires Valid()
      modifies `pos, `nodes
      ensures pos <= |toks|
      ensures match LineOutcome(Made(old(nodes), cur), toks, old(pos))
              case None => !ok
              case Some((m, q)) => ok && Made(nodes, cur) == m && pos == q
    {
      hide Sound, ReadEntry, BuildEntry, Advance;
      ok := ParseKeyval(cur);
      if !ok {
        return;
      }
      if Tok() != NewLine {
        return false;
      }
      ok := Next();
    }
  }

  /** An item joins an array, whose kind follows. */
  function AppendItem(nodes: seq<Node>, a: nat, x: Item, more: seq<Node>): (nodes': seq<Node>)
    requires Sound(nodes) && IsArray(nodes, a)
    requires |more| <= 1 && (more != [] ==> more[0] == EMPTY_ARRAY || more[0] == EMPTY_TABLE)
    requires x.Val? == (more == []) && (more != [] ==> x == if more[0].Array? then Arr(|nodes|) else Tab(|nodes|))
    ensures nodes' == Appended(nodes, a, x, more) && Sound(nodes')
    ensures more != [] ==> |nodes'| == |nodes| + 1 && nodes'[|nodes|] == more[0]
  {
    ItemAppended(nodes, a, x, more);
    Appended(nodes, a, x, more)
  }

  function DottedOutcome(nodes: seq<Node>, t: nat, key: Option<string>, toks: seq<Token>, p: nat): Outcome
    requires p <= |toks|
  {
    match Advance(toks, p)
    case Failed => None
    case Read(_, p1) =>
      match ReadEntry(toks, p1)
      case Failed => None
      case Read(e, q) =>
        if key.None? then None else
          match BuildEntry(nodes, t, Under(key.value, e)) case None => None case Some(nodes1) => Some((nodes1, q))
  }

  function BoundOutcome(nodes: seq<Node>, t: nat, key: Option<string>, toks: seq<Token>, p: nat): Outcome
    requires p <= |toks|
  {
    match ReadValue(toks, p)
    case Failed => None
    case Read(v, q) =>
      if key.None? then None else
        match BuildEntry(nodes, t, Set(key.value, v)) case None => None case Some(nodes1) => Some((nodes1, q))
  }

  // ----- What outcomes are -----

  lemma {:induction false} ItemDelivered(nodes: seq<Node>, a: nat, toks: seq<Token>, p: nat)
    requires p <= |toks| && Sound(nodes) && IsArray(nodes, a) && ItemOutcome(nodes, a, toks, p).Some?
    ensures var (nodes1, q) := ItemOutcome(nodes, a, toks, p).value; Sound(nodes1) && IsArray(nodes1, a) && p < q <= |toks|
  {
    ItemBuilt(nodes, a, ReadValue(toks, p).value);
  }

  lemma {:induction false} EntryDelivered(nodes: seq<Node>, t: nat, toks: seq<Token>, p: nat)
    requires p <= |toks| && Sound(nodes) && IsTable(nodes, t) && EntryOutcome(nodes, t, toks, p).Some?
    ensures var (nodes1, q) := EntryOutcome(nodes, t, toks, p).value; Sound(nodes1) && IsTable(nodes1, t) && p < q <= |toks|
  {
    EntryBuilt(nodes, t, ReadEntry(toks, p).value);
  }

  lemma {:induction false} EntriesDelivered(nodes: seq<Node>, t: nat, toks: seq<Token>, p: nat)
    requires p <= |toks| && Sound(nodes) && IsTable(nodes, t) && EntriesOutcome(nodes, t, toks, p).Some?
    ensures var (nodes1, q) := EntriesOutcome(nodes, t, toks, p).value; Sound(nodes1) && IsTable(nodes1, t) && p < q <= |toks|
  {
    EntriesBuilt(nodes, t, ReadEntries(toks, p).value);
  }

  lemma NoEntryHere(nodes: seq<Node>, t: nat, toks: seq<Token>, p: nat)
    requires p <= |toks|
    ensures !At(toks, p).Str? ==> EntryOutcome(nodes, t, toks, p) == None
  {
  }

  lemma ReadonlyRefuses(nodes: seq<Node>, t: nat, toks: seq<Token>, p: nat)
    requires p <= |toks| && IsTable(nodes, t) && nodes[t].readonly
    ensures EntryOutcome(nodes, t, toks, p) == None
  {
  }

  lemma {:induction false} FoundIsTable(nodes: seq<Node>, t: nat, k: string)
    requires Sound(nodes) && IsTable(nodes, t) && Check(nodes[t], k).FoundTab?
    ensures IsTable(nodes, Check(nodes[t], k).id)
  {
    var owner :| Tree(nodes, owner);
    CheckIsOwned(nodes, owner, t, k);
  }

  lemma {:induction false} FoundIsArray(nodes: seq<Node>, t: nat, k: string)
    requires Sound(nodes) && IsTable(nodes, t) && Check(nodes[t], k).FoundArr?
    ensures var a := Check(nodes[t], k).id;
            IsArray(nodes, a) && (nodes[a].kind == 't' ==> forall i | 0 <= i < |nodes[a].items| :: nodes[a].items[i].Tab?)
  {
    var owner :| Tree(nodes, owner);
    CheckIsOwned(nodes, owner, t, k);
    var a := Check(nodes[t], k).id;
    assert NodeOk(nodes, owner, a);
    KindMeaning(nodes[a].items);
  }

  lemma {:induction false} ArrayIsArray(nodes: seq<Node>, t: nat, k: string)
    requires Sound(nodes) && IsTable(nodes, t) && Find(nodes[t].arrs, k).Some?
    ensures IsArray(nodes, Find(nodes[t].arrs, k).value)
  {
    var owner :| Tree(nodes, owner);
    ExactlyOneLookup(nodes, owner, t, k);
    CheckIsOwned(nodes, owner, t, k);
  }

  /** The kind the first table will give an empty array may be set ahead of it. */
  lemma KindAhead(nodes: seq<Node>, a: nat)
    requires IsArray(nodes, a) && nodes[a] == EMPTY_ARRAY
    ensures var ahead := nodes[a := nodes[a].(kind := 't')];
            Appended(ahead, a, Tab(|nodes|), [EMPTY_TABLE]) == Appended(nodes, a, Tab(|nodes|), [EMPTY_TABLE])
  {
    var ahead := nodes[a := nodes[a].(kind := 't')];
    assert ahead[a].items == nodes[a].items;
    assert Changed(ahead, a, Array('t', nodes[a].items + [Tab(|nodes|)]), [EMPTY_TABLE])
        == Changed(nodes, a, Array('t', nodes[a].items + [Tab(|nodes|)]), [EMPTY_TABLE]);
  }

  lemma {:induction false} SteppedOnce(nodes: seq<Node>, t: nat, k: string)
    requires Sound(nodes) && IsTable(nodes, t) && StepInto(nodes, t, k).Some?
    ensures var m := StepInto(nodes, t, k).value; Sound(m.nodes) && IsTable(m.nodes, m.id)
  {
    if Check(nodes[t], k) == NoKey {
      TableAdded(nodes, t, k, true);
    } else {
      StepForward(nodes, t, k);
    }
  }

  lemma {:induction false} WalkKeepsSound(nodes: seq<Node>, path: seq<string>)
    requires Sound(nodes) && IsTable(nodes, 0)
    ensures var m := WalkPath(nodes, 0, path); m.Some? ==> Sound(m.value.nodes) && IsTable(m.value.nodes, m.value.id)
  {
    if WalkPath(nodes, 0, path).Some? {
      assert Follow(nodes, []) == Some(0);
      PathWalked(nodes, [], 0, path);
    }
  }

  lemma {:induction false} LineDelivered(m: Made, toks: seq<Token>, p: nat)
    requires p <= |toks| && Sound(m.nodes) && IsTable(m.nodes, m.id) && IsTable(m.nodes, 0) && LineOutcome(m, toks, p).Some?
    ensures var (m1, q) := LineOutcome(m, toks, p).value;
            Sound(m1.nodes) && IsTable(m1.nodes, m1.id) && IsTable(m1.nodes, 0) && p < q <= |toks|
  {
    StatementBuilt(m, ReadLine(toks, p).value);
  }

  lemma {:induction false} HeaderDelivered(m: Made, toks: seq<Token>, p: nat)
    requires p <= |toks| && Sound(m.nodes) && IsTable(m.nodes, m.id) && IsTable(m.nodes, 0) && HeaderOutcome(m, toks, p).Some?
    ensures var (m1, q) := HeaderOutcome(m, toks, p).value;
            Sound(m1.nodes) && IsTable(m1.nodes, m1.id) && IsTable(m1.nodes, 0) && p < q <= |toks|
  {
    StatementBuilt(m, ReadHeader(toks, p).value);
  }

  /** A parsed text is a list of statements, and its tree, a sound one, holds every entry of
      it under the table that was selected for it. */
  lemma {:induction false} ParsedTextHolds(toks: seq<Token>)
    requires DocumentOutcome(EMPTY_DOCUMENT, toks, 0).Some?
    ensures ReadDocument(toks, 0).Read?
    ensures var ss, m := ReadDocument(toks, 0).value, DocumentOutcome(EMPTY_DOCUMENT, toks, 0).value;
            && Sound(m.nodes)
            && forall i | 0 <= i < |ss| && ss[i].KeyVal? ::
                 TableOf(EMPTY_DOCUMENT, ss, i).Some? && HoldsEntry(m.nodes, TableOf(EMPTY_DOCUMENT, ss, i).value, ss[i].entry)
  {
    EmptyIsTree();
    DocumentHolds(EMPTY_DOCUMENT, ReadDocument(toks, 0).value);
  }
}

/** Scopes ("registers"): tables from keys to entries, chained to their parents, with ids
    drawn from one shared counter.  A key is a declared name or the decimal numeral of an
    id; the tables are the finite maps module Khashl proves its hash table to be. */
module Registry {
  import opened Options
  import opened Decimals
  import Khashl

  // ----- Syntax -----

  datatype Ast =
    | Lit(text: string)
    | Name(name: string)
    | Bin(op: nat, left: Ast, right: Ast)
    | CastTo(inner: Ast, ty: string)
    | Idx(base: Ast, index: Ast)
    | Call(fn: string, args: seq<Ast>)
    | ClassCall(cls: string, method_: string, args: seq<Ast>)
    | StructLit(struct_: string, fields: seq<FieldAst>)
    | EnumLit(enum: string, variant: string)

  datatype FieldAst = FieldAst(name: string, value: Ast)

  datatype Stmt =
    | Var(name: string, init: Option<Ast>)
    | Let(name: string, init: Option<Ast>)
    | Const(name: string, init: Option<Ast>)
    | If(cond: Ast, body: seq<Stmt>, elseBody: seq<Stmt>)  // `elif` is an `If` in an else body
    | While(cond: Ast, body: seq<Stmt>)
    | For(var_: string, iter: Ast, body: seq<Stmt>)
    | Return(val: Option<Ast>)
    | ExprStmt(e: Ast)
    | Assign(op: nat, target: Ast, value: Ast)

  // ----- Entries -----

  datatype Node =
    | NLit(text: string)
    | NName(name: string)
    | NBin(op: nat, leftId: nat, rightId: nat)
    | NCast(exprId: nat, ty: string)
    | NIdx(baseId: nat, indexId: nat)
    | NCall(fn: string, child: nat, argIds: seq<nat>)
    | NStruct(struct_: string, fields: seq<FieldAst>)  // keeps the syntax of its fields
    | NEnum(enum: string, variant: string)
    | NParam(index: nat)
    | NVar(init: Option<Handle>)
    | NLet(slot: Option<Slot>)
    | NConst(slot: Option<Slot>)
    | NIf(condId: nat, condChild: nat, thenChild: nat, elseChild: nat)
    | NWhile(condId: nat, condChild: nat, bodyChild: nat)
    | NFor(var_: string, iterId: nat, iterChild: nat, bodyChild: nat)
    | NReturn(exprId: nat)
    | NExprStmt(exprId: nat)
    | NAssign(op: nat, targetId: nat, valueId: nat)

  /** A reference to an entry, as the scope that holds it and its id. */
  datatype Handle = Handle(scope: nat, id: nat)

  /** A pointer into the table of the entry's own scope: to the bucket of `id`, good while
      the buckets of that table have moved `moves` times. */
  datatype Slot = Slot(id: nat, moves: nat)

  predicate IsExpr(n: Node) {
    n.NLit? || n.NName? || n.NBin? || n.NCast? || n.NIdx? || n.NCall? || n.NStruct? || n.NEnum?
  }

  /** A parameter is neither: `lower_stmt` passes it over. */
  predicate IsStmt(n: Node) {
    !IsExpr(n) && !n.NParam?
  }

  datatype Entry = Entry(eid: nat, name: string, node: Node)

  type Buckets = n: nat | n % 4 == 0

  /** `cap` buckets hold the table; they have been moved `moves` times. */
  datatype Scope = Scope(table: map<string, Entry>, parent: Option<nat>, cap: Buckets, moves: nat)

  const EMPTY_SCOPE := Scope(map[], None, 0, 0)

  /** All scopes by number, the id counter, and the scopes made for expressions only. */
  datatype World = World(scopes: seq<Scope>, next: nat, exprScopes: set<nat>) {
    function Table(s: nat): map<string, Entry>
      requires s < |scopes|
    {
      scopes[s].table
    }
  }

  /** An identifier, as opposed to the numeral of an id. */
  predicate IsName(s: string) {
    s != [] && !IsDigit(s[0])
  }

  ghost predicate Valid(w: World) {
    && w.next >= 1
    && (forall s | 0 <= s < |w.scopes| :: w.scopes[s].parent.Some? ==> w.scopes[s].parent.value < s)
    && (forall s, k | 0 <= s < |w.scopes| && k in w.scopes[s].table :: KeyValid(w, s, k))
    && (forall s, t, i: nat | 0 <= s < |w.scopes| && 0 <= t < |w.scopes| && Decimal(i) in w.scopes[s].table && Decimal(i) in w.scopes[t].table :: s == t)
    && (forall s | s in w.exprScopes :: s < |w.scopes|)
    && (forall s | 0 <= s < |w.scopes| && w.scopes[s].moves == 0 :: w.scopes[s].cap == 0 && w.scopes[s].table == map[])
  }

  ghost predicate KeyValid(w: World, s: nat, k: string)
    requires s < |w.scopes| && k in w.scopes[s].table
  {
    var e := w.scopes[s].table[k];
    && 1 <= e.eid < w.next
    && (IsName(k) || k == Decimal(e.eid))
    && (s in w.exprScopes ==> !IsName(k))
  }

  function GetById(w: World, s: nat, id: nat): Option<Entry>
    requires s < |w.scopes|
  {
    if Decimal(id) in w.Table(s) then Some(w.Table(s)[Decimal(id)]) else None
  }

  /** The nearest enclosing scope that declares `n` decides. */
  function Lookup(w: World, s: nat, n: string): Option<Entry>
    requires s < |w.scopes|
  {
    if n in w.Table(s) then Some(w.Table(s)[n])
    else
      var p := w.scopes[s].parent;
      if p.Some? && p.value < s then Lookup(w, p.value, n) else None
  }

  /** The id an occurrence of `n` in scope `s` refers to; 0 when undeclared. */
  function Resolve(w: World, s: nat, n: string): nat
    requires s < |w.scopes|
  {
    match Lookup(w, s, n)
    case Some(e) => e.eid
    case None => 0
  }

  // ----- Insertion -----

  /** How full a table is: its entries and buckets, and how often the buckets have moved. */
  datatype Fill = Fill(count: nat, cap: Buckets, moves: nat)

  const EMPTY_FILL := Fill(0, 0, 0)

  function FillOf(sc: Scope): Fill {
    Fill(|sc.table|, sc.cap, sc.moves)
  }

  /** A table that a put finds at its load limit gets new buckets. */
  function Touch(f: Fill): Fill {
    f.(cap := Khashl.Room(f.cap, f.count), moves := f.moves + if f.count < Khashl.MaxCount(f.cap) then 0 else 1)
  }

  /** A put of a new key. */
  function Fresh(f: Fill): Fill {
    Touch(f).(count := f.count + 1)
  }

  /** `n` puts of new keys. */
  function After(f: Fill, n: nat): Fill {
    if n == 0 then f else Fresh(After(f, n - 1))
  }

  /** `register_table_put`, which leaves a present key alone. */
  function PutKey(sc: Scope, k: string, e: Entry): Scope {
    sc.(table := if k in sc.table then sc.table else sc.table[k := e], cap := Touch(FillOf(sc)).cap, moves := Touch(FillOf(sc)).moves)
  }

  /** `register_insert`: a fresh id; the name, then the id, become keys unless taken. */
  function Insert(w: World, s: nat, name: string, node: Node): World
    requires s < |w.scopes|
  {
    var e := Entry(w.next, name, node);
    var named := if name != "" then PutKey(w.scopes[s], name, e) else w.scopes[s];
    w.(scopes := w.scopes[s := PutKey(named, Decimal(e.eid), e)], next := w.next + 1)
  }

  function MakeChild(w: World, s: nat, exprOnly: bool): World {
    w.(scopes := w.scopes + [EMPTY_SCOPE.(parent := Some(s))],
       exprScopes := w.exprScopes + if exprOnly then {|w.scopes|} else {})
  }

  // ----- Growth -----

  /** Nothing registered is lost or changed. */
  ghost predicate Kept(w: World, w': World) {
    && |w.scopes| <= |w'.scopes| && w.next <= w'.next && w.exprScopes <= w'.exprScopes
    && (forall s | 0 <= s < |w.scopes| :: w'.scopes[s].parent == w.scopes[s].parent && w'.scopes[s].moves >= w.scopes[s].moves)
    && (forall s, k | 0 <= s < |w.scopes| && k in w.scopes[s].table :: k in w'.scopes[s].table && w'.scopes[s].table[k] == w.scopes[s].table[k])
    && (forall s | 0 <= s < |w.scopes| :: s in w'.exprScopes ==> s in w.exprScopes)
  }

  /** The scopes numbered `from` and up have only gained expressions, under fresh ids. */
  ghost predicate OnlyExprs(w: World, w': World, from: nat) {
    |w.scopes| <= |w'.scopes| &&
    forall s, k | from <= s < |w.scopes| && k in w'.scopes[s].table && k !in w.scopes[s].table ::
      !IsName(k) && IsExpr(w'.scopes[s].table[k].node) && w'.scopes[s].table[k].eid >= w.next
  }

  ghost predicate Grows(w: World, w': World, from: nat) {
    Kept(w, w') && OnlyExprs(w, w', from)
  }

  /** Of the scopes that exist in `w`, only `s` may have changed. */
  ghost predicate SameElsewhere(w: World, w': World, s: nat) {
    |w.scopes| <= |w'.scopes| && forall x | 0 <= x < |w.scopes| && x != s :: w'.scopes[x] == w.scopes[x]
  }

  lemma GrowsTransitive(w: World, w1: World, w2: World, from: nat)
    requires Grows(w, w1, from) && Grows(w1, w2, from)
    ensures Grows(w, w2, from)
  {
    forall s, k | 0 <= s < |w.scopes| && k in w.scopes[s].table
      ensures k in w2.scopes[s].table && w2.scopes[s].table[k] == w.scopes[s].table[k]
    {
      assert k in w1.scopes[s].table;
    }
    forall s, k | from <= s < |w.scopes| && k in w2.scopes[s].table && k !in w.scopes[s].table
      ensures !IsName(k) && IsExpr(w2.scopes[s].table[k].node) && w2.scopes[s].table[k].eid >= w.next
    {
      if k in w1.scopes[s].table {
        assert w2.scopes[s].table[k] == w1.scopes[s].table[k];
      }
    }
  }

  lemma OnlyExprsAbove(w: World, w': World, from: nat, from': nat)
    requires OnlyExprs(w, w', from) && from <= from'
    ensures OnlyExprs(w, w', from')
  {
    forall s, k | from' <= s < |w.scopes| && k in w'.scopes[s].table && k !in w.scopes[s].table
      ensures !IsName(k) && IsExpr(w'.scopes[s].table[k].node) && w'.scopes[s].table[k].eid >= w.next
    {
    }
  }

  lemma GrowsWeaken(w: World, w': World, from: nat, from': nat)
    requires Grows(w, w', from) && from <= from'
    ensures Grows(w, w', from')
  {
  }

  lemma FreshIdUnused(w: World, s: nat, i: nat)
    requires Valid(w) && s < |w.scopes| && i >= w.next
    ensures Decimal(i) !in w.Table(s)
  {
    if Decimal(i) in w.Table(s) {
      assert KeyValid(w, s, Decimal(i));
      DecimalInjective(i, w.Table(s)[Decimal(i)].eid);
    }
  }

  lemma InsertGrows(w: World, s: nat, name: string, node: Node)
    requires Valid(w) && s < |w.scopes|
    ensures var w' := Insert(w, s, name, node);
            && Kept(w, w') && OnlyExprs(w, w', s + 1)
            && (name == "" && IsExpr(node) ==> OnlyExprs(w, w', 0))
            && GetById(w', s, w.next) == Some(Entry(w.next, name, node))
            && Decimal(w.next) !in w.Table(s)
  {
    FreshIdUnused(w, s, w.next);
  }

  lemma InsertValid(w: World, s: nat, name: string, node: Node)
    requires Valid(w) && s < |w.scopes|
    requires name == "" || (IsName(name) && s !in w.exprScopes)
    ensures Valid(Insert(w, s, name, node))
  {
    InsertKeepsKeys(w, s, name, node);
    InsertKeepsIdsUnique(w, s, name, node);
    InsertKeepsShape(w, s, name, node);
    hide KeyValid, Insert;
  }

  lemma InsertKeepsKeys(w: World, s: nat, name: string, node: Node)
    requires Valid(w) && s < |w.scopes|
    requires name == "" || (IsName(name) && s !in w.exprScopes)
    ensures var w' := Insert(w, s, name, node);
            forall x, k | 0 <= x < |w'.scopes| && k in w'.scopes[x].table :: KeyValid(w', x, k)
  {
    FreshIdUnused(w, s, w.next);
    var w' := Insert(w, s, name, node);
    forall x, k | 0 <= x < |w'.scopes| && k in w'.scopes[x].table
      ensures KeyValid(w', x, k)
    {
      if k in w.scopes[x].table {
        assert KeyValid(w, x, k);
      }
    }
  }

  lemma InsertKeepsShape(w: World, s: nat, name: string, node: Node)
    requires Valid(w) && s < |w.scopes|
    ensures var w' := Insert(w, s, name, node);
            && w'.next >= 1 && (forall x | x in w'.exprScopes :: x < |w'.scopes|)
            && (forall x | 0 <= x < |w'.scopes| :: w'.scopes[x].parent.Some? ==> w'.scopes[x].parent.value < x)
            && (forall x | 0 <= x < |w'.scopes| && w'.scopes[x].moves == 0 :: w'.scopes[x].cap == 0 && w'.scopes[x].table == map[])
  {
  }

  lemma InsertKeepsIdsUnique(w: World, s: nat, name: string, node: Node)
    requires Valid(w) && s < |w.scopes|
    requires name == "" || IsName(name)
    ensures var w' := Insert(w, s, name, node);
            forall x, y, i: nat | 0 <= x < |w'.scopes| && 0 <= y < |w'.scopes| && Decimal(i) in w'.scopes[x].table && Decimal(i) in w'.scopes[y].table ::
              x == y
  {
    var w' := Insert(w, s, name, node);
    forall x, y, i: nat | 0 <= x < |w'.scopes| && 0 <= y < |w'.scopes| && Decimal(i) in w'.scopes[x].table && Decimal(i) in w'.scopes[y].table
      ensures x == y
    {
      if i == w.next {
        FreshIdUnused(w, x, i);
        FreshIdUnused(w, y, i);
      } else if Decimal(i) == Decimal(w.next) {
        DecimalInjective(i, w.next);
      }
    }
  }

  lemma MakeChildValid(w: World, s: nat, exprOnly: bool)
    requires Valid(w) && s < |w.scopes|
    ensures var w' := MakeChild(w, s, exprOnly);
            Valid(w') && Grows(w, w', 0) && w'.Table(|w.scopes|) == map[] && w'.scopes[|w.scopes|].parent == Some(s)
  {
    var w' := MakeChild(w, s, exprOnly);
    forall x, k | 0 <= x < |w'.scopes| && k in w'.scopes[x].table
      ensures KeyValid(w', x, k)
    {
      assert KeyValid(w, x, k);
    }
  }

  /** Names resolve as before when only expressions have been added. */
  lemma {:induction false} LookupStable(w: World, w': World, s: nat, n: string)
    requires Valid(w) && Grows(w, w', 0) && s < |w.scopes| && IsName(n)
    ensures Lookup(w', s, n) == Lookup(w, s, n)
  {
    if n !in w.Table(s) && w.scopes[s].parent.Some? {
      LookupStable(w, w', w.scopes[s].parent.value, n);
    }
  }

  /** A scope made for expressions resolves names as its parent does. */
  lemma LookupThroughExprScope(w: World, s: nat, n: string)
    requires Valid(w) && s < |w.scopes| && s in w.exprScopes && w.scopes[s].parent.Some? && IsName(n)
    ensures Lookup(w, s, n) == Lookup(w, w.scopes[s].parent.value, n)
  {
    assert n in w.Table(s) ==> KeyValid(w, s, n);
  }

  // ----- When buckets move -----

  /** Puts keep buckets in place exactly as long as none finds its table at the limit. */
  lemma {:induction false} MovedIff(f: Fill, n: nat)
    ensures After(f, n).count == f.count + n && After(f, n).moves >= f.moves
    ensures After(f, n).moves == f.moves <==> n == 0 || HasRoom(f, n)
    ensures After(f, n).moves == f.moves ==> After(f, n).cap == f.cap
  {
    Khashl.LoadLimit(f.cap);
    if n != 0 {
      Khashl.LoadLimit(After(f, n - 1).cap);
      MovedIff(f, n - 1);
    }
  }

  lemma {:induction false} AfterAfter(f: Fill, m: nat, n: nat)
    ensures After(After(f, m), n) == After(f, m + n)
  {
    if n != 0 {
      AfterAfter(f, m, n - 1);
    }
  }

  lemma InsertFill(w: World, s: nat, name: string, node: Node)
    requires Valid(w) && s < |w.scopes| && (name == "" || IsName(name))
    ensures var f := FillOf(w.scopes[s]);
            var named := if name == "" then f else if name in w.Table(s) then Touch(f) else Fresh(f);
            FillOf(Insert(w, s, name, node).scopes[s]) == Fresh(named)
  {
    FreshIdUnused(w, s, w.next);
  }

  /** From `w0` to `w` only expressions have been added: `n` of them to scope `s`, the others
      to new scopes. */
  ghost predicate Registered(w0: World, w: World, s: nat, n: nat) {
    && Valid(w) && Grows(w0, w, 0) && SameElsewhere(w0, w, s)
    && s < |w0.scopes| && FillOf(w.scopes[s]) == After(FillOf(w0.scopes[s]), n)
  }

  lemma RegisteredMore(w0: World, w1: World, w2: World, s: nat, m: nat, n: nat)
    requires Registered(w0, w1, s, m) && Registered(w1, w2, s, n)
    ensures Registered(w0, w2, s, m + n)
  {
    hide Valid, Kept, OnlyExprs, FillOf, After;
    GrowsTransitive(w0, w1, w2, 0);
    AfterAfter(FillOf(w0.scopes[s]), m, n);
  }

  lemma RegisteredIs(w0: World, w: World, s: nat, n: nat)
    requires Registered(w0, w, s, n)
    ensures Valid(w) && Grows(w0, w, 0) && s < |w0.scopes| <= |w.scopes|
  {
  }

  lemma NothingRegistered(w: World, s: nat)
    requires Valid(w) && s < |w.scopes|
    ensures Registered(w, w, s, 0)
  {
  }

  lemma InsertRegisters(w: World, s: nat, node: Node)
    requires Valid(w) && s < |w.scopes| && IsExpr(node)
    ensures Registered(w, Insert(w, s, "", node), s, 1)
  {
    InsertGrows(w, s, "", node);
    InsertValid(w, s, "", node);
    InsertFill(w, s, "", node);
    assert After(FillOf(w.scopes[s]), 1) == Fresh(After(FillOf(w.scopes[s]), 0));
  }

  // ----- Pointers that outlive their buckets -----

  /** `n` more new keys find room: three quarters of the buckets may be used. */
  predicate HasRoom(f: Fill, n: nat) {
    4 * (f.count + n) <= 3 * f.cap
  }

  /** No buckets have moved but to make the first of a table. */
  ghost predicate Settled(w: World, w': World) {
    forall x | 0 <= x < |w'.scopes| ::
      w'.scopes[x].moves <= 1 || (x < |w.scopes| && w'.scopes[x].moves == w.scopes[x].moves)
  }

  /** Between `w0` and `w` a stale pointer was read exactly if it was not `steady`; and then
      buckets have moved. */
  ghost predicate Watched(w0: World, was: bool, w: World, now: bool, steady: bool) {
    (now <==> was || !steady) && (now ==> was || !Settled(w0, w))
  }

  /** Between `w0` and `w` stale pointers were read only if buckets have moved. */
  ghost predicate Calm(w0: World, was: bool, w: World, now: bool) {
    (was ==> now) && (now ==> was || !Settled(w0, w))
  }

  lemma CalmSelf(w: World, b: bool)
    ensures Calm(w, b, w, b)
  {
  }

  lemma CalmMore(w0: World, b0: bool, w1: World, b1: bool, w2: World, b2: bool)
    requires Kept(w0, w1) && Kept(w1, w2) && Calm(w0, b0, w1, b1) && Calm(w1, b1, w2, b2)
    ensures Calm(w0, b0, w2, b2)
  {
    hide Kept, Settled;
    if Settled(w0, w2) {
      SettledParts(w0, w1, w2);
    }
  }

  /** A pointer into scope `s` was taken in `w1` and is read in `w2`. */
  lemma CalmSlot(w0: World, b0: bool, w1: World, w2: World, b2: bool, s: nat)
    requires Kept(w0, w1) && Kept(w1, w2) && s < |w1.scopes| && w1.scopes[s].moves >= 1 && Calm(w0, b0, w2, b2)
    ensures s < |w2.scopes|
    ensures Calm(w0, b0, w2, b2 || w2.scopes[s].moves != w1.scopes[s].moves)
  {
  }

  lemma WatchedIsCalm(w0: World, b0: bool, w: World, b: bool, p: bool)
    requires Watched(w0, b0, w, b, p)
    ensures Calm(w0, b0, w, b)
  {
    hide Settled;
  }

  /** A table that holds an entry has buckets, which have moved to be there. */
  lemma HeldMoves(w: World, s: nat, id: nat)
    requires Valid(w) && s < |w.scopes| && GetById(w, s, id).Some?
    ensures w.scopes[s].moves >= 1
  {
  }

  lemma SettledParts(w0: World, w1: World, w2: World)
    requires Kept(w0, w1) && Kept(w1, w2) && Settled(w0, w2)
    ensures Settled(w0, w1) && Settled(w1, w2)
  {
    forall x | 0 <= x < |w1.scopes|
      ensures w1.scopes[x].moves <= 1 || (x < |w0.scopes| && w1.scopes[x].moves == w0.scopes[x].moves)
    {
      assert w1.scopes[x].moves <= w2.scopes[x].moves;
    }
  }

  lemma WatchedMore(w0: World, b0: bool, w1: World, b1: bool, w2: World, b2: bool, p: bool, q: bool)
    requires Kept(w0, w1) && Kept(w1, w2) && Watched(w0, b0, w1, b1, p) && Watched(w1, b1, w2, b2, q)
    ensures Watched(w0, b0, w2, b2, p && q)
  {
    hide Kept, Settled;
    if Settled(w0, w2) {
      SettledParts(w0, w1, w2);
    }
  }

  lemma WatchedNothing(w: World, b: bool)
    ensures Watched(w, b, w, b, true)
  {
  }

  /** A pointer into scope `s` was taken in `w1` and is read in `w2`. */
  lemma WatchedSlot(w0: World, b0: bool, w1: World, w2: World, b2: bool, s: nat, p: bool)
    requires Kept(w0, w1) && Kept(w1, w2) && s < |w1.scopes| && w1.scopes[s].moves >= 1
    requires Watched(w0, b0, w2, b2, p)
    ensures s < |w2.scopes|
    ensures var stays := w2.scopes[s].moves == w1.scopes[s].moves; Watched(w0, b0, w2, b2 || !stays, p && stays)
  {
  }

  lemma {:induction false} RegisteredMoves(w0: World, w: World, s: nat, n: nat)
    requires Valid(w0) && Registered(w0, w, s, n) && n > 0
    ensures s < |w.scopes| && w.scopes[s].moves >= 1
  {
    var f := FillOf(w0.scopes[s]);
    MovedIff(f, n - 1);
    MovedIff(f, n);
  }
}

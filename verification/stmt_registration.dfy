/** Registering statement lists: each statement gets an entry in the scope of its list, under
    ids in source order, and a name means the first statement that declares it. */
module StmtRegistration {
  import opened Options
  import opened Decimals
  import opened Registry
  import opened Steadiness
  import opened StmtFills
  import opened Lowering

  predicate WellNamedOpt(e: Option<Ast>) {
    e.Some? ==> WellNamed(e.value)
  }

  predicate WellNamedStmt(s: Stmt) {
    match s
    case If(c, b, eb) => WellNamed(c) && WellNamedStmts(b) && WellNamedStmts(eb)
    case While(c, b) => WellNamed(c) && WellNamedStmts(b)
    case For(_, i, b) => WellNamed(i) && WellNamedStmts(b)
    case Return(v) => WellNamedOpt(v)
    case ExprStmt(e) => WellNamed(e)
    case Assign(_, t, v) => WellNamed(t) && WellNamed(v)
    case _ => IsName(s.name) && WellNamedOpt(s.init)
  }

  predicate WellNamedStmts(ss: seq<Stmt>) {
    ss == [] || (WellNamedStmts(ss[..|ss| - 1]) && WellNamedStmt(ss[|ss| - 1]))
  }

  // ----- What registration leaves behind -----

  /** The ids below `hi` under which scope `t` holds statements, in order. */
  function StmtIds(w: World, t: nat, hi: nat): seq<nat>
    requires t < |w.scopes|
  {
    if hi == 0 then [] else
      StmtIds(w, t, hi - 1) +
      (match GetById(w, t, hi - 1)
       case Some(e) => if IsStmt(e.node) then [hi - 1] else []
       case None => [])
  }

  /** A scope made for one expression, under `t`. */
  ghost predicate HolderRep(w: World, t: nat, c: nat, id: nat, e: Ast) {
    c < |w.scopes| && c in w.exprScopes && w.scopes[c].parent == Some(t) && Rep(w, c, id, e)
  }

  ghost predicate StmtRep(w: World, t: nat, id: nat, s: Stmt)
    requires t < |w.scopes|
    decreases s, 1
  {
    && GetById(w, t, id).Some?
    && GetById(w, t, id).value.eid == id && GetById(w, t, id).value.name == DeclName(s)
    && StmtNodeRep(w, t, GetById(w, t, id).value.node, s)
  }

  /** `var` registers its initialiser in a scope of its own; `let` and `const` register it
      in place, unless it is a plain call, which they drop. */
  ghost predicate StmtNodeRep(w: World, t: nat, node: Node, s: Stmt)
    requires t < |w.scopes|
    decreases s, 0
  {
    match s
    case Var(_, init) =>
      node.NVar? && node.init.Some? == init.Some?
      && (init.Some? ==> HolderRep(w, t, node.init.value.scope, node.init.value.id, init.value))
    case Let(_, init) => node.NLet? && InPlaceRep(w, t, node.slot, init)
    case Const(_, init) => node.NConst? && InPlaceRep(w, t, node.slot, init)
    case If(c, b, eb) =>
      node.NIf? && HolderRep(w, t, node.condChild, node.condId, c)
      && BodyRep(w, t, node.thenChild, BLANK, b) && BodyRep(w, t, node.elseChild, BLANK, eb)
    case While(c, b) => node.NWhile? && HolderRep(w, t, node.condChild, node.condId, c) && BodyRep(w, t, node.bodyChild, BLANK, b)
    case For(v, i, b) =>
      node.NFor? && node.var_ == v && HolderRep(w, t, node.iterChild, node.iterId, i) && BodyRep(w, t, node.bodyChild, BLANK, b)
    case Return(None) => node == NReturn(0)
    case Return(Some(e)) => node.NReturn? && Rep(w, t, node.exprId, e)
    case ExprStmt(e) => node.NExprStmt? && Rep(w, t, node.exprId, e)
    case Assign(op, tgt, v) => node.NAssign? && node.op == op && Rep(w, t, node.targetId, tgt) && Rep(w, t, node.valueId, v)
  }

  ghost predicate InPlaceRep(w: World, t: nat, slot: Option<Slot>, init: Option<Ast>)
    requires t < |w.scopes|
  {
    if Dropped(init) then slot == None
    else slot.Some? && slot.value.moves <= w.scopes[t].moves && Rep(w, t, slot.value.id, init.value)
  }

  /** The pointer a declaration keeps, if it does, was taken when the buckets had moved so often. */
  predicate SlotTakenAt(node: Node, moves: nat) {
    (node.NLet? || node.NConst?) && node.slot.Some? ==> node.slot.value.moves == moves
  }

  /** Scope `c` under `t` was filled from the list `ss`. */
  ghost predicate BodyRep(w: World, t: nat, c: nat, b: Start, ss: seq<Stmt>)
    decreases ss, 3
  {
    c < |w.scopes| && w.scopes[c].parent == Some(t) && t < c && ScopeRep(w, c, b, ss)
  }

  /** The statements of scope `c` are those of `ss`, in order, and a name that no parameter
      has means the first statement that declares it. */
  ghost predicate ScopeRep(w: World, c: nat, b: Start, ss: seq<Stmt>)
    requires c < |w.scopes|
    decreases ss, 2
  {
    var ids := StmtIds(w, c, w.next);
    ListRep(w, c, b, ids, ss) && NamesRep(w, c, b, ids, ss)
  }

  ghost predicate ListRep(w: World, c: nat, b: Start, ids: seq<nat>, ss: seq<Stmt>)
    requires c < |w.scopes|
    decreases ss, 1
  {
    |ids| == |ss| &&
    (ss == [] ||
     (&& ListRep(w, c, b, ids[..|ss| - 1], ss[..|ss| - 1]) && StmtRep(w, c, ids[|ss| - 1], ss[|ss| - 1])
      && SlotTakenAt(GetById(w, c, ids[|ss| - 1]).value.node, SlotMoves(b, ss, |ss| - 1))))
  }

  // ----- How full registration leaves a scope -----

  /** Scope `c` has just been filled from `ss`, and so have the bodies in it. */
  ghost predicate FullBody(w: World, c: nat, b: Start, ss: seq<Stmt>)
    decreases ss, 2
  {
    c < |w.scopes| && FillOf(w.scopes[c]) == FillAfter(b, ss) && FullList(w, c, StmtIds(w, c, w.next), ss)
  }

  ghost predicate FullList(w: World, c: nat, ids: seq<nat>, ss: seq<Stmt>)
    decreases ss, 1
  {
    && c < |w.scopes| && |ids| == |ss|
    && (ss == [] ||
        (&& FullList(w, c, ids[..|ss| - 1], ss[..|ss| - 1])
         && GetById(w, c, ids[|ss| - 1]).Some? && FullNode(w, GetById(w, c, ids[|ss| - 1]).value.node, ss[|ss| - 1])))
  }

  ghost predicate FullNode(w: World, node: Node, s: Stmt)
    decreases s, 0
  {
    match s
    case If(_, b, eb) => node.NIf? && FullBody(w, node.thenChild, BLANK, b) && FullBody(w, node.elseChild, BLANK, eb)
    case While(_, b) => node.NWhile? && FullBody(w, node.bodyChild, BLANK, b)
    case For(_, _, b) => node.NFor? && FullBody(w, node.bodyChild, BLANK, b)
    case _ => true
  }

  /** The id of the first statement of the list that declares `n`. */
  function FirstDeclaration(ids: seq<nat>, ss: seq<Stmt>, n: string): Option<nat>
    requires |ids| == |ss|
  {
    if ss == [] then None else
      var k := |ss| - 1;
      var earlier := FirstDeclaration(ids[..k], ss[..k], n);
      if earlier.Some? then earlier else if DeclName(ss[k]) == n then Some(ids[k]) else None
  }

  ghost predicate NamesRep(w: World, c: nat, b: Start, ids: seq<nat>, ss: seq<Stmt>)
    requires c < |w.scopes|
  {
    |ids| == |ss| && forall n | IsName(n) :: NameRep(w, c, b, ids, ss, n)
  }

  ghost predicate NameRep(w: World, c: nat, b: Start, ids: seq<nat>, ss: seq<Stmt>, n: string)
    requires c < |w.scopes| && |ids| == |ss|
  {
    if n in b.names then n in w.Table(c) && w.Table(c)[n].node == NParam(b.names[n])
    else FirstDeclaration(ids, ss, n) == Declared(w, c, n)
  }

  /** What a name declared in scope `t` itself refers to. */
  function Declared(w: World, t: nat, n: string): Option<nat>
    requires t < |w.scopes|
  {
    if n in w.Table(t) then Some(w.Table(t)[n].eid) else None
  }

  // ----- Stability under growth by expressions -----

  lemma EntryStable(w: World, w': World, c: nat, i: nat)
    requires Valid(w) && Valid(w') && c < |w.scopes| && Kept(w, w') && OnlyExprs(w, w', c)
    ensures i < w.next ==> GetById(w', c, i) == GetById(w, c, i)
    ensures i >= w.next ==> GetById(w, c, i) == None && (GetById(w', c, i).Some? ==> IsExpr(GetById(w', c, i).value.node))
  {
    if i >= w.next {
      FreshIdUnused(w, c, i);
    }
    if Decimal(i) in w'.Table(c) && Decimal(i) !in w.Table(c) {
      assert KeyValid(w', c, Decimal(i));
      DecimalInjective(i, w'.Table(c)[Decimal(i)].eid);
    }
  }

  lemma {:induction false} StmtIdsStable(w: World, w': World, c: nat, hi: nat)
    requires Valid(w) && Valid(w') && c < |w.scopes| && Kept(w, w') && OnlyExprs(w, w', c)
    ensures StmtIds(w', c, hi) == StmtIds(w, c, if hi <= w.next then hi else w.next)
  {
    hide Valid, Kept, OnlyExprs, GetById;
    if hi != 0 {
      StmtIdsStable(w, w', c, hi - 1);
      EntryStable(w, w', c, hi - 1);
    }
  }

  lemma {:induction false} ScopeRepStable(w: World, w': World, c: nat, b: Start, ss: seq<Stmt>)
    requires Valid(w) && Valid(w') && c < |w.scopes| && Kept(w, w') && OnlyExprs(w, w', c) && ScopeRep(w, c, b, ss)
    ensures ScopeRep(w', c, b, ss) && StmtIds(w', c, w'.next) == StmtIds(w, c, w.next)
    decreases ss, 2
  {
    var ids := StmtIds(w, c, w.next);
    NextGrows(w, w');
    StmtIdsStable(w, w', c, w'.next);
    ListRepStable(w, w', c, b, ids, ss);
    NamesRepStable(w, w', c, b, ids, ss);
    hide *;
    ScopeRepIf(w, c, b, ss);
    ScopeRepIf(w', c, b, ss);
  }

  lemma ScopeRepIf(w: World, c: nat, b: Start, ss: seq<Stmt>)
    requires c < |w.scopes|
    ensures ScopeRep(w, c, b, ss) <==> ListRep(w, c, b, StmtIds(w, c, w.next), ss) && NamesRep(w, c, b, StmtIds(w, c, w.next), ss)
  {
    hide ListRep, NamesRep, StmtIds;
  }

  lemma NamesRepStable(w: World, w': World, c: nat, b: Start, ids: seq<nat>, ss: seq<Stmt>)
    requires c < |w.scopes| && Kept(w, w') && OnlyExprs(w, w', c) && NamesRep(w, c, b, ids, ss)
    ensures NamesRep(w', c, b, ids, ss)
  {
    forall n | IsName(n)
      ensures NameRep(w', c, b, ids, ss, n)
    {
      assert NameRep(w, c, b, ids, ss, n);
    }
  }

  lemma {:induction false} ListRepStable(w: World, w': World, c: nat, b: Start, ids: seq<nat>, ss: seq<Stmt>)
    requires Valid(w) && Valid(w') && c < |w.scopes| && Kept(w, w') && OnlyExprs(w, w', c + 1) && ListRep(w, c, b, ids, ss)
    ensures ListRep(w', c, b, ids, ss)
    decreases ss, 1
  {
    if ss != [] {
      ListRepStable(w, w', c, b, ids[..|ss| - 1], ss[..|ss| - 1]);
      StmtRepStable(w, w', c, ids[|ss| - 1], ss[|ss| - 1]);
    }
  }

  lemma {:induction false} StmtRepStable(w: World, w': World, t: nat, id: nat, s: Stmt)
    requires Valid(w) && Valid(w') && t < |w.scopes| && Kept(w, w') && OnlyExprs(w, w', t + 1) && StmtRep(w, t, id, s)
    ensures StmtRep(w', t, id, s)
    decreases s, 1
  {
    StmtNodeRepStable(w, w', t, GetById(w, t, id).value.node, s);
  }

  lemma {:induction false} StmtNodeRepStable(w: World, w': World, t: nat, node: Node, s: Stmt)
    requires Valid(w) && Valid(w') && t < |w.scopes| && Kept(w, w') && OnlyExprs(w, w', t + 1) && StmtNodeRep(w, t, node, s)
    ensures StmtNodeRep(w', t, node, s)
    decreases s, 0
  {
    hide ScopeRep, Rep, Valid;
    match s
    case Var(_, init) =>
      if init.Some? {
        RepKept(w, w', node.init.value.scope, node.init.value.id, init.value);
      }
    case Let(_, init) => InPlaceRepStable(w, w', t, node.slot, init);
    case Const(_, init) => InPlaceRepStable(w, w', t, node.slot, init);
    case If(c, b, eb) =>
      RepKept(w, w', node.condChild, node.condId, c);
      BodyRepKept(w, w', t, node.thenChild, BLANK, b);
      BodyRepKept(w, w', t, node.elseChild, BLANK, eb);
    case While(c, b) =>
      RepKept(w, w', node.condChild, node.condId, c);
      BodyRepKept(w, w', t, node.bodyChild, BLANK, b);
    case For(_, i, b) =>
      RepKept(w, w', node.iterChild, node.iterId, i);
      BodyRepKept(w, w', t, node.bodyChild, BLANK, b);
    case Return(None) =>
    case Return(Some(e)) => RepKept(w, w', t, node.exprId, e);
    case ExprStmt(e) => RepKept(w, w', t, node.exprId, e);
    case Assign(_, tgt, v) =>
      RepKept(w, w', t, node.targetId, tgt);
      RepKept(w, w', t, node.valueId, v);
  }

  lemma {:induction false} BodyRepKept(w: World, w': World, t: nat, c: nat, b: Start, ss: seq<Stmt>)
    requires Valid(w) && Valid(w') && t < |w.scopes| && Kept(w, w') && OnlyExprs(w, w', t + 1) && BodyRep(w, t, c, b, ss)
    ensures BodyRep(w', t, c, b, ss)
    decreases ss, 3
  {
    hide ScopeRep, Valid;
    OnlyExprsAbove(w, w', t + 1, c);
    hide OnlyExprs;
    ScopeRepStable(w, w', c, b, ss);
  }

  lemma InPlaceRepStable(w: World, w': World, t: nat, slot: Option<Slot>, init: Option<Ast>)
    requires t < |w.scopes| && Kept(w, w') && InPlaceRep(w, t, slot, init)
    ensures InPlaceRep(w', t, slot, init)
  {
    if slot.Some? {
      RepKept(w, w', t, slot.value.id, init.value);
    }
  }

  /** More entries for scope `t` leave the bodies of later scopes as they are. */
  lemma {:induction false} FullBodyKept(w: World, w': World, t: nat, c: nat, b: Start, ss: seq<Stmt>)
    requires Valid(w) && Valid(w') && Kept(w, w') && SameElsewhere(w, w', t) && t < c < |w.scopes|
    requires ScopeRep(w, c, b, ss) && FullBody(w, c, b, ss)
    ensures FullBody(w', c, b, ss)
    decreases ss, 2
  {
    hide Valid, Kept, StmtIds, NamesRep, FillAfter;
    assert OnlyExprs(w, w', c);
    StmtIdsStable(w, w', c, w'.next);
    NextGrows(w, w');
    FullListKept(w, w', t, c, b, StmtIds(w, c, w.next), ss);
  }

  lemma NextGrows(w: World, w': World)
    requires Kept(w, w')
    ensures w.next <= w'.next
  {
  }

  lemma {:induction false} FullListKept(w: World, w': World, t: nat, c: nat, b: Start, ids: seq<nat>, ss: seq<Stmt>)
    requires Valid(w) && Valid(w') && Kept(w, w') && SameElsewhere(w, w', t) && t <= c < |w.scopes|
    requires ListRep(w, c, b, ids, ss) && FullList(w, c, ids, ss)
    ensures FullList(w', c, ids, ss)
    decreases ss, 1
  {
    if ss != [] {
      hide Valid, StmtNodeRep, FullNode;
      var k := |ss| - 1;
      FullListKept(w, w', t, c, b, ids[..k], ss[..k]);
      FullNodeKept(w, w', t, c, GetById(w, c, ids[k]).value.node, ss[k]);
    }
  }

  lemma {:induction false} FullNodeKept(w: World, w': World, t: nat, c: nat, node: Node, s: Stmt)
    requires Valid(w) && Valid(w') && Kept(w, w') && SameElsewhere(w, w', t) && t <= c < |w.scopes|
    requires StmtNodeRep(w, c, node, s) && FullNode(w, node, s)
    ensures FullNode(w', node, s)
    decreases s, 0
  {
    hide Valid, Kept, SameElsewhere, ScopeRep, FullBody, HolderRep, Rep;
    match s
    case If(_, b, eb) =>
      FullBodyKept(w, w', t, node.thenChild, BLANK, b);
      FullBodyKept(w, w', t, node.elseChild, BLANK, eb);
    case While(_, b) => FullBodyKept(w, w', t, node.bodyChild, BLANK, b);
    case For(_, _, b) => FullBodyKept(w, w', t, node.bodyChild, BLANK, b);
    case _ =>
  }

  // ----- Registration -----

  /** `register_stmt`: the sub-expressions and bodies first, then the statement itself, so
      its id is the last one taken.  A child scope is numbered when it is first filled. */
  method RegisterStmt(r: Registrar, t: nat, s: Stmt) returns (id: nat)
    requires Valid(r.W()) && t < |r.scopes| && t !in r.exprScopes && WellNamedStmt(s)
    modifies r
    ensures Valid(r.W()) && Kept(old(r.W()), r.W()) && SameElsewhere(old(r.W()), r.W(), t)
    ensures StmtAdded(old(r.W()), r.W(), t, id, s)
    ensures Watched(old(r.W()), old(r.stale), r.W(), r.stale, SteadyStmt(old(FillOf(r.scopes[t])), s))
    decreases s, 1
  {
    hide *;
    ghost var w0, b0, f := r.W(), r.stale, FillOf(r.scopes[t]);
    r.Now();
    StmtNames(s);
    var node := BuildNode(r, t, s);
    ghost var w1 := r.W();
    r.Now();
    StaysStmtScope(w0, w1, t, OwnSize(s));
    id := r.InsertEntry(t, DeclName(s), node);
    StmtInserted(w0, w1, r.W(), t, id, node, s);
    WatchedAcross(w0, b0, w1, r.W(), r.stale, t, OwnSize(s), DeclName(s), node, SteadyStmt(f, s));
  }

  lemma WatchedAcross(w0: World, b0: bool, w1: World, w2: World, b: bool, t: nat, n: nat, name: string, node: Node, p: bool)
    requires Registered(w0, w1, t, n) && t < |w1.scopes| && w2 == Insert(w1, t, name, node) && Watched(w0, b0, w1, b, p)
    ensures Watched(w0, b0, w2, b, p)
  {
    RegisteredIs(w0, w1, t, n);
    InsertGrows(w1, t, name, node);
    WatchedNothing(w1, b);
    hide Valid, Kept, OnlyExprs, Insert, Watched;
    WatchedMore(w0, b0, w1, b, w2, b, p, true);
  }

  /** Scope `t` has one statement more, under the name it declares if that was free. */
  ghost predicate StmtAdded(w0: World, w: World, t: nat, id: nat, s: Stmt) {
    && t < |w0.scopes| <= |w.scopes| && StmtRep(w, t, id, s) && GetById(w, t, id).Some?
    && StmtIds(w, t, w.next) == StmtIds(w0, t, w0.next) + [id]
    && (forall n | IsName(n) :: Declared(w, t, n) ==
          if Declared(w0, t, n).Some? then Declared(w0, t, n) else if n == DeclName(s) then Some(id) else None)
    && FillOf(w.scopes[t]) == WithStmt(FillOf(w0.scopes[t]), s, DeclName(s) in w0.Table(t))
    && FullNode(w, GetById(w, t, id).value.node, s)
    && SlotTakenAt(GetById(w, t, id).value.node, After(FillOf(w0.scopes[t]), OwnSize(s)).moves)
  }

  lemma StmtNames(s: Stmt)
    requires WellNamedStmt(s)
    ensures DeclName(s) == "" || IsName(DeclName(s))
  {
  }

  lemma StaysStmtScope(w0: World, w1: World, t: nat, n: nat)
    requires Registered(w0, w1, t, n) && t !in w0.exprScopes
    ensures Valid(w1) && t < |w1.scopes| && t !in w1.exprScopes
  {
  }

  lemma StmtInserted(w0: World, w1: World, w2: World, t: nat, id: nat, node: Node, s: Stmt)
    requires Valid(w0) && Registered(w0, w1, t, OwnSize(s)) && t < |w1.scopes| && t !in w1.exprScopes && WellNamedStmt(s)
    requires StmtNodeRep(w1, t, node, s) && FullNode(w1, node, s) && SlotTakenAt(node, w1.scopes[t].moves) && IsStmt(node)
    requires w2 == Insert(w1, t, DeclName(s), node) && id == w1.next
    ensures Valid(w2) && Kept(w0, w2) && SameElsewhere(w0, w2, t) && StmtAdded(w0, w2, t, id, s)
  {
    hide *;
    StmtNames(s);
    RegisteredIs(w0, w1, t, OwnSize(s));
    InsertedKept(w0, w1, w2, t, node, s);
    InsertedRep(w1, w2, t, id, node, s);
    InsertedStmt(w0, w1, t, DeclName(s), node);
    InsertedFill(w0, w1, w2, t, node, s);
    forall n | IsName(n)
      ensures Declared(w2, t, n) ==
        if Declared(w0, t, n).Some? then Declared(w0, t, n) else if n == DeclName(s) then Some(id) else None
    {
      InsertedName(w0, w1, t, DeclName(s), node, n);
    }
    StmtAddedIf(w0, w1, w2, t, id, node, s);
  }

  lemma StmtAddedIf(w0: World, w1: World, w2: World, t: nat, id: nat, node: Node, s: Stmt)
    requires t < |w0.scopes| <= |w2.scopes| && t < |w1.scopes| && StmtRep(w2, t, id, s) && FullNode(w2, node, s)
    requires GetById(w2, t, id).Some? && GetById(w2, t, id).value.node == node
    requires SlotTakenAt(node, w1.scopes[t].moves) && w1.scopes[t].moves == After(FillOf(w0.scopes[t]), OwnSize(s)).moves
    requires StmtIds(w2, t, w2.next) == StmtIds(w0, t, w0.next) + [id]
    requires forall n | IsName(n) :: Declared(w2, t, n) ==
               if Declared(w0, t, n).Some? then Declared(w0, t, n) else if n == DeclName(s) then Some(id) else None
    requires FillOf(w2.scopes[t]) == WithStmt(FillOf(w0.scopes[t]), s, DeclName(s) in w0.Table(t))
    ensures StmtAdded(w0, w2, t, id, s)
  {
    hide StmtRep, FullNode, GetById, StmtIds, FillOf, WithStmt, After, Declared;
  }

  lemma InsertedKept(w0: World, w1: World, w2: World, t: nat, node: Node, s: Stmt)
    requires Registered(w0, w1, t, OwnSize(s)) && t < |w1.scopes| && t !in w1.exprScopes && WellNamedStmt(s)
    requires w2 == Insert(w1, t, DeclName(s), node)
    ensures Valid(w1) && Valid(w2) && Kept(w0, w2) && Kept(w1, w2) && SameElsewhere(w0, w2, t) && SameElsewhere(w1, w2, t)
    ensures OnlyExprs(w1, w2, t + 1) && |w0.scopes| <= |w2.scopes| && t < |w0.scopes|
  {
    InsertValid(w1, t, DeclName(s), node);
    InsertGrows(w1, t, DeclName(s), node);
    InsertedElsewhere(w1, t, DeclName(s), node);
    hide Valid, Kept, Insert, OnlyExprs;
    RegisteredIs(w0, w1, t, OwnSize(s));
    KeptTransitive(w0, w1, w2);
    ElsewhereOnward(w0, w1, w2, t, OwnSize(s));
  }

  lemma InsertedRep(w1: World, w2: World, t: nat, id: nat, node: Node, s: Stmt)
    requires Valid(w1) && Valid(w2) && Kept(w1, w2) && SameElsewhere(w1, w2, t) && OnlyExprs(w1, w2, t + 1) && t < |w1.scopes|
    requires StmtNodeRep(w1, t, node, s) && FullNode(w1, node, s)
    requires w2 == Insert(w1, t, DeclName(s), node) && id == w1.next
    ensures StmtRep(w2, t, id, s) && FullNode(w2, node, s)
    ensures GetById(w2, t, id).Some? && GetById(w2, t, id).value.node == node
  {
    InsertGrows(w1, t, DeclName(s), node);
    hide Valid, Kept, Insert, OnlyExprs, SameElsewhere, StmtNodeRep, FullNode, GetById;
    StmtNodeRepStable(w1, w2, t, node, s);
    FullNodeKept(w1, w2, t, t, node, s);
  }

  lemma InsertedFill(w0: World, w1: World, w2: World, t: nat, node: Node, s: Stmt)
    requires Registered(w0, w1, t, OwnSize(s)) && t < |w1.scopes| && WellNamedStmt(s)
    requires w2 == Insert(w1, t, DeclName(s), node) && t < |w2.scopes|
    ensures t < |w0.scopes| && w1.scopes[t].moves == After(FillOf(w0.scopes[t]), OwnSize(s)).moves
    ensures FillOf(w2.scopes[t]) == WithStmt(FillOf(w0.scopes[t]), s, DeclName(s) in w0.Table(t))
  {
    StmtNames(s);
    InsertFill(w1, t, DeclName(s), node);
    hide Valid, Kept, OnlyExprs, Insert, After, Touch, Fresh, WellNamedStmt, OwnSize, DeclName;
    TakenBefore(w0, w1, t, DeclName(s));
  }

  lemma InsertedElsewhere(w: World, t: nat, name: string, node: Node)
    requires t < |w.scopes|
    ensures SameElsewhere(w, Insert(w, t, name, node), t)
  {
  }

  lemma ElsewhereOnward(w0: World, w1: World, w2: World, t: nat, n: nat)
    requires Registered(w0, w1, t, n) && SameElsewhere(w1, w2, t)
    ensures SameElsewhere(w0, w2, t) && |w0.scopes| <= |w2.scopes|
  {
  }

  /** Expressions take no names. */
  lemma TakenBefore(w0: World, w1: World, t: nat, name: string)
    requires t < |w0.scopes| && Grows(w0, w1, 0) && (name == "" || IsName(name))
    ensures t < |w1.scopes| && (name != "" ==> (name in w1.Table(t) <==> name in w0.Table(t)))
  {
  }

  lemma InsertedStmt(w0: World, w1: World, t: nat, name: string, node: Node)
    requires Valid(w0) && Valid(w1) && t < |w0.scopes| && Grows(w0, w1, 0) && IsStmt(node)
    requires name == "" || (IsName(name) && t !in w1.exprScopes)
    ensures var w2 := Insert(w1, t, name, node); StmtIds(w2, t, w2.next) == StmtIds(w0, t, w0.next) + [w1.next]
  {
    GrowsWeaken(w0, w1, 0, t);
    hide Valid, OnlyExprs, GetById;
    var w2 := Insert(w1, t, name, node);
    InsertGrows(w1, t, name, node);
    StmtIdsStable(w0, w1, t, w1.next);
    StmtIdsBelow(w1, w2, t, name, node, w1.next);
    StmtIdsNext(w2, t, w1.next);
  }

  lemma StmtIdsNext(w: World, t: nat, i: nat)
    requires t < |w.scopes| && GetById(w, t, i).Some? && IsStmt(GetById(w, t, i).value.node)
    ensures StmtIds(w, t, i + 1) == StmtIds(w, t, i) + [i]
  {
  }

  lemma InsertedName(w0: World, w1: World, t: nat, name: string, node: Node, n: string)
    requires t < |w0.scopes| && Grows(w0, w1, 0) && IsName(n)
    ensures var w2 := Insert(w1, t, name, node);
            Declared(w2, t, n) == if Declared(w0, t, n).Some? then Declared(w0, t, n) else if n == name then Some(w1.next) else None
  {
    DecimalIsNoName(w1.next);
  }

  lemma DecimalIsNoName(n: nat)
    ensures !IsName(Decimal(n))
  {
  }

  lemma {:induction false} StmtIdsBelow(w: World, w2: World, t: nat, name: string, node: Node, hi: nat)
    requires Valid(w) && t < |w.scopes| && w2 == Insert(w, t, name, node) && hi <= w.next && (name == "" || IsName(name))
    ensures StmtIds(w2, t, hi) == StmtIds(w, t, hi)
  {
    hide Valid, Insert, GetById, IsName;
    if hi != 0 {
      StmtIdsBelow(w, w2, t, name, node, hi - 1);
      EarlierIdKept(w, t, name, node, hi - 1);
    }
  }

  lemma EarlierIdKept(w: World, t: nat, name: string, node: Node, i: nat)
    requires Valid(w) && t < |w.scopes| && i < w.next && (name == "" || IsName(name))
    ensures t < |Insert(w, t, name, node).scopes| && GetById(Insert(w, t, name, node), t, i) == GetById(w, t, i)
  {
    hide Valid;
    if Decimal(i) == Decimal(w.next) {
      DecimalInjective(i, w.next);
    }
    DecimalIsNoName(i);
  }

  /** An expression in a scope of its own. */
  method RegisterHolder(r: Registrar, t: nat, e: Ast) returns (c: nat, id: nat)
    requires Valid(r.W()) && t < |r.scopes| && WellNamed(e)
    modifies r
    ensures Registered(old(r.W()), r.W(), t, 0) && HolderRep(r.W(), t, c, id, e)
    ensures Watched(old(r.W()), old(r.stale), r.W(), r.stale, Steady(EMPTY_FILL, e))
  {
    ghost var w0, b0 := r.W(), r.stale;
    c := r.NewChild(t, true);
    ghost var w1 := r.W();
    ChildBlank(w0, b0, t, c, true);
    id := r.RegisterExpr(c, e);
    hide Valid, Kept, OnlyExprs, Watched, Steady, Rep, Registered;
    RegisteredElsewhere(w0, w1, r.W(), c, Size(e));
    WatchedMore(w0, b0, w1, b0, r.W(), r.stale, true, Steady(EMPTY_FILL, e));
    NewScopeFilled(w0, r.W(), c, t);
  }

  /** A new scope is blank, and no pointer is read to make it. */
  lemma ChildBlank(w: World, b: bool, t: nat, c: nat, exprOnly: bool)
    requires Valid(w) && t < |w.scopes| && c == |w.scopes|
    ensures var w' := MakeChild(w, t, exprOnly);
            && FillOf(w'.scopes[c]) == EMPTY_FILL && w'.scopes[c].parent == Some(t) && w'.scopes[..c] == w.scopes
            && Kept(w, w') && Watched(w, b, w', b, true)
            && (!exprOnly ==> Blank(w', c, BLANK))
  {
    MakeChildValid(w, t, exprOnly);
    var w' := MakeChild(w, t, exprOnly);
    EmptyScope(w', c, w'.next);
  }

  /** An initialiser in the scope of its declaration, which keeps a pointer to its bucket. */
  method RegisterInPlace(r: Registrar, t: nat, init: Option<Ast>) returns (slot: Option<Slot>)
    requires Valid(r.W()) && t < |r.scopes| && WellNamedOpt(init)
    modifies r
    ensures Registered(old(r.W()), r.W(), t, if Dropped(init) then 0 else Size(init.value))
    ensures t < |r.scopes| && InPlaceRep(r.W(), t, slot, init) && (slot.Some? ==> slot.value.moves == r.scopes[t].moves)
    ensures Watched(old(r.W()), old(r.stale), r.W(), r.stale, !Dropped(init) ==> Steady(old(FillOf(r.scopes[t])), init.value))
  {
    if init.None? || init.value.Call? {
      NothingRegistered(r.W(), t);
      slot := None;
    } else {
      hide Valid, Kept, OnlyExprs, Registered, Watched, Steady, Rep;
      ghost var w0 := r.W();
      var id := r.RegisterExpr(t, init.value);
      RegisteredIs(w0, r.W(), t, Size(init.value));
      slot := Some(Slot(id, r.scopes[t].moves));
    }
  }

  /** A statement list in a scope of its own. */
  method RegisterBody(r: Registrar, t: nat, ss: seq<Stmt>) returns (c: nat)
    requires Valid(r.W()) && t < |r.scopes| && WellNamedStmts(ss)
    modifies r
    ensures Registered(old(r.W()), r.W(), t, 0) && BodyRep(r.W(), t, c, BLANK, ss) && FullBody(r.W(), c, BLANK, ss)
    ensures Watched(old(r.W()), old(r.stale), r.W(), r.stale, SteadyStmts(BLANK, ss))
    decreases ss, 3
  {
    hide *;
    ghost var w0, b0 := r.W(), r.stale;
    r.Now();
    c := r.NewChild(t, false);
    ghost var w1 := r.W();
    r.Now();
    ChildBlank(w0, b0, t, c, false);
    FillScope(r, c, BLANK, ss);
    r.Now();
    BodyFilled(w0, b0, w1, b0, r.W(), r.stale, t, c, BLANK, ss, true);
  }

  /** A scope made under `t` and filled after some preparation. */
  lemma BodyFilled(w0: World, b0: bool, w1: World, b1: bool, w2: World, b2: bool, t: nat, c: nat, b: Start, ss: seq<Stmt>, p: bool)
    requires Valid(w2) && t < |w0.scopes| == c && c < |w1.scopes| && w1.scopes[c].parent == Some(t)
    requires w1.scopes[..c] == w0.scopes && Kept(w0, w1) && Kept(w1, w2) && SameElsewhere(w1, w2, c)
    requires c < |w2.scopes| && ScopeRep(w2, c, b, ss)
    requires Watched(w0, b0, w1, b1, p) && Watched(w1, b1, w2, b2, SteadyStmts(b, ss))
    ensures Registered(w0, w2, t, 0) && BodyRep(w2, t, c, b, ss)
    ensures Watched(w0, b0, w2, b2, p && SteadyStmts(b, ss))
  {
    hide Valid, ScopeRep, Watched, SteadyStmts;
    KeptTransitive(w0, w1, w2);
    forall x | 0 <= x < |w0.scopes|
      ensures w2.scopes[x] == w0.scopes[x]
    {
      assert w1.scopes[x] == w1.scopes[..c][x];
    }
    hide Kept;
    WatchedMore(w0, b0, w1, b1, w2, b2, p, SteadyStmts(b, ss));
  }

  /** A scope before the first statement of its list. */
  ghost predicate Blank(w: World, c: nat, b: Start) {
    && c < |w.scopes| && c !in w.exprScopes
    && StmtIds(w, c, w.next) == [] && FillOf(w.scopes[c]) == b.fill && NamesRep(w, c, b, [], [])
  }

  /** The loop over the statements of a scope that holds at most parameters. */
  method FillScope(r: Registrar, c: nat, ghost b: Start, ss: seq<Stmt>)
    requires Valid(r.W()) && Blank(r.W(), c, b) && WellNamedStmts(ss)
    modifies r
    ensures Valid(r.W()) && Kept(old(r.W()), r.W()) && SameElsewhere(old(r.W()), r.W(), c) && c < |r.scopes|
    ensures ScopeRep(r.W(), c, b, ss) && FullBody(r.W(), c, b, ss)
    ensures Watched(old(r.W()), old(r.stale), r.W(), r.stale, SteadyStmts(b, ss))
    decreases ss, 2
  {
    hide *;
    ghost var w0, b0 := r.W(), r.stale;
    NothingFilled(w0, b0, c, b);
    assert ss[..0] == [];
    for i := 0 to |ss|
      invariant Filled(w0, b0, r.W(), r.stale, c, b, ss[..i])
    {
      RegisterNext(r, c, w0, b0, b, ss, i);
    }
    assert ss[..|ss|] == ss;
    r.Now();
    FilledIs(w0, b0, r.W(), r.stale, c, b, ss);
  }

  /** Scope `c`, blank in `w0`, holds `done`; nothing else that was there has changed. */
  ghost predicate Filled(w0: World, b0: bool, w: World, now: bool, c: nat, b: Start, done: seq<Stmt>) {
    && Valid(w) && Kept(w0, w) && SameElsewhere(w0, w, c) && c < |w.scopes| && c !in w.exprScopes
    && ListRep(w, c, b, StmtIds(w, c, w.next), done) && NamesRep(w, c, b, StmtIds(w, c, w.next), done)
    && FillOf(w.scopes[c]) == FillAfter(b, done) && FullList(w, c, StmtIds(w, c, w.next), done)
    && Watched(w0, b0, w, now, SteadyStmts(b, done))
  }

  lemma NothingFilled(w: World, b0: bool, c: nat, b: Start)
    requires Valid(w) && Blank(w, c, b)
    ensures Filled(w, b0, w, b0, c, b, [])
  {
    hide Valid;
  }

  lemma FilledIs(w0: World, b0: bool, w: World, now: bool, c: nat, b: Start, ss: seq<Stmt>)
    requires Filled(w0, b0, w, now, c, b, ss)
    ensures Valid(w) && Kept(w0, w) && SameElsewhere(w0, w, c) && c < |w.scopes| && ScopeRep(w, c, b, ss) && FullBody(w, c, b, ss)
    ensures Watched(w0, b0, w, now, SteadyStmts(b, ss))
  {
    hide Valid, Kept, SameElsewhere, Watched, SteadyStmts, FillAfter;
  }

  method RegisterNext(r: Registrar, c: nat, ghost w0: World, ghost b0: bool, ghost b: Start, ss: seq<Stmt>, i: nat)
    requires i < |ss| && Filled(w0, b0, r.W(), r.stale, c, b, ss[..i]) && WellNamedStmts(ss)
    modifies r
    ensures Filled(w0, b0, r.W(), r.stale, c, b, ss[..i + 1])
    decreases ss, 1
  {
    hide *;
    ghost var w1, b1 := r.W(), r.stale;
    r.Now();
    StmtWellNamedAt(ss, i);
    FillsOn(w0, b0, w1, b1, c, b, ss[..i]);
    var id := RegisterStmt(r, c, ss[i]);
    FilledOneMore(w0, b0, w1, b1, r.W(), r.stale, c, b, ss[..i], id, ss[i]);
    assert ss[..i + 1] == ss[..i] + [ss[i]];
  }

  lemma FillsOn(w0: World, b0: bool, w: World, now: bool, c: nat, b: Start, done: seq<Stmt>)
    requires Filled(w0, b0, w, now, c, b, done)
    ensures Valid(w) && c < |w.scopes| && c !in w.exprScopes && FillOf(w.scopes[c]) == FillAfter(b, done)
  {
  }

  lemma FilledOneMore(w0: World, b0: bool, w1: World, b1: bool, w2: World, b2: bool, c: nat, b: Start, ss: seq<Stmt>, id: nat, s: Stmt)
    requires Filled(w0, b0, w1, b1, c, b, ss) && c < |w1.scopes|
    requires Valid(w2) && Kept(w1, w2) && SameElsewhere(w1, w2, c) && StmtAdded(w1, w2, c, id, s)
    requires Watched(w1, b1, w2, b2, SteadyStmt(FillOf(w1.scopes[c]), s)) && WellNamedStmt(s)
    ensures Filled(w0, b0, w2, b2, c, b, ss + [s])
  {
    hide Valid, ListRep, NamesRep, StmtRep, StmtIds, FullList, FullNode, FillAfter, WithStmt, After, FillOf, Watched, SteadyStmts, SteadyStmt, Taken;
    var ids := StmtIds(w1, c, w1.next);
    ElsewhereTransitive(w0, w1, w2, c);
    hide OnlyExprs;
    KeptTransitive(w0, w1, w2);
    ListRepStable(w1, w2, c, b, ids, ss);
    TakenIff(w1, c, b, ids, ss, DeclName(s));
    StmtNames(s);
    FillSnoc(FillOf(w1.scopes[c]), b, ss, s, DeclName(s) in w1.Table(c));
    ListRepSnoc(w2, c, b, ids, ss, id, s);
    NamesRepSnoc(w1, w2, c, b, ids, ss, id, s);
    FullListKept(w1, w2, c, c, b, ids, ss);
    FullListSnoc(w2, c, ids, ss, id, s);
    SteadySnoc(b, ss, s);
    hide Kept;
    WatchedMore(w0, b0, w1, b1, w2, b2, SteadyStmts(b, ss), SteadyStmt(FillAfter(b, ss), s));
  }

  lemma FillSnoc(f: Fill, b: Start, ss: seq<Stmt>, s: Stmt, taken: bool)
    requires f == FillAfter(b, ss) && (DeclName(s) != "" ==> (taken <==> Taken(b, ss, DeclName(s))))
    ensures FillAfter(b, ss + [s]) == WithStmt(f, s, taken)
    ensures SlotMoves(b, ss + [s], |ss|) == After(f, OwnSize(s)).moves
  {
    hide Taken, After, OwnSize;
    assert (ss + [s])[..|ss|] == ss;
  }

  lemma TakenIff(w: World, c: nat, b: Start, ids: seq<nat>, ss: seq<Stmt>, n: string)
    requires c < |w.scopes| && NamesRep(w, c, b, ids, ss)
    ensures IsName(n) ==> (n in w.Table(c) <==> Taken(b, ss, n))
  {
    FirstIffDeclares(ids, ss, n);
    assert IsName(n) ==> NameRep(w, c, b, ids, ss, n);
  }

  lemma {:induction false} FirstIffDeclares(ids: seq<nat>, ss: seq<Stmt>, n: string)
    requires |ids| == |ss|
    ensures FirstDeclaration(ids, ss, n).Some? <==> Declares(ss, n)
    decreases ss
  {
    if ss != [] {
      FirstIffDeclares(ids[..|ss| - 1], ss[..|ss| - 1], n);
    }
  }

  lemma ElsewhereTransitive(w: World, w1: World, w2: World, c: nat)
    requires SameElsewhere(w, w1, c) && SameElsewhere(w1, w2, c) && Kept(w1, w2) && c < |w1.scopes|
    ensures SameElsewhere(w, w2, c) && OnlyExprs(w1, w2, c + 1) && c < |w2.scopes|
    ensures c !in w1.exprScopes ==> c !in w2.exprScopes
  {
  }

  lemma KeptTransitive(w: World, w1: World, w2: World)
    requires Kept(w, w1) && Kept(w1, w2)
    ensures Kept(w, w2)
  {
    forall s, k | 0 <= s < |w.scopes| && k in w.scopes[s].table
      ensures k in w2.scopes[s].table && w2.scopes[s].table[k] == w.scopes[s].table[k]
    {
      assert k in w1.scopes[s].table;
    }
  }

  lemma {:induction false} EmptyScope(w: World, c: nat, hi: nat)
    requires c < |w.scopes| && w.Table(c) == map[]
    ensures StmtIds(w, c, hi) == []
  {
    if hi != 0 {
      EmptyScope(w, c, hi - 1);
    }
  }

  lemma {:induction false} StmtWellNamedAt(ss: seq<Stmt>, i: nat)
    requires WellNamedStmts(ss) && i < |ss|
    ensures WellNamedStmt(ss[i])
    decreases ss
  {
    if i < |ss| - 1 {
      StmtWellNamedAt(ss[..|ss| - 1], i);
    }
  }

  lemma ListRepSnoc(w: World, c: nat, b: Start, ids: seq<nat>, ss: seq<Stmt>, id: nat, s: Stmt)
    requires c < |w.scopes| && ListRep(w, c, b, ids, ss) && StmtRep(w, c, id, s)
    requires SlotTakenAt(GetById(w, c, id).value.node, SlotMoves(b, ss + [s], |ss|))
    ensures ListRep(w, c, b, ids + [id], ss + [s])
  {
    hide StmtRep, SlotMoves;
    assert (ss + [s])[..|ss|] == ss && (ids + [id])[..|ss|] == ids;
  }

  lemma FullListSnoc(w: World, c: nat, ids: seq<nat>, ss: seq<Stmt>, id: nat, s: Stmt)
    requires FullList(w, c, ids, ss) && GetById(w, c, id).Some? && FullNode(w, GetById(w, c, id).value.node, s)
    ensures FullList(w, c, ids + [id], ss + [s])
  {
    hide FullNode, GetById;
    assert (ss + [s])[..|ss|] == ss && (ids + [id])[..|ss|] == ids;
  }

  lemma NamesRepSnoc(w1: World, w2: World, c: nat, b: Start, ids: seq<nat>, ss: seq<Stmt>, id: nat, s: Stmt)
    requires c < |w1.scopes| && c < |w2.scopes| && NamesRep(w1, c, b, ids, ss) && Kept(w1, w2)
    requires forall n | IsName(n) :: Declared(w2, c, n) ==
               if Declared(w1, c, n).Some? then Declared(w1, c, n) else if n == DeclName(s) then Some(id) else None
    ensures NamesRep(w2, c, b, ids + [id], ss + [s])
  {
    forall n | IsName(n)
      ensures NameRep(w2, c, b, ids + [id], ss + [s], n)
    {
      assert NameRep(w1, c, b, ids, ss, n);
      FirstDeclarationSnoc(ids, ss, id, s, n);
    }
  }

  lemma FirstDeclarationSnoc(ids: seq<nat>, ss: seq<Stmt>, id: nat, s: Stmt, n: string)
    requires |ids| == |ss|
    ensures FirstDeclaration(ids + [id], ss + [s], n) ==
            var earlier := FirstDeclaration(ids, ss, n);
            if earlier.Some? then earlier else if DeclName(s) == n then Some(id) else None
  {
    assert (ss + [s])[..|ss|] == ss && (ids + [id])[..|ss|] == ids;
  }

  // ----- Parameters -----

  /** A function's scope: its parameters, their default values, and then its body.  An absent
      default value is registered as well, as a call of nothing with nothing. */
  method RegisterFunctionBody(r: Registrar, t: nat, ps: seq<FieldAst>, ss: seq<Stmt>) returns (c: nat)
    requires Valid(r.W()) && t < |r.scopes| && WellNamedStmts(ss) && forall i | 0 <= i < |ps| :: IsName(ps[i].name)
    modifies r
    ensures Registered(old(r.W()), r.W(), t, 0) && BodyRep(r.W(), t, c, StartOf(ps), ss) && FullBody(r.W(), c, StartOf(ps), ss)
    ensures Watched(old(r.W()), old(r.stale), r.W(), r.stale, SteadyFields(ParamFill(ps), ps) && SteadyStmts(StartOf(ps), ss))
  {
    hide *;
    ghost var w0, b0 := r.W(), r.stale;
    r.Now();
    c := r.NewChild(t, false);
    ghost var w1 := r.W();
    r.Now();
    ChildBlank(w0, b0, t, c, false);
    NoParameters(w1, c);
    assert ps[..0] == [];
    for i := 0 to |ps|
      invariant ParamsDone(w1, r.W(), c, ps[..i]) && r.stale == b0
    {
      ghost var w := r.W();
      r.Now();
      ParamsGoOn(w1, w, c, ps[..i]);
      var _ := r.InsertEntry(c, ps[i].name, NParam(i));
      OneParameter(w1, w, c, ps[..i], ps[i]);
      assert ps[..i + 1] == ps[..i] + [ps[i]];
    }
    assert ps[..|ps|] == ps;
    ghost var w2 := r.W();
    r.Now();
    ParamsGoOn(w1, w2, c, ps);
    r.RegisterFields(c, ps);
    ghost var w3, b3 := r.W(), r.stale;
    r.Now();
    ReadyForBody(w0, b0, w1, w2, w3, b3, t, c, ps);
    FillScope(r, c, StartOf(ps), ss);
    r.Now();
    BodyFilled(w0, b0, w3, b3, r.W(), r.stale, t, c, StartOf(ps), ss, SteadyFields(ParamFill(ps), ps));
  }

  /** Scope `c`, empty in `w1`, holds these parameters and nothing else has changed. */
  ghost predicate ParamsDone(w1: World, w: World, c: nat, ps: seq<FieldAst>) {
    && Valid(w) && Kept(w1, w) && SameElsewhere(w1, w, c) && Blank(w, c, Start(ParamFill(ps), ParamNames(ps)))
    && forall n | IsName(n) :: n in w.Table(c) <==> n in ParamNames(ps)
  }

  lemma NoParameters(w: World, c: nat)
    requires Valid(w) && Blank(w, c, BLANK)
    ensures ParamsDone(w, w, c, [])
  {
    hide Valid;
    forall n | IsName(n)
      ensures NameRep(w, c, BLANK, [], [], n)
    {
    }
  }

  lemma ParamsGoOn(w1: World, w: World, c: nat, ps: seq<FieldAst>)
    requires ParamsDone(w1, w, c, ps)
    ensures Valid(w) && c < |w.scopes| && c !in w.exprScopes && FillOf(w.scopes[c]) == ParamFill(ps)
  {
  }

  lemma OneParameter(w1: World, w: World, c: nat, ps: seq<FieldAst>, p: FieldAst)
    requires ParamsDone(w1, w, c, ps) && IsName(p.name) && c < |w.scopes|
    ensures ParamsDone(w1, Insert(w, c, p.name, NParam(|ps|)), c, ps + [p])
  {
    var w', start := Insert(w, c, p.name, NParam(|ps|)), Start(ParamFill(ps + [p]), ParamNames(ps + [p]));
    hide *;
    ParamsAre(w1, w, c, ps);
    ParamsGoOn(w1, w, c, ps);
    BlankIs(w, c, Start(ParamFill(ps), ParamNames(ps)));
    ParamInserted(w1, w, c, ps, p);
    ParamFilled(w, c, ps, p);
    ParamNamesKept(w, c, ps, p);
    NoStatementAdded(w, c, p.name, NParam(|ps|));
    BlankIs(w', c, start);
    ParamsDoneIf(w1, w', c, ps + [p]);
  }

  lemma BlankIs(w: World, c: nat, b: Start)
    ensures Blank(w, c, b) <==>
            && c < |w.scopes| && c !in w.exprScopes
            && StmtIds(w, c, w.next) == [] && FillOf(w.scopes[c]) == b.fill && NamesRep(w, c, b, [], [])
  {
  }

  lemma ParamsDoneIf(w1: World, w: World, c: nat, ps: seq<FieldAst>)
    requires Valid(w) && Kept(w1, w) && SameElsewhere(w1, w, c) && Blank(w, c, Start(ParamFill(ps), ParamNames(ps)))
    requires c < |w.scopes| && forall n | IsName(n) :: n in w.Table(c) <==> n in ParamNames(ps)
    ensures ParamsDone(w1, w, c, ps)
  {
  }

  lemma ParamFilled(w: World, c: nat, ps: seq<FieldAst>, p: FieldAst)
    requires Valid(w) && c < |w.scopes| && IsName(p.name) && FillOf(w.scopes[c]) == ParamFill(ps)
    requires p.name in w.Table(c) <==> p.name in ParamNames(ps)
    ensures var w' := Insert(w, c, p.name, NParam(|ps|)); c < |w'.scopes| && FillOf(w'.scopes[c]) == ParamFill(ps + [p])
  {
    InsertFill(w, c, p.name, NParam(|ps|));
    ParamSnoc(ps, p);
    assert c < |Insert(w, c, p.name, NParam(|ps|)).scopes|;
    hide Insert, Valid, Fresh, Touch, FillOf, ParamFill, ParamNames;
  }

  lemma ParamInserted(w1: World, w: World, c: nat, ps: seq<FieldAst>, p: FieldAst)
    requires ParamsDone(w1, w, c, ps) && IsName(p.name) && c < |w.scopes|
    ensures var w' := Insert(w, c, p.name, NParam(|ps|));
            Valid(w') && Kept(w1, w') && SameElsewhere(w1, w', c) && c < |w'.scopes| && c !in w'.exprScopes
  {
    hide StmtIds, NamesRep, ParamNames, ParamFill, FillOf;
    InsertValid(w, c, p.name, NParam(|ps|));
    InsertGrows(w, c, p.name, NParam(|ps|));
    InsertedElsewhere(w, c, p.name, NParam(|ps|));
    hide Valid, Insert;
    KeptTransitive(w1, w, Insert(w, c, p.name, NParam(|ps|)));
    ElsewhereTransitive(w1, w, Insert(w, c, p.name, NParam(|ps|)), c);
  }

  lemma ParamNamesKept(w: World, c: nat, ps: seq<FieldAst>, p: FieldAst)
    requires c < |w.scopes| && IsName(p.name)
    requires forall n | IsName(n) :: n in w.Table(c) <==> n in ParamNames(ps)
    requires NamesRep(w, c, Start(ParamFill(ps), ParamNames(ps)), [], [])
    ensures var w' := Insert(w, c, p.name, NParam(|ps|));
            && c < |w'.scopes| && NamesRep(w', c, Start(ParamFill(ps + [p]), ParamNames(ps + [p])), [], [])
            && forall n | IsName(n) :: n in w'.Table(c) <==> n in ParamNames(ps + [p])
  {
    var w' := Insert(w, c, p.name, NParam(|ps|));
    assert c < |w'.scopes|;
    hide Insert, ParamFill, ParamNames, NameRep, IsName;
    forall n | IsName(n)
      ensures n in w'.Table(c) <==> n in ParamNames(ps + [p])
      ensures NameRep(w', c, Start(ParamFill(ps + [p]), ParamNames(ps + [p])), [], [], n)
    {
      ParamNameKept(w, c, ps, p, n);
    }
  }

  lemma ParamNameKept(w: World, c: nat, ps: seq<FieldAst>, p: FieldAst, n: string)
    requires c < |w.scopes| && IsName(p.name) && IsName(n)
    requires n in w.Table(c) <==> n in ParamNames(ps)
    requires NameRep(w, c, Start(ParamFill(ps), ParamNames(ps)), [], [], n)
    ensures var w' := Insert(w, c, p.name, NParam(|ps|));
            && c < |w'.scopes| && (n in w'.Table(c) <==> n in ParamNames(ps + [p]))
            && NameRep(w', c, Start(ParamFill(ps + [p]), ParamNames(ps + [p])), [], [], n)
  {
    ParamSnoc(ps, p);
    ParamNamed(w, c, p.name, |ps|, n);
    assert c < |Insert(w, c, p.name, NParam(|ps|)).scopes|;
    hide Insert, ParamFill, ParamNames, IsName;
  }

  lemma ParamNamed(w: World, c: nat, name: string, k: nat, n: string)
    requires c < |w.scopes| && IsName(n) && IsName(name)
    ensures var t, t' := w.Table(c), Insert(w, c, name, NParam(k)).Table(c);
            && (n in t' <==> n in t || n == name)
            && (n in t ==> t'[n] == t[n]) && (n !in t && n == name ==> t'[n].node == NParam(k))
  {
    DecimalIsNoName(w.next);
  }

  lemma ParamSnoc(ps: seq<FieldAst>, p: FieldAst)
    ensures var m := ParamNames(ps); ParamNames(ps + [p]) == if p.name in m then m else m[p.name := |ps|]
    ensures ParamFill(ps + [p]) == Fresh(if p.name in ParamNames(ps) then Touch(ParamFill(ps)) else Fresh(ParamFill(ps)))
  {
    assert (ps + [p])[..|ps|] == ps;
  }

  lemma NoStatementAdded(w: World, c: nat, name: string, node: Node)
    requires Valid(w) && c < |w.scopes| && !IsStmt(node) && (name == "" || (IsName(name) && c !in w.exprScopes))
    ensures var w' := Insert(w, c, name, node); StmtIds(w', c, w'.next) == StmtIds(w, c, w.next)
  {
    var w' := Insert(w, c, name, node);
    StmtIdsBelow(w, w', c, name, node, w.next);
    InsertGrows(w, c, name, node);
  }

  lemma ReadyForBody(w0: World, b0: bool, w1: World, w2: World, w3: World, b3: bool, t: nat, c: nat, ps: seq<FieldAst>)
    requires t < |w0.scopes| == c && c < |w1.scopes| && w1.scopes[c].parent == Some(t) && w1.scopes[..c] == w0.scopes
    requires Kept(w0, w1) && ParamsDone(w1, w2, c, ps) && Registered(w2, w3, c, FieldsSize(ps))
    requires Watched(w0, b0, w1, b0, true) && Watched(w2, b0, w3, b3, SteadyFields(ParamFill(ps), ps))
    ensures Valid(w3) && c < |w3.scopes| && w3.scopes[c].parent == Some(t) && w3.scopes[..c] == w0.scopes
    ensures Kept(w0, w3) && Blank(w3, c, StartOf(ps)) && Watched(w0, b0, w3, b3, SteadyFields(ParamFill(ps), ps))
  {
    ParamsAre(w1, w2, c, ps);
    RegisteredIs(w2, w3, c, FieldsSize(ps));
    RegisteredElse(w2, w3, c, FieldsSize(ps));
    StillBlank(w2, w3, c, ps);
    hide Valid, OnlyExprs, Watched, SteadyFields, Blank, ParamsDone, Registered;
    KeptTransitive(w1, w2, w3);
    KeptTransitive(w0, w1, w3);
    ScopesBelow(w0, w1, w2, w3, c);
    hide Kept;
    WatchedNothing(w1, b0);
    NoneSteady(w0, b0, w1, w2, w3, b3, SteadyFields(ParamFill(ps), ps));
  }

  lemma ParamsAre(w1: World, w: World, c: nat, ps: seq<FieldAst>)
    requires ParamsDone(w1, w, c, ps)
    ensures Valid(w) && Kept(w1, w) && SameElsewhere(w1, w, c) && Blank(w, c, Start(ParamFill(ps), ParamNames(ps)))
    ensures c < |w.scopes| && forall n | IsName(n) :: n in w.Table(c) <==> n in ParamNames(ps)
  {
  }

  lemma RegisteredElse(w: World, w': World, c: nat, n: nat)
    requires Registered(w, w', c, n)
    ensures SameElsewhere(w, w', c) && Kept(w, w')
  {
  }

  lemma ScopesBelow(w0: World, w1: World, w2: World, w3: World, c: nat)
    requires |w0.scopes| == c && c < |w1.scopes| && w1.scopes[..c] == w0.scopes && Kept(w1, w3)
    requires SameElsewhere(w1, w2, c) && SameElsewhere(w2, w3, c)
    ensures c < |w3.scopes| && w3.scopes[..c] == w0.scopes && w3.scopes[c].parent == w1.scopes[c].parent
  {
    forall x | 0 <= x < c
      ensures w3.scopes[x] == w0.scopes[x]
    {
      assert w1.scopes[x] == w1.scopes[..c][x];
    }
  }

  /** Entries of parameters are made without reading a pointer. */
  lemma NoneSteady(w0: World, b0: bool, w1: World, w2: World, w3: World, b3: bool, p: bool)
    requires Kept(w0, w1) && Kept(w1, w2) && Kept(w2, w3) && Watched(w2, b0, w3, b3, p)
    ensures Watched(w0, b0, w3, b3, p)
  {
    KeptTransitive(w0, w1, w2);
    WatchedMore(w0, b0, w2, b0, w3, b3, true, p) by {
      assert Watched(w0, b0, w2, b0, true);
    }
  }

  /** The default values add expressions only. */
  lemma StillBlank(w: World, w': World, c: nat, ps: seq<FieldAst>)
    requires Blank(w, c, Start(ParamFill(ps), ParamNames(ps))) && Registered(w, w', c, FieldsSize(ps)) && Valid(w)
    ensures Blank(w', c, StartOf(ps))
  {
    RegisteredIs(w, w', c, FieldsSize(ps));
    GrowsWeaken(w, w', 0, c);
    RegisteredFill(w, w', c, FieldsSize(ps));
    NextGrows(w, w');
    StmtIdsStable(w, w', c, w'.next);
    NamesRepStable(w, w', c, Start(ParamFill(ps), ParamNames(ps)), [], []);
    RenamedFill(w', c, ParamFill(ps), StartOf(ps).fill, ParamNames(ps));
    StaysStmtScope(w, w', c, FieldsSize(ps));
    hide Valid, Kept, OnlyExprs, StmtIds, NamesRep, ParamFill, ParamNames, After, FillOf;
  }

  lemma RenamedFill(w: World, c: nat, f: Fill, f': Fill, m: map<string, nat>)
    requires c < |w.scopes| && NamesRep(w, c, Start(f, m), [], [])
    ensures NamesRep(w, c, Start(f', m), [], [])
  {
    forall n | IsName(n)
      ensures NameRep(w, c, Start(f', m), [], [], n)
    {
      assert NameRep(w, c, Start(f, m), [], [], n);
    }
  }

  /** The part of each `register_*` function before its own insertion. */
  method BuildNode(r: Registrar, t: nat, s: Stmt) returns (node: Node)
    requires Valid(r.W()) && t < |r.scopes| && t !in r.exprScopes && WellNamedStmt(s)
    modifies r
    ensures Registered(old(r.W()), r.W(), t, OwnSize(s)) && t < |r.scopes|
    ensures StmtNodeRep(r.W(), t, node, s) && FullNode(r.W(), node, s)
    ensures SlotTakenAt(node, r.scopes[t].moves) && IsStmt(node)
    ensures Watched(old(r.W()), old(r.stale), r.W(), r.stale, SteadyStmt(old(FillOf(r.scopes[t])), s))
    decreases s, 0
  {
    hide *;
    if s.Var? || s.Let? || s.Const? {
      node := BuildDeclaration(r, t, s);
    } else if s.If? {
      node := BuildIf(r, t, s);
    } else if s.While? || s.For? {
      node := BuildLoop(r, t, s);
    } else {
      node := BuildSimple(r, t, s);
    }
  }

  method BuildDeclaration(r: Registrar, t: nat, s: Stmt) returns (node: Node)
    requires Valid(r.W()) && t < |r.scopes| && WellNamedStmt(s) && (s.Var? || s.Let? || s.Const?)
    modifies r
    ensures Registered(old(r.W()), r.W(), t, OwnSize(s)) && t < |r.scopes|
    ensures StmtNodeRep(r.W(), t, node, s) && FullNode(r.W(), node, s)
    ensures SlotTakenAt(node, r.scopes[t].moves) && IsStmt(node)
    ensures Watched(old(r.W()), old(r.stale), r.W(), r.stale, SteadyStmt(old(FillOf(r.scopes[t])), s))
  {
    hide Valid, Kept, OnlyExprs, SameElsewhere, Rep, HolderRep, InPlaceRep, Registered, Watched, Steady, FillOf, Size, WellNamed;
    if s.Var? {
      var init := RegisterApart(r, t, s.init);
      node := NVar(init);
    } else {
      var slot := RegisterInPlace(r, t, s.init);
      node := if s.Let? then NLet(slot) else NConst(slot);
    }
  }

  /** The initialiser of a `var`. */
  method RegisterApart(r: Registrar, t: nat, init: Option<Ast>) returns (h: Option<Handle>)
    requires Valid(r.W()) && t < |r.scopes| && WellNamedOpt(init)
    modifies r
    ensures Registered(old(r.W()), r.W(), t, 0) && t < |r.scopes|
    ensures h.Some? == init.Some? && (init.Some? ==> HolderRep(r.W(), t, h.value.scope, h.value.id, init.value))
    ensures Watched(old(r.W()), old(r.stale), r.W(), r.stale, init.Some? ==> Steady(EMPTY_FILL, init.value))
  {
    ghost var w0 := r.W();
    NothingRegistered(w0, t);
    WatchedNothing(w0, r.stale);
    hide Valid, Kept, OnlyExprs, SameElsewhere, HolderRep, Registered, Watched, Steady, WellNamed;
    h := None;
    if init.Some? {
      var c, id := RegisterHolder(r, t, init.value);
      RegisteredIs(w0, r.W(), t, 0);
      h := Some(Handle(c, id));
    }
  }

  method BuildSimple(r: Registrar, t: nat, s: Stmt) returns (node: Node)
    requires Valid(r.W()) && t < |r.scopes| && WellNamedStmt(s) && (s.Return? || s.ExprStmt? || s.Assign?)
    modifies r
    ensures Registered(old(r.W()), r.W(), t, OwnSize(s)) && t < |r.scopes|
    ensures StmtNodeRep(r.W(), t, node, s) && FullNode(r.W(), node, s)
    ensures SlotTakenAt(node, r.scopes[t].moves) && IsStmt(node)
    ensures Watched(old(r.W()), old(r.stale), r.W(), r.stale, SteadyStmt(old(FillOf(r.scopes[t])), s))
  {
    hide Valid, Kept, OnlyExprs, SameElsewhere, Rep, WellNamed, Registered, Watched, Steady, SteadyTwo, FillOf, Size;
    if s.Assign? {
      var targetId, valueId := RegisterPair(r, t, s.target, s.value);
      node := NAssign(s.op, targetId, valueId);
    } else if s.ExprStmt? {
      var id := RegisterOperand(r, t, s.e);
      node := NExprStmt(id);
    } else if s.val.Some? {
      var id := RegisterOperand(r, t, s.val.value);
      node := NReturn(id);
    } else {
      NothingRegistered(r.W(), t);
      WatchedNothing(r.W(), r.stale);
      node := NReturn(0);
    }
  }

  method RegisterOperand(r: Registrar, t: nat, e: Ast) returns (id: nat)
    requires Valid(r.W()) && t < |r.scopes|
    modifies r
    ensures Registered(old(r.W()), r.W(), t, Size(e)) && t < |r.scopes| && Rep(r.W(), t, id, e)
    ensures Watched(old(r.W()), old(r.stale), r.W(), r.stale, Steady(old(FillOf(r.scopes[t])), e))
  {
    hide Valid, Kept, OnlyExprs, SameElsewhere, Rep, Registered, Watched, Steady, FillOf, Size;
    ghost var w0 := r.W();
    id := r.RegisterExpr(t, e);
    RegisteredIs(w0, r.W(), t, Size(e));
  }

  method BuildLoop(r: Registrar, t: nat, s: Stmt) returns (node: Node)
    requires Valid(r.W()) && t < |r.scopes| && t !in r.exprScopes && WellNamedStmt(s) && (s.While? || s.For?)
    modifies r
    ensures Registered(old(r.W()), r.W(), t, OwnSize(s)) && t < |r.scopes|
    ensures StmtNodeRep(r.W(), t, node, s) && FullNode(r.W(), node, s)
    ensures SlotTakenAt(node, r.scopes[t].moves) && IsStmt(node)
    ensures Watched(old(r.W()), old(r.stale), r.W(), r.stale, SteadyStmt(old(FillOf(r.scopes[t])), s))
    decreases s, 0, 1
  {
    hide Valid, Kept, OnlyExprs, SameElsewhere, Rep, BodyRep, HolderRep, WellNamed, Registered, FullBody, Watched, Steady, SteadyStmts, FillOf;
    ghost var w0 := r.W();
    var cc, ci, bc := RegisterCondAndBody(r, t, if s.While? then s.cond else s.iter, s.body, s);
    RegisteredIs(w0, r.W(), t, 0);
    node := if s.While? then NWhile(ci, cc, bc) else NFor(s.var_, ci, cc, bc);
  }

  method BuildIf(r: Registrar, t: nat, s: Stmt) returns (node: Node)
    requires Valid(r.W()) && t < |r.scopes| && t !in r.exprScopes && WellNamedStmt(s) && s.If?
    modifies r
    ensures Registered(old(r.W()), r.W(), t, OwnSize(s)) && t < |r.scopes|
    ensures StmtNodeRep(r.W(), t, node, s) && FullNode(r.W(), node, s)
    ensures SlotTakenAt(node, r.scopes[t].moves) && IsStmt(node)
    ensures Watched(old(r.W()), old(r.stale), r.W(), r.stale, SteadyStmt(old(FillOf(r.scopes[t])), s))
    decreases s, 0, 1
  {
    hide Valid, Kept, OnlyExprs, SameElsewhere, Rep, BodyRep, HolderRep, WellNamed, Registered, FullBody, Watched, Steady, SteadyStmts, FillOf;
    ghost var w0, b0 := r.W(), r.stale;
    var cc, ci, tc := RegisterCondAndBody(r, t, s.cond, s.body, s);
    ghost var w1, b1 := r.W(), r.stale;
    RegisteredIs(w0, w1, t, 0);
    var ec := RegisterBody(r, t, s.elseBody);
    RegisteredIs(w1, r.W(), t, 0);
    HolderRepKept(w1, r.W(), t, cc, ci, s.cond);
    BodyStays(w1, r.W(), t, tc, s.body, 0);
    RegisteredMore(w0, w1, r.W(), t, 0, 0);
    WatchedMore(w0, b0, w1, b1, r.W(), r.stale, Steady(EMPTY_FILL, s.cond) && SteadyStmts(BLANK, s.body), SteadyStmts(BLANK, s.elseBody));
    node := NIf(ci, cc, tc, ec);
  }

  /** Target and value; the id of the target is read after the value is registered. */
  method RegisterPair(r: Registrar, t: nat, a: Ast, b: Ast) returns (aId: nat, bId: nat)
    requires Valid(r.W()) && t < |r.scopes| && WellNamed(a) && WellNamed(b)
    modifies r
    ensures Registered(old(r.W()), r.W(), t, Size(a) + Size(b)) && t < |r.scopes|
    ensures Rep(r.W(), t, aId, a) && Rep(r.W(), t, bId, b)
    ensures Watched(old(r.W()), old(r.stale), r.W(), r.stale, SteadyTwo(old(FillOf(r.scopes[t])), a, b))
  {
    hide *;
    ghost var w0, b0 := r.W(), r.stale;
    r.Now();
    aId := r.RegisterExpr(t, a);
    ghost var w1, b1 := r.W(), r.stale;
    r.Now();
    RegisteredIs(w0, w1, t, Size(a));
    bId := r.RegisterExpr(t, b);
    r.Now();
    RegisteredIs(w1, r.W(), t, Size(b));
    RepKept(w1, r.W(), t, aId, a);
    OperandsWatched(w0, b0, w1, b1, r.W(), r.stale, t, a, b);
    r.stale := r.stale || r.scopes[t].moves != w1.scopes[t].moves;
    r.Now();
  }

  /** A condition and the first body it governs. */
  method RegisterCondAndBody(r: Registrar, t: nat, c: Ast, b: seq<Stmt>, ghost s: Stmt) returns (cc: nat, ci: nat, bc: nat)
    requires Valid(r.W()) && t < |r.scopes| && WellNamed(c) && WellNamedStmts(b)
    requires (s.If? || s.While? || s.For?) && s.body == b
    modifies r
    ensures Registered(old(r.W()), r.W(), t, 0)
    ensures HolderRep(r.W(), t, cc, ci, c) && BodyRep(r.W(), t, bc, BLANK, b) && FullBody(r.W(), bc, BLANK, b)
    ensures Watched(old(r.W()), old(r.stale), r.W(), r.stale, Steady(EMPTY_FILL, c) && SteadyStmts(BLANK, b))
    decreases s, 0, 0
  {
    hide Valid, Kept, OnlyExprs, SameElsewhere, Registered, HolderRep, BodyRep, FullBody, Watched, Steady, SteadyStmts;
    ghost var w0, b0 := r.W(), r.stale;
    cc, ci := RegisterHolder(r, t, c);
    ghost var w1, b1 := r.W(), r.stale;
    RegisteredIs(w0, w1, t, 0);
    bc := RegisterBody(r, t, b);
    RegisteredIs(w1, r.W(), t, 0);
    HolderRepKept(w1, r.W(), t, cc, ci, c);
    RegisteredMore(w0, w1, r.W(), t, 0, 0);
    WatchedMore(w0, b0, w1, b1, r.W(), r.stale, Steady(EMPTY_FILL, c), SteadyStmts(BLANK, b));
  }

  lemma HolderRepKept(w: World, w': World, t: nat, c: nat, id: nat, e: Ast)
    requires Kept(w, w') && HolderRep(w, t, c, id, e)
    ensures HolderRep(w', t, c, id, e)
  {
    RepKept(w, w', c, id, e);
  }

  lemma BodyRepStable(w: World, w': World, t: nat, c: nat, b: Start, ss: seq<Stmt>)
    requires Valid(w) && Valid(w') && Grows(w, w', 0) && BodyRep(w, t, c, b, ss)
    ensures BodyRep(w', t, c, b, ss)
  {
    ScopeRepStable(w, w', c, b, ss);
  }

  lemma BodyStays(w: World, w': World, t: nat, c: nat, ss: seq<Stmt>, n: nat)
    requires Valid(w) && Registered(w, w', t, n) && BodyRep(w, t, c, BLANK, ss) && FullBody(w, c, BLANK, ss)
    ensures BodyRep(w', t, c, BLANK, ss) && FullBody(w', c, BLANK, ss)
  {
    hide Valid, FullBody, ScopeRep;
    BodyRepStable(w, w', t, c, BLANK, ss);
    FullBodyKept(w, w', t, c, BLANK, ss);
  }
}

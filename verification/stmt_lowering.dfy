/** Lowering the scopes that statement lists are registered in: each statement comes out once
    and in source order, at every nesting level, although lowering itself registers
    expressions and so moves the bound of the loop that walks the ids.  `let` and `const`
    follow a pointer into a table that may have moved since. */
module StmtLowering {
  import opened Options
  import opened Decimals
  import opened Registry
  import opened StmtFills
  import opened Lowering
  import opened StmtRegistration

  datatype IRStmt =
    | IRVar(name: string, eid: nat, init: Option<IRExpr>)
    | IRLet(name: string, eid: nat, init: Option<IRExpr>)
    | IRConst(name: string, eid: nat, init: Option<IRExpr>)
    | IRIf(cond: IRExpr, body: seq<IRStmt>, elseBody: seq<IRStmt>)
    | IRWhile(cond: IRExpr, body: seq<IRStmt>)
    | IRFor(var_: string, iter: IRExpr, body: seq<IRStmt>)
    | IRReturn(val: Option<IRExpr>)
    | IRExprStmt(e: IRExpr)
    | IRAssign(op: nat, target: IRExpr, value: IRExpr)

  // ----- What comes out -----

  /** No struct literal in the expressions of a statement or of its bodies. */
  predicate NoStructsStmt(s: Stmt) {
    match s
    case If(c, b, eb) => NoStructs(c) && NoStructsStmts(b) && NoStructsStmts(eb)
    case While(c, b) => NoStructs(c) && NoStructsStmts(b)
    case For(_, i, b) => NoStructs(i) && NoStructsStmts(b)
    case Return(v) => v.Some? ==> NoStructs(v.value)
    case ExprStmt(e) => NoStructs(e)
    case Assign(_, t, v) => NoStructs(t) && NoStructs(v)
    case _ => s.init.Some? ==> NoStructs(s.init.value)
  }

  predicate NoStructsStmts(ss: seq<Stmt>) {
    ss == [] || (NoStructsStmts(ss[..|ss| - 1]) && NoStructsStmt(ss[|ss| - 1]))
  }

  /** `ir` is statement `id` of scope `t`, lowered at some time between `w0` and `w1`. */
  ghost predicate LoweredStmt(w0: World, w1: World, t: nat, id: nat, s: Stmt, ir: IRStmt)
    requires t < |w0.scopes| && t < |w1.scopes| && StmtRep(w0, t, id, s)
    decreases s, 0
  {
    var node := GetById(w0, t, id).value.node;
    assert StmtNodeRep(w0, t, node, s);
    match s
    case Var(n, init) => ir == IRVar(n, id, if init.None? then None else Some(Detached(w0, t, init.value)))
    case Let(n, init) => ir.IRLet? && ir.name == n && ir.eid == id && LoweredInit(w0, w1, t, node.slot, init, ir.init)
    case Const(n, init) => ir.IRConst? && ir.name == n && ir.eid == id && LoweredInit(w0, w1, t, node.slot, init, ir.init)
    case If(c, b, eb) =>
      && ir.IRIf? && ir.cond == Direct(w0, t, c)
      && LoweredBody(w0, w1, t, node.thenChild, BLANK, b, ir.body) && LoweredBody(w0, w1, t, node.elseChild, BLANK, eb, ir.elseBody)
    case While(c, b) => ir.IRWhile? && ir.cond == Direct(w0, t, c) && LoweredBody(w0, w1, t, node.bodyChild, BLANK, b, ir.body)
    case For(v, i, b) =>
      ir.IRFor? && ir.var_ == v && ir.iter == Direct(w0, t, i) && LoweredBody(w0, w1, t, node.bodyChild, BLANK, b, ir.body)
    case Return(None) => ir == IRReturn(None)
    case Return(Some(e)) => ir == IRReturn(Some(Direct(w0, t, e)))
    case ExprStmt(e) => ir == IRExprStmt(Direct(w0, t, e))
    case Assign(op, tgt, v) => ir == IRAssign(op, Direct(w0, t, tgt), Direct(w0, t, v))
  }

  /** The initialiser of a `let` or `const` is right if the buckets have stayed where they
      were until the end, and lost if they had moved before the start. */
  ghost predicate LoweredInit(w0: World, w1: World, t: nat, slot: Option<Slot>, init: Option<Ast>, ir: Option<IRExpr>)
    requires t < |w0.scopes| && t < |w1.scopes| && InPlaceRep(w0, t, slot, init)
  {
    if Dropped(init) then ir == None
    else
      && ir.Some? && (ir.value == Direct(w0, t, init.value) || ir.value == IStale)
      && (w1.scopes[t].moves == slot.value.moves ==> ir.value == Direct(w0, t, init.value))
      && (w0.scopes[t].moves != slot.value.moves ==> ir.value == IStale)
  }

  ghost predicate LoweredBody(w0: World, w1: World, t: nat, c: nat, b: Start, ss: seq<Stmt>, irs: seq<IRStmt>)
    requires BodyRep(w0, t, c, b, ss)
    decreases ss, 3
  {
    c < |w1.scopes| && LoweredScope(w0, w1, c, b, ss, irs)
  }

  ghost predicate LoweredScope(w0: World, w1: World, c: nat, b: Start, ss: seq<Stmt>, irs: seq<IRStmt>)
    requires c < |w0.scopes| && c < |w1.scopes| && ScopeRep(w0, c, b, ss)
    decreases ss, 2
  {
    LoweredList(w0, w1, c, b, StmtIds(w0, c, w0.next), ss, irs)
  }

  /** Statement for statement. */
  ghost predicate LoweredList(w0: World, w1: World, c: nat, b: Start, ids: seq<nat>, ss: seq<Stmt>, irs: seq<IRStmt>)
    requires c < |w0.scopes| && c < |w1.scopes| && ListRep(w0, c, b, ids, ss)
    decreases ss, 1
  {
    |irs| == |ss| &&
    (ss == [] ||
     (var k := |ss| - 1;
      LoweredList(w0, w1, c, b, ids[..k], ss[..k], irs[..k]) && LoweredStmt(w0, w1, c, ids[k], ss[k], irs[k])))
  }

  // ----- The time may be given less exactly -----

  /** Expressions may be registered before and after. */
  ghost predicate Wider(v0: World, w0: World, w1: World, v1: World) {
    && Valid(v0) && Valid(w0) && Valid(w1) && Valid(v1)
    && Grows(v0, w0, 0) && Grows(w0, w1, 0) && Grows(w1, v1, 0)
  }

  lemma {:induction false} StmtWidened(v0: World, w0: World, w1: World, v1: World, t: nat, id: nat, s: Stmt, ir: IRStmt)
    requires Wider(v0, w0, w1, v1) && t < |v0.scopes| && StmtRep(v0, t, id, s) && WellNamedStmt(s)
    requires t < |w0.scopes| && t < |w1.scopes| && t < |v1.scopes|
    requires StmtRep(w0, t, id, s) && LoweredStmt(w0, w1, t, id, s, ir)
    ensures LoweredStmt(v0, v1, t, id, s, ir)
    decreases s, 0
  {
    hide BodyRep, LoweredBody, Rep, Valid, OnlyExprs, Direct, Detached, LoweredInit, Dropped, NoStructs, InPlaceRep, HolderRep;
    var node := GetById(v0, t, id).value.node;
    assert GetById(w0, t, id) == GetById(v0, t, id) && StmtNodeRep(v0, t, node, s) && StmtNodeRep(w0, t, node, s);
    hide Kept;
    match s
    case Var(_, init) =>
      if init.Some? {
        DetachedStable(v0, w0, t, init.value);
      }
    case Let(_, init) => InitWidened(v0, w0, w1, v1, t, node.slot, init, ir.init);
    case Const(_, init) => InitWidened(v0, w0, w1, v1, t, node.slot, init, ir.init);
    case If(c, b, eb) =>
      DirectStable(v0, w0, t, c);
      BodyWidened(v0, w0, w1, v1, t, node.thenChild, BLANK, b, ir.body);
      BodyWidened(v0, w0, w1, v1, t, node.elseChild, BLANK, eb, ir.elseBody);
    case While(c, b) =>
      DirectStable(v0, w0, t, c);
      BodyWidened(v0, w0, w1, v1, t, node.bodyChild, BLANK, b, ir.body);
    case For(_, i, b) =>
      DirectStable(v0, w0, t, i);
      BodyWidened(v0, w0, w1, v1, t, node.bodyChild, BLANK, b, ir.body);
    case Return(None) =>
    case Return(Some(e)) => DirectStable(v0, w0, t, e);
    case ExprStmt(e) => DirectStable(v0, w0, t, e);
    case Assign(_, tgt, v) =>
      DirectStable(v0, w0, t, tgt);
      DirectStable(v0, w0, t, v);
  }

  lemma InitWidened(v0: World, w0: World, w1: World, v1: World, t: nat, slot: Option<Slot>, init: Option<Ast>, ir: Option<IRExpr>)
    requires Wider(v0, w0, w1, v1) && t < |v0.scopes| && InPlaceRep(v0, t, slot, init) && WellNamedOpt(init)
    requires t < |w0.scopes| && t < |w1.scopes| && t < |v1.scopes|
    requires InPlaceRep(w0, t, slot, init) && LoweredInit(w0, w1, t, slot, init, ir)
    ensures LoweredInit(v0, v1, t, slot, init, ir)
  {
    if !Dropped(init) {
      DirectStable(v0, w0, t, init.value);
    }
  }

  lemma {:induction false} BodyWidened(v0: World, w0: World, w1: World, v1: World, t: nat, c: nat, b: Start, ss: seq<Stmt>, irs: seq<IRStmt>)
    requires Wider(v0, w0, w1, v1) && BodyRep(v0, t, c, b, ss) && WellNamedStmts(ss)
    requires BodyRep(w0, t, c, b, ss) && LoweredBody(w0, w1, t, c, b, ss, irs)
    ensures LoweredBody(v0, v1, t, c, b, ss, irs)
    decreases ss, 3
  {
    hide LoweredList, ListRep, Rep, NamesRep;
    assert c < |v1.scopes|;
    ScopeRepStable(v0, w0, c, b, ss);
    hide Valid, Kept, OnlyExprs;
    ListWidened(v0, w0, w1, v1, c, b, StmtIds(v0, c, v0.next), ss, irs);
  }

  lemma {:induction false} ListWidened(v0: World, w0: World, w1: World, v1: World, c: nat, b: Start, ids: seq<nat>, ss: seq<Stmt>, irs: seq<IRStmt>)
    requires Wider(v0, w0, w1, v1) && c < |v0.scopes| && ListRep(v0, c, b, ids, ss) && WellNamedStmts(ss)
    requires c < |w0.scopes| && c < |w1.scopes| && c < |v1.scopes|
    requires ListRep(w0, c, b, ids, ss) && LoweredList(w0, w1, c, b, ids, ss, irs)
    ensures LoweredList(v0, v1, c, b, ids, ss, irs)
    decreases ss, 1
  {
    if ss != [] {
      hide Wider, StmtRep, LoweredStmt, WellNamedStmt;
      var k := |ss| - 1;
      ListWidened(v0, w0, w1, v1, c, b, ids[..k], ss[..k], irs[..k]);
      StmtWidened(v0, w0, w1, v1, c, ids[k], ss[k], irs[k]);
    }
  }

  lemma DetachedStable(w: World, w': World, t: nat, e: Ast)
    requires Valid(w) && Grows(w, w', 0) && t < |w.scopes| && WellNamed(e)
    ensures Detached(w', t, e) == Detached(w, t, e)
  {
    DirectStable(w, w', t, e);
  }

  // ----- Lowering -----

  /** `lower_stmt`: walks the ids from 0 up to a bound it reads again at every step. */
  method LowerScope(r: Registrar, c: nat, ghost b: Start, ghost ss: seq<Stmt>) returns (out: seq<IRStmt>)
    requires Valid(r.W()) && c < |r.scopes| && ScopeRep(r.W(), c, b, ss) && WellNamedStmts(ss)
    modifies r
    ensures Valid(r.W()) && Grows(old(r.W()), r.W(), 0) && c < |r.scopes|
    ensures LoweredScope(old(r.W()), r.W(), c, b, ss, out)
    ensures NoStructsStmts(ss) ==> r.W() == old(r.W())
    ensures Calm(old(r.W()), old(r.stale), r.W(), r.stale)
    decreases ss, 2
  {
    hide *;
    ghost var w0, b0 := r.W(), r.stale;
    r.Now();
    WalkStart(w0, c, b, ss);
    CalmSelf(w0, b0);
    var i: nat := 0;
    ghost var k: nat := 0;
    out := [];
    while i < r.next
      invariant Walked(w0, r.W(), c, b, ss, i, k, out) && Calm(w0, b0, r.W(), r.stale)
      decreases |ss| - k, r.next - i
    {
      ghost var w1, b1 := r.W(), r.stale;
      out, k := LowerAt(r, c, i, out, w0, b, ss, k);
      OneLowered(w0, b0, w1, b1, r.W(), r.stale, c);
      i := i + 1;
    }
    r.Now();
    WalkEnd(w0, r.W(), c, b, ss, i, k, out);
  }

  /** One turn of the loop: id `i` is that of the next statement, or of none. */
  method LowerAt(r: Registrar, c: nat, i: nat, before: seq<IRStmt>, ghost w0: World, ghost b: Start, ghost ss: seq<Stmt>, ghost k: nat)
    returns (out: seq<IRStmt>, ghost k': nat)
    requires Walked(w0, r.W(), c, b, ss, i, k, before) && i < r.next
    modifies r
    ensures Walked(w0, r.W(), c, b, ss, i + 1, k', out) && Grows(w0, old(r.W()), 0)
    ensures k < k' <= |ss| || (k' == k && r.next == old(r.next))
    ensures Grows(old(r.W()), r.W(), 0) && Calm(old(r.W()), old(r.stale), r.W(), r.stale)
    decreases ss, 1
  {
    hide *;
    ghost var w := r.W();
    r.Now();
    WalkedIs(w0, w, c, b, ss, i, k, before);
    var entry := r.FindId(c, i);
    if entry.Some? && IsStmt(entry.value.node) {
      WalkAt(w0, w, c, b, ss, i, k, before);
      var ir := LowerStmt(r, c, i, entry.value, ss[k]);
      r.Now();
      WalkStmt(w0, w, r.W(), c, b, ss, i, k, before, ir);
      out, k' := before + [ir], k + 1;
    } else {
      GrowsSelf(w);
      CalmSelf(w, r.stale);
      WalkSkip(w0, w, c, b, ss, i, k, before);
      out, k' := before, k;
    }
  }

  /** The ids below `i` have been visited; the first `k` statements of `ss` came out. */
  ghost predicate Walked(w0: World, w: World, c: nat, b: Start, ss: seq<Stmt>, i: nat, k: nat, out: seq<IRStmt>) {
    && Valid(w0) && Valid(w) && Grows(w0, w, 0) && c < |w0.scopes| && c < |w.scopes|
    && ScopeRep(w0, c, b, ss) && WellNamedStmts(ss) && (NoStructsStmts(ss) ==> w == w0)
    && k <= |ss| && i <= w.next
    && (var ids := StmtIds(w0, c, w0.next);
        && StmtIds(w0, c, if i <= w0.next then i else w0.next) == ids[..k]
        && ListRep(w0, c, b, ids[..k], ss[..k]) && LoweredList(w0, w, c, b, ids[..k], ss[..k], out))
  }

  lemma WalkStart(w: World, c: nat, b: Start, ss: seq<Stmt>)
    requires Valid(w) && c < |w.scopes| && ScopeRep(w, c, b, ss) && WellNamedStmts(ss)
    ensures Walked(w, w, c, b, ss, 0, 0, [])
  {
    assert StmtIds(w, c, w.next)[..0] == [] && ss[..0] == [];
  }

  lemma WalkedIs(w0: World, w: World, c: nat, b: Start, ss: seq<Stmt>, i: nat, k: nat, out: seq<IRStmt>)
    requires Walked(w0, w, c, b, ss, i, k, out)
    ensures Valid(w) && Grows(w0, w, 0) && c < |w.scopes| && k <= |ss|
  {
  }

  lemma WalkAt(w0: World, w: World, c: nat, b: Start, ss: seq<Stmt>, i: nat, k: nat, out: seq<IRStmt>)
    requires Walked(w0, w, c, b, ss, i, k, out) && c < |w.scopes|
    requires GetById(w, c, i).Some? && IsStmt(GetById(w, c, i).value.node)
    ensures Valid(w) && k < |ss| && WellNamedStmt(ss[k]) && i < w0.next && c < |w0.scopes|
    ensures StmtIds(w0, c, i + 1) == StmtIds(w0, c, w0.next)[..k + 1] && StmtIds(w0, c, w0.next)[k] == i
    ensures StmtRep(w0, c, i, ss[k]) && StmtRep(w, c, i, ss[k])
  {
    WalkPlace(w0, w, c, b, ss, i, k, out);
    hide *;
    WalkedAre(w0, w, c, b, ss, i, k, out);
    ScopeList(w0, c, b, ss);
    ListRepAt(w0, c, b, StmtIds(w0, c, w0.next), ss, k);
    StmtWellNamedAt(ss, k);
    GrowsAt(w0, w, c);
    StmtRepStable(w0, w, c, i, ss[k]);
  }

  lemma WalkedAre(w0: World, w: World, c: nat, b: Start, ss: seq<Stmt>, i: nat, k: nat, out: seq<IRStmt>)
    requires Walked(w0, w, c, b, ss, i, k, out)
    ensures Valid(w0) && Valid(w) && Grows(w0, w, 0) && c < |w0.scopes| && c < |w.scopes|
    ensures ScopeRep(w0, c, b, ss) && WellNamedStmts(ss) && k <= |ss|
    ensures k <= |StmtIds(w0, c, w0.next)| ==>
              StmtIds(w0, c, if i <= w0.next then i else w0.next) == StmtIds(w0, c, w0.next)[..k]
  {
  }

  lemma GrowsAt(w: World, w': World, c: nat)
    requires Grows(w, w', 0)
    ensures Kept(w, w') && OnlyExprs(w, w', c) && OnlyExprs(w, w', c + 1)
  {
    OnlyExprsAbove(w, w', 0, c);
    OnlyExprsAbove(w, w', 0, c + 1);
  }

  lemma WalkPlace(w0: World, w: World, c: nat, b: Start, ss: seq<Stmt>, i: nat, k: nat, out: seq<IRStmt>)
    requires Walked(w0, w, c, b, ss, i, k, out) && c < |w.scopes|
    requires GetById(w, c, i).Some? && IsStmt(GetById(w, c, i).value.node)
    ensures k < |ss| && i < w0.next && c < |w0.scopes|
    ensures StmtIds(w0, c, i + 1) == StmtIds(w0, c, w0.next)[..k + 1] && StmtIds(w0, c, w0.next)[k] == i
  {
    hide Walked, Valid, Grows, Kept, OnlyExprs, ScopeRep, StmtIds, ListRep, GetById;
    WalkedAre(w0, w, c, b, ss, i, k, out);
    ScopeList(w0, c, b, ss);
    GrowsAt(w0, w, c);
    EntryStable(w0, w, c, i);
    StmtIdsNext(w0, c, i);
    StmtIdsPrefix(w0, c, i + 1, w0.next);
  }

  lemma ScopeList(w: World, c: nat, b: Start, ss: seq<Stmt>)
    requires c < |w.scopes| && ScopeRep(w, c, b, ss)
    ensures ListRep(w, c, b, StmtIds(w, c, w.next), ss) && |StmtIds(w, c, w.next)| == |ss|
  {
  }

  lemma WalkStmt(w0: World, w: World, w2: World, c: nat, b: Start, ss: seq<Stmt>, i: nat, k: nat, out: seq<IRStmt>, ir: IRStmt)
    requires Walked(w0, w, c, b, ss, i, k, out) && i < w.next && Valid(w2) && Grows(w, w2, 0)
    requires k < |ss| && i < w0.next && c < |w0.scopes| && c < |w.scopes| && c < |w2.scopes|
    requires StmtRep(w0, c, i, ss[k]) && StmtRep(w, c, i, ss[k]) && LoweredStmt(w, w2, c, i, ss[k], ir) && WellNamedStmt(ss[k])
    requires NoStructsStmt(ss[k]) ==> w2 == w
    requires StmtIds(w0, c, i + 1) == StmtIds(w0, c, w0.next)[..k + 1] && StmtIds(w0, c, w0.next)[k] == i
    ensures Walked(w0, w2, c, b, ss, i + 1, k + 1, out + [ir])
  {
    GrowsSelf(w0);
    GrowsSelf(w2);
    WalkBounds(w0, w, w2, c, b, ss, i, k, out);
    WalkedAre(w0, w, c, b, ss, i, k, out);
    hide Valid, Grows, ScopeRep, StmtRep, LoweredStmt, LoweredList, ListRep, WellNamedStmts, WellNamedStmt, NoStructsStmts, GetById, StmtIds, NoStructsStmt;
    GrowsTransitive(w0, w, w2, 0);
    NoStructsStmtAt(ss, k);
    var ids := StmtIds(w0, c, w0.next);
    ScopeList(w0, c, b, ss);
    ListRepAt(w0, c, b, ids, ss, k);
    WellNamedPrefix(ss, k);
    ListWidened(w0, w0, w, w2, c, b, ids[..k], ss[..k], out);
    StmtWidened(w0, w, w2, w2, c, i, ss[k], ir);
    LoweredSnoc(w0, w2, c, b, ids, ss, k, out, ir);
  }

  lemma LoweredSnoc(w0: World, w: World, c: nat, b: Start, ids: seq<nat>, ss: seq<Stmt>, k: nat, out: seq<IRStmt>, ir: IRStmt)
    requires c < |w0.scopes| && c < |w.scopes| && k < |ss| == |ids|
    requires ListRep(w0, c, b, ids[..k], ss[..k]) && LoweredList(w0, w, c, b, ids[..k], ss[..k], out)
    requires ListRep(w0, c, b, ids[..k + 1], ss[..k + 1]) && StmtRep(w0, c, ids[k], ss[k]) && LoweredStmt(w0, w, c, ids[k], ss[k], ir)
    ensures LoweredList(w0, w, c, b, ids[..k + 1], ss[..k + 1], out + [ir])
  {
    hide StmtRep, LoweredStmt;
    assert ids[..k + 1][..k] == ids[..k] && ss[..k + 1][..k] == ss[..k] && (out + [ir])[..k] == out;
  }

  lemma WalkBounds(w0: World, w: World, w2: World, c: nat, b: Start, ss: seq<Stmt>, i: nat, k: nat, out: seq<IRStmt>)
    requires Walked(w0, w, c, b, ss, i, k, out) && Grows(w, w2, 0) && i < w.next
    ensures i + 1 <= w2.next
  {
  }

  lemma WalkSkip(w0: World, w: World, c: nat, b: Start, ss: seq<Stmt>, i: nat, k: nat, out: seq<IRStmt>)
    requires Walked(w0, w, c, b, ss, i, k, out) && i < w.next && c < |w.scopes|
    requires GetById(w, c, i).Some? ==> !IsStmt(GetById(w, c, i).value.node)
    ensures Walked(w0, w, c, b, ss, i + 1, k, out)
  {
    hide Valid, StmtRep, LoweredList, ListRep, NamesRep, WellNamedStmts, NoStructsStmts, GetById;
    EntryStable(w0, w, c, i);
  }

  lemma WalkEnd(w0: World, w: World, c: nat, b: Start, ss: seq<Stmt>, i: nat, k: nat, out: seq<IRStmt>)
    requires Walked(w0, w, c, b, ss, i, k, out) && i >= w.next
    ensures Valid(w) && Grows(w0, w, 0) && c < |w0.scopes| && c < |w.scopes| && ScopeRep(w0, c, b, ss)
    ensures LoweredScope(w0, w, c, b, ss, out) && (NoStructsStmts(ss) ==> w == w0)
  {
    hide Valid, StmtRep, LoweredList, NamesRep, WellNamedStmts, NoStructsStmts, GetById;
    var ids := StmtIds(w0, c, w0.next);
    ScopeList(w0, c, b, ss);
    assert ids[..k] == ids && ss[..k] == ss;
  }

  lemma {:induction false} NoStructsStmtAt(ss: seq<Stmt>, k: nat)
    requires k < |ss|
    ensures NoStructsStmts(ss) ==> NoStructsStmt(ss[k])
    decreases ss
  {
    if k < |ss| - 1 {
      NoStructsStmtAt(ss[..|ss| - 1], k);
    }
  }

  lemma {:induction false} WellNamedPrefix(ss: seq<Stmt>, k: nat)
    requires k <= |ss| && WellNamedStmts(ss)
    ensures WellNamedStmts(ss[..k])
    decreases ss
  {
    if k < |ss| {
      WellNamedPrefix(ss[..|ss| - 1], k);
      assert ss[..|ss| - 1][..k] == ss[..k];
    } else {
      assert ss[..k] == ss;
    }
  }

  lemma {:induction false} StmtIdsPrefix(w: World, c: nat, j: nat, hi: nat)
    requires c < |w.scopes| && j <= hi
    ensures StmtIds(w, c, j) <= StmtIds(w, c, hi)
  {
    hide GetById;
    if j < hi {
      StmtIdsPrefix(w, c, j, hi - 1);
    }
  }

  lemma {:induction false} ListRepAt(w: World, c: nat, b: Start, ids: seq<nat>, ss: seq<Stmt>, k: nat)
    requires c < |w.scopes| && ListRep(w, c, b, ids, ss) && k < |ss|
    ensures StmtRep(w, c, ids[k], ss[k])
    ensures ListRep(w, c, b, ids[..k], ss[..k]) && ListRep(w, c, b, ids[..k + 1], ss[..k + 1])
    decreases ss
  {
    hide StmtRep, SlotMoves, SlotTakenAt, GetById;
    var n := |ss| - 1;
    if k < n {
      ListRepAt(w, c, b, ids[..n], ss[..n], k);
      assert ids[..n][..k] == ids[..k] && ss[..n][..k] == ss[..k];
      assert ids[..n][..k + 1] == ids[..k + 1] && ss[..n][..k + 1] == ss[..k + 1];
    } else {
      assert ids[..k + 1] == ids && ss[..k + 1] == ss;
    }
  }

  /** The code holds a pointer to the statement's entry throughout. */
  method LowerStmt(r: Registrar, t: nat, id: nat, entry: Entry, ghost s: Stmt) returns (ir: IRStmt)
    requires Valid(r.W()) && t < |r.scopes| && StmtRep(r.W(), t, id, s) && WellNamedStmt(s)
    requires GetById(r.W(), t, id) == Some(entry)
    modifies r
    ensures Valid(r.W()) && Grows(old(r.W()), r.W(), 0) && t < |r.scopes|
    ensures LoweredStmt(old(r.W()), r.W(), t, id, s, ir)
    ensures NoStructsStmt(s) ==> r.W() == old(r.W())
    ensures Calm(old(r.W()), old(r.stale), r.W(), r.stale)
    decreases s, 1
  {
    hide *;
    r.Now();
    HeldMoves(r.W(), t, id);
    NodeOfStmt(r.W(), t, id, entry, s);
    if entry.node.NVar? || entry.node.NLet? || entry.node.NConst? {
      ir := LowerDeclaration(r, t, id, entry, s);
    } else if entry.node.NIf? {
      ir := LowerIf(r, t, id, entry, s);
    } else if entry.node.NWhile? || entry.node.NFor? {
      ir := LowerLoop(r, t, id, entry, s);
    } else {
      ir := LowerSimple(r, t, id, entry, s);
    }
  }

  lemma NodeOfStmt(w: World, t: nat, id: nat, entry: Entry, s: Stmt)
    requires t < |w.scopes| && StmtRep(w, t, id, s) && GetById(w, t, id) == Some(entry)
    ensures StmtNodeRep(w, t, entry.node, s)
    ensures var n := entry.node;
            n.NVar? || n.NLet? || n.NConst? || n.NIf? || n.NWhile? || n.NFor? || n.NReturn? || n.NExprStmt? || n.NAssign?
  {
  }

  method LowerDeclaration(r: Registrar, t: nat, id: nat, entry: Entry, ghost s: Stmt) returns (ir: IRStmt)
    requires Valid(r.W()) && t < |r.scopes| && r.scopes[t].moves >= 1 && StmtRep(r.W(), t, id, s) && WellNamedStmt(s)
    requires GetById(r.W(), t, id) == Some(entry) && (entry.node.NVar? || entry.node.NLet? || entry.node.NConst?)
    modifies r
    ensures Valid(r.W()) && Grows(old(r.W()), r.W(), 0) && t < |r.scopes|
    ensures LoweredStmt(old(r.W()), r.W(), t, id, s, ir)
    ensures NoStructsStmt(s) ==> r.W() == old(r.W())
    ensures Calm(old(r.W()), old(r.stale), r.W(), r.stale)
  {
    hide Valid, Kept, OnlyExprs, WellNamed, Direct, Detached, Rep, HolderRep, InPlaceRep, LoweredInit, NoStructs, Calm;
    ghost var w0, b0 := r.W(), r.stale;
    NodeOfStmt(w0, t, id, entry, s);
    if entry.node.NVar? {
      var init := LowerApart(r, t, entry.node.init, s.init);
      ir := IRVar(entry.name, entry.eid, init);
    } else {
      var init := LowerInPlace(r, t, entry.node.slot, s.init);
      ir := if entry.node.NLet? then IRLet(entry.name, entry.eid, init) else IRConst(entry.name, entry.eid, init);
    }
    KeptOf(w0, r.W());
    CalmSlot(w0, b0, w0, r.W(), r.stale, t);
    r.stale := r.stale || r.scopes[t].moves != w0.scopes[t].moves;
  }

  /** The initialiser of a `var` is read in the scope of the declaration, not in its own. */
  method LowerApart(r: Registrar, t: nat, h: Option<Handle>, ghost init: Option<Ast>) returns (ir: Option<IRExpr>)
    requires Valid(r.W()) && t < |r.scopes| && WellNamedOpt(init) && h.Some? == init.Some?
    requires init.Some? ==> HolderRep(r.W(), t, h.value.scope, h.value.id, init.value)
    modifies r
    ensures Valid(r.W()) && Grows(old(r.W()), r.W(), 0) && t < |r.scopes|
    ensures ir == if init.None? then None else Some(Detached(old(r.W()), t, init.value))
    ensures (init.Some? ==> NoStructs(init.value)) ==> r.W() == old(r.W())
    ensures Calm(old(r.W()), old(r.stale), r.W(), r.stale)
  {
    GrowsSelf(r.W());
    CalmSelf(r.W(), r.stale);
    hide Valid, Kept, OnlyExprs, WellNamed, Direct, Detached, NoStructs, NodeRep, Calm;
    ir := None;
    if h.Some? {
      ghost var w0 := r.W();
      var e := r.FindId(h.value.scope, h.value.id);
      HeldMoves(w0, h.value.scope, h.value.id);
      var x := r.LowerExpr(t, e.value, h.value.scope, init.value);
      KeptOf(w0, r.W());
      ir := Some(x);
    }
  }

  /** The initialiser of a `let` or `const` is read through the pointer to its bucket. */
  method LowerInPlace(r: Registrar, t: nat, slot: Option<Slot>, ghost init: Option<Ast>) returns (ir: Option<IRExpr>)
    requires Valid(r.W()) && t < |r.scopes| && WellNamedOpt(init) && InPlaceRep(r.W(), t, slot, init)
    modifies r
    ensures Valid(r.W()) && Grows(old(r.W()), r.W(), 0) && t < |r.scopes|
    ensures LoweredInit(old(r.W()), r.W(), t, slot, init, ir)
    ensures (init.Some? ==> NoStructs(init.value)) ==> r.W() == old(r.W())
    ensures Calm(old(r.W()), old(r.stale), r.W(), r.stale)
  {
    GrowsSelf(r.W());
    CalmSelf(r.W(), r.stale);
    hide Valid, OnlyExprs, WellNamed, Direct, Detached, NoStructs, NodeRep, Calm;
    if slot.None? {
      ir := None;
    } else if slot.value.moves != r.scopes[t].moves {
      ir := Some(IStale);
    } else {
      var e := r.FindId(t, slot.value.id);
      HeldMoves(r.W(), t, slot.value.id);
      var x := r.LowerExpr(t, e.value, t, init.value);
      ir := Some(x);
    }
  }

  /** A condition, read in the scope made for it. */
  method LowerHolder(r: Registrar, ghost t: nat, c: nat, id: nat, ghost e: Ast) returns (ir: IRExpr)
    requires Valid(r.W()) && t < |r.scopes| && HolderRep(r.W(), t, c, id, e) && WellNamed(e)
    modifies r
    ensures Valid(r.W()) && Grows(old(r.W()), r.W(), 0)
    ensures ir == Direct(old(r.W()), t, e)
    ensures NoStructs(e) ==> r.W() == old(r.W())
    ensures Calm(old(r.W()), old(r.stale), r.W(), r.stale)
  {
    DirectThroughExprScope(r.W(), c, e);
    RepFound(r.W(), c, id, e);
    HeldMoves(r.W(), c, id);
    hide Valid, Kept, OnlyExprs, Direct, NodeRep, Calm;
    var entry := r.FindId(c, id);
    ir := r.LowerExpr(c, entry.value, c, e);
  }

  /** A body, some time after `w0`. */
  method LowerBody(r: Registrar, t: nat, c: nat, ghost w0: World, ghost b0: bool, ghost ss: seq<Stmt>) returns (out: seq<IRStmt>)
    requires Valid(w0) && Valid(r.W()) && Grows(w0, r.W(), 0) && BodyRep(w0, t, c, BLANK, ss) && WellNamedStmts(ss)
    requires Calm(w0, b0, r.W(), r.stale)
    modifies r
    ensures Valid(r.W()) && Grows(old(r.W()), r.W(), 0) && Grows(w0, r.W(), 0)
    ensures LoweredBody(w0, r.W(), t, c, BLANK, ss, out)
    ensures NoStructsStmts(ss) ==> r.W() == old(r.W())
    ensures Calm(w0, b0, r.W(), r.stale)
    decreases ss, 3
  {
    hide *;
    ghost var w1, b1 := r.W(), r.stale;
    BodyRepStable(w0, w1, t, c, BLANK, ss);
    BodyIsScope(w1, t, c, BLANK, ss);
    r.Now();
    out := LowerScope(r, c, BLANK, ss);
    r.Now();
    BodyLowered(w0, w1, r.W(), t, c, BLANK, ss, out);
    OneLowered(w0, b0, w1, b1, r.W(), r.stale, c);
  }

  lemma BodyIsScope(w: World, t: nat, c: nat, b: Start, ss: seq<Stmt>)
    requires BodyRep(w, t, c, b, ss)
    ensures c < |w.scopes| && ScopeRep(w, c, b, ss)
  {
  }

  lemma BodyLowered(w0: World, w1: World, w2: World, t: nat, c: nat, b: Start, ss: seq<Stmt>, out: seq<IRStmt>)
    requires Valid(w0) && Valid(w1) && Valid(w2) && Grows(w0, w1, 0) && Grows(w1, w2, 0)
    requires BodyRep(w0, t, c, b, ss) && WellNamedStmts(ss) && c < |w1.scopes| && c < |w2.scopes|
    requires ScopeRep(w1, c, b, ss) && LoweredScope(w1, w2, c, b, ss, out)
    ensures Grows(w0, w2, 0) && LoweredBody(w0, w2, t, c, b, ss, out)
  {
    BodyRepStable(w0, w1, t, c, b, ss);
    GrowsSelf(w2);
    hide Valid, Kept, OnlyExprs, LoweredScope, ScopeRep, WellNamedStmts;
    GrowsTransitive(w0, w1, w2, 0);
    BodyWidened(w0, w1, w2, w2, t, c, b, ss, out);
  }

  method LowerIf(r: Registrar, t: nat, id: nat, entry: Entry, ghost s: Stmt) returns (ir: IRStmt)
    requires Valid(r.W()) && t < |r.scopes| && StmtRep(r.W(), t, id, s) && WellNamedStmt(s)
    requires GetById(r.W(), t, id) == Some(entry) && entry.node.NIf?
    modifies r
    ensures Valid(r.W()) && Grows(old(r.W()), r.W(), 0) && t < |r.scopes|
    ensures LoweredStmt(old(r.W()), r.W(), t, id, s, ir)
    ensures NoStructsStmt(s) ==> r.W() == old(r.W())
    ensures Calm(old(r.W()), old(r.stale), r.W(), r.stale)
    decreases s, 0
  {
    hide Valid, Kept, OnlyExprs, HolderRep, BodyRep, LoweredBody, Direct, WellNamedStmts, WellNamed, NoStructs, NoStructsStmts, Calm;
    ghost var w0, b0 := r.W(), r.stale;
    NodeOfStmt(w0, t, id, entry, s);
    var cond := LowerHolder(r, t, entry.node.condChild, entry.node.condId, s.cond);
    var body := LowerBody(r, t, entry.node.thenChild, w0, b0, s.body);
    ghost var w1 := r.W();
    var elseBody := LowerBody(r, t, entry.node.elseChild, w0, b0, s.elseBody);
    GrowsSelf(w0);
    BodyWidened(w0, w0, w1, r.W(), t, entry.node.thenChild, BLANK, s.body, body);
    KeptOf(w0, r.W());
    ir := IRIf(cond, body, elseBody);
  }

  method LowerLoop(r: Registrar, t: nat, id: nat, entry: Entry, ghost s: Stmt) returns (ir: IRStmt)
    requires Valid(r.W()) && t < |r.scopes| && StmtRep(r.W(), t, id, s) && WellNamedStmt(s)
    requires GetById(r.W(), t, id) == Some(entry) && (entry.node.NWhile? || entry.node.NFor?)
    modifies r
    ensures Valid(r.W()) && Grows(old(r.W()), r.W(), 0) && t < |r.scopes|
    ensures LoweredStmt(old(r.W()), r.W(), t, id, s, ir)
    ensures NoStructsStmt(s) ==> r.W() == old(r.W())
    ensures Calm(old(r.W()), old(r.stale), r.W(), r.stale)
    decreases s, 0
  {
    hide Valid, Kept, OnlyExprs, HolderRep, BodyRep, LoweredBody, Direct, WellNamedStmts, WellNamed, NoStructs, NoStructsStmts, Calm;
    ghost var w0, b0 := r.W(), r.stale;
    NodeOfStmt(w0, t, id, entry, s);
    if entry.node.NWhile? {
      var cond := LowerHolder(r, t, entry.node.condChild, entry.node.condId, s.cond);
      var body := LowerBody(r, t, entry.node.bodyChild, w0, b0, s.body);
      ir := IRWhile(cond, body);
    } else {
      var iter := LowerHolder(r, t, entry.node.iterChild, entry.node.iterId, s.iter);
      var body := LowerBody(r, t, entry.node.bodyChild, w0, b0, s.body);
      ir := IRFor(entry.node.var_, iter, body);
    }
    KeptOf(w0, r.W());
  }

  method LowerSimple(r: Registrar, t: nat, id: nat, entry: Entry, ghost s: Stmt) returns (ir: IRStmt)
    requires Valid(r.W()) && t < |r.scopes| && r.scopes[t].moves >= 1 && StmtRep(r.W(), t, id, s) && WellNamedStmt(s)
    requires GetById(r.W(), t, id) == Some(entry) && (entry.node.NReturn? || entry.node.NExprStmt? || entry.node.NAssign?)
    modifies r
    ensures Valid(r.W()) && Grows(old(r.W()), r.W(), 0) && t < |r.scopes|
    ensures LoweredStmt(old(r.W()), r.W(), t, id, s, ir)
    ensures NoStructsStmt(s) ==> r.W() == old(r.W())
    ensures Calm(old(r.W()), old(r.stale), r.W(), r.stale)
  {
    hide Valid, Kept, OnlyExprs, Rep, Direct, WellNamed, NoStructs, Calm;
    ghost var w0, b0 := r.W(), r.stale;
    NodeOfStmt(w0, t, id, entry, s);
    if entry.node.NAssign? {
      var target, value := LowerPair(r, t, entry.node.targetId, entry.node.valueId, s.target, s.value);
      ir := IRAssign(entry.node.op, target, value);
    } else if entry.node.NExprStmt? {
      var e := LowerHere(r, t, entry.node.exprId, s.e);
      ir := IRExprStmt(e);
    } else {
      var val := LowerResult(r, t, entry.node.exprId, s.val);
      ir := IRReturn(val);
    }
  }

  /** An expression found by its id in the scope of its statement. */
  method LowerHere(r: Registrar, t: nat, id: nat, ghost e: Ast) returns (ir: IRExpr)
    requires Valid(r.W()) && t < |r.scopes| && WellNamed(e) && Rep(r.W(), t, id, e)
    modifies r
    ensures Valid(r.W()) && Grows(old(r.W()), r.W(), 0) && t < |r.scopes|
    ensures ir == Direct(old(r.W()), t, e)
    ensures NoStructs(e) ==> r.W() == old(r.W())
    ensures Calm(old(r.W()), old(r.stale), r.W(), r.stale)
  {
    hide Valid, Kept, OnlyExprs, Rep, Direct, WellNamed, NoStructs, Calm;
    ghost var w0 := r.W();
    ir := r.LowerOperand(t, id, t, e);
    KeptOf(w0, r.W());
  }

  /** The expression of a `return`; the statement's entry is read again afterwards. */
  method LowerResult(r: Registrar, t: nat, id: nat, ghost val: Option<Ast>) returns (ir: Option<IRExpr>)
    requires Valid(r.W()) && t < |r.scopes| && r.scopes[t].moves >= 1 && WellNamedOpt(val)
    requires if val.Some? then Rep(r.W(), t, id, val.value) else id == 0
    modifies r
    ensures Valid(r.W()) && Grows(old(r.W()), r.W(), 0) && t < |r.scopes|
    ensures ir == if val.None? then None else Some(Direct(old(r.W()), t, val.value))
    ensures (val.Some? ==> NoStructs(val.value)) ==> r.W() == old(r.W())
    ensures Calm(old(r.W()), old(r.stale), r.W(), r.stale)
  {
    ghost var w0, b0 := r.W(), r.stale;
    ZeroIsNoId(w0, t);
    GrowsSelf(w0);
    CalmSelf(w0, b0);
    hide Valid, Kept, OnlyExprs, NodeRep, Direct, WellNamed, NoStructs, Calm;
    var e := r.FindId(t, id);
    ir := None;
    if e.Some? {
      var x := r.LowerExpr(t, e.value, t, val.value);
      KeptOf(w0, r.W());
      CalmSlot(w0, b0, w0, r.W(), r.stale, t);
      r.stale := r.stale || r.scopes[t].moves != w0.scopes[t].moves;
      ir := Some(x);
    }
  }

  /** Target and value: both entries are found before the first is lowered, and the second
      and the statement's own are read afterwards. */
  method LowerPair(r: Registrar, t: nat, aId: nat, bId: nat, ghost a: Ast, ghost b: Ast) returns (x: IRExpr, y: IRExpr)
    requires Valid(r.W()) && t < |r.scopes| && r.scopes[t].moves >= 1
    requires WellNamed(a) && WellNamed(b) && Rep(r.W(), t, aId, a) && Rep(r.W(), t, bId, b)
    modifies r
    ensures Valid(r.W()) && Grows(old(r.W()), r.W(), 0) && t < |r.scopes|
    ensures x == Direct(old(r.W()), t, a) && y == Direct(old(r.W()), t, b)
    ensures NoStructs(a) && NoStructs(b) ==> r.W() == old(r.W())
    ensures Calm(old(r.W()), old(r.stale), r.W(), r.stale)
  {
    hide *;
    ghost var w0, b0 := r.W(), r.stale;
    r.Now();
    RepFound(w0, t, aId, a);
    RepFound(w0, t, bId, b);
    var first := r.FindId(t, aId);
    var second := r.FindId(t, bId);
    x := r.LowerExpr(t, first.value, t, a);
    ghost var w1, b1 := r.W(), r.stale;
    r.Now();
    KeptOf(w0, w1);
    CalmSlot(w0, b0, w0, w1, b1, t);
    b1 := b1 || w1.scopes[t].moves != w0.scopes[t].moves;
    r.stale := b1;
    r.Now();
    SecondReady(w0, w1, t, second.value.node, b);
    y := r.LowerExpr(t, second.value, t, b);
    r.Now();
    SecondDone(w0, b0, w1, b1, r.W(), r.stale, t, b);
    r.stale := r.stale || r.scopes[t].moves != w0.scopes[t].moves;
    r.Now();
  }

  /** A `return` without a value refers to id 0, which no entry has. */
  lemma ZeroIsNoId(w: World, t: nat)
    requires Valid(w) && t < |w.scopes|
    ensures GetById(w, t, 0) == None
  {
    if Decimal(0) in w.Table(t) {
      assert KeyValid(w, t, Decimal(0));
      DecimalIsNoName(0);
      DecimalInjective(0, w.Table(t)[Decimal(0)].eid);
    }
  }
}

/** What registering a function body and lowering it again guarantees, without reference to
    scopes and ids: the IR mirrors the source, statement for statement. */
module StmtOrder {
  import opened Options
  import opened Decimals
  import opened Registry
  import opened Steadiness
  import opened StmtFills
  import opened Lowering
  import opened StmtRegistration
  import opened StmtLowering

  // ----- What names refer to, read off the IR alone -----

  datatype IRParam = IRParam(name: string, eid: nat)

  /** The lists a place of the IR lies in, from the innermost to that of the function, whose
      parameters come before its statements. */
  datatype Context = Nowhere | In(params: seq<IRParam>, list: seq<IRStmt>, outer: Context)

  predicate IsDeclaration(ir: IRStmt) {
    ir.IRVar? || ir.IRLet? || ir.IRConst?
  }

  predicate DeclaresName(ir: IRStmt, n: string) {
    IsDeclaration(ir) && ir.name == n
  }

  /** The id of the first statement of the list that declares `n`. */
  function FirstDeclared(irs: seq<IRStmt>, n: string): Option<nat> {
    if irs == [] then None else
      var k := |irs| - 1;
      var earlier := FirstDeclared(irs[..k], n);
      if earlier.Some? then earlier else if DeclaresName(irs[k], n) then Some(irs[k].eid) else None
  }

  function FirstParam(ps: seq<IRParam>, n: string): Option<nat> {
    if ps == [] then None else
      var k := |ps| - 1;
      var earlier := FirstParam(ps[..k], n);
      if earlier.Some? then earlier else if ps[k].name == n then Some(ps[k].eid) else None
  }

  /** The id of the nearest declaration of `n`; 0 if nothing declares it. */
  function IdOf(ctx: Context, n: string): nat {
    match ctx
    case Nowhere => 0
    case In(ps, irs, outer) =>
      if FirstParam(ps, n).Some? then FirstParam(ps, n).value
      else if FirstDeclared(irs, n).Some? then FirstDeclared(irs, n).value
      else IdOf(outer, n)
  }

  /** In terms of positions. */
  lemma {:induction false} FirstDeclaredIff(irs: seq<IRStmt>, n: string, id: nat)
    ensures FirstDeclared(irs, n) == None <==> forall k | 0 <= k < |irs| :: !DeclaresName(irs[k], n)
    ensures FirstDeclared(irs, n) == Some(id) <==>
            exists k | 0 <= k < |irs| :: DeclaresName(irs[k], n) && irs[k].eid == id && forall j | 0 <= j < k :: !DeclaresName(irs[j], n)
  {
    if irs != [] {
      var m := |irs| - 1;
      var init := irs[..m];
      FirstDeclaredIff(init, n, id);
      if exists k | 0 <= k < m :: DeclaresName(init[k], n) {
        var k :| 0 <= k < m && DeclaresName(init[k], n);
        assert DeclaresName(irs[k], n);
        assert forall k | 0 <= k < m :: irs[k] == init[k];
      } else {
        assert forall k | 0 <= k < m :: irs[k] == init[k];
      }
    }
  }

  /** Ids are positive, so that 0 is given exactly where nothing declares the name. */
  predicate PositiveIds(ctx: Context) {
    match ctx
    case Nowhere => true
    case In(ps, irs, outer) =>
      && (forall k | 0 <= k < |ps| :: ps[k].eid >= 1)
      && (forall k | 0 <= k < |irs| :: IsDeclaration(irs[k]) ==> irs[k].eid >= 1)
      && PositiveIds(outer)
  }

  predicate Undeclared(ctx: Context, n: string) {
    match ctx
    case Nowhere => true
    case In(ps, irs, outer) =>
      && (forall k | 0 <= k < |ps| :: ps[k].name != n)
      && (forall k | 0 <= k < |irs| :: !DeclaresName(irs[k], n))
      && Undeclared(outer, n)
  }

  lemma {:induction false} FirstParamIff(ps: seq<IRParam>, n: string, id: nat)
    ensures FirstParam(ps, n) == None <==> forall k | 0 <= k < |ps| :: ps[k].name != n
    ensures FirstParam(ps, n) == Some(id) <==>
            exists k | 0 <= k < |ps| :: ps[k] == IRParam(n, id) && forall j | 0 <= j < k :: ps[j].name != n
  {
    if ps != [] {
      var m := |ps| - 1;
      var init := ps[..m];
      FirstParamIff(init, n, id);
      assert forall k | 0 <= k < m :: ps[k] == init[k];
      if exists k | 0 <= k < m :: init[k].name == n {
        var k :| 0 <= k < m && init[k].name == n;
        assert ps[k].name == n;
      }
    }
  }

  lemma {:induction false} ZeroIffUndeclared(ctx: Context, n: string)
    requires PositiveIds(ctx)
    ensures IdOf(ctx, n) == 0 <==> Undeclared(ctx, n)
  {
    if ctx.In? {
      ZeroIffUndeclared(ctx.outer, n);
      FirstParamIff(ctx.params, n, 0);
      FirstDeclaredIff(ctx.list, n, 0);
    }
  }

  // ----- Mirroring -----

  predicate MirrorsExpr(ir: IRExpr, e: Ast, ctx: Context) {
    match e
    case Lit(t) => ir == ILit(t)
    case Name(n) => ir == IVarRef(n, IdOf(ctx, n))
    case Bin(op, l, r) => ir.IBin? && ir.op == op && MirrorsExpr(ir.lhs, l, ctx) && MirrorsExpr(ir.rhs, r, ctx)
    case CastTo(x, ty) => ir.ICast? && ir.ty == ty && MirrorsExpr(ir.inner, x, ctx)
    case Idx(b, i) => ir.IIdx? && MirrorsExpr(ir.object_, b, ctx) && MirrorsExpr(ir.index, i, ctx)
    case Call(f, args) => ir.ICall? && ir.fn == f && ir.eid == IdOf(ctx, f) && MirrorsAll(ir.args, args, ctx)
    case ClassCall(c, m, args) =>
      var f := m + "_" + c;
      ir.ICall? && ir.fn == f && ir.eid == IdOf(ctx, f) && MirrorsAll(ir.args, args, ctx)
    case StructLit(n, fs) => ir.IStruct? && ir.struct_ == n && ir.eid == IdOf(ctx, n) && MirrorsFields(ir.fields, fs, ctx)
    case EnumLit(n, v) => ir == IEnum(n, v)
  }

  predicate MirrorsAll(irs: seq<IRExpr>, es: seq<Ast>, ctx: Context) {
    |irs| == |es| && forall i | 0 <= i < |es| :: MirrorsExpr(irs[i], es[i], ctx)
  }

  predicate MirrorsFields(irs: seq<IRField>, fs: seq<FieldAst>, ctx: Context) {
    |irs| == |fs| && forall i | 0 <= i < |fs| :: irs[i].name == fs[i].name && MirrorsExpr(irs[i].val, fs[i].value, ctx)
  }

  /** What becomes of the initialiser of a `var`: its operands are lost. */
  predicate MirrorsApart(ir: IRExpr, e: Ast, ctx: Context) {
    match e
    case Bin(op, _, _) => ir == IBin(op, INull, INull)
    case CastTo(_, ty) => ir == ICast(INull, ty)
    case Idx(_, _) => ir == IIdx(INull, INull)
    case _ => MirrorsExpr(ir, e, ctx)
  }

  /** No stale pointer was read for `e`: neither when it was registered in a table filled as
      `f`, nor, if lowering moved any buckets, by a struct literal in it. */
  predicate Trusted(e: Ast, f: Fill, settled: bool) {
    Steady(f, e) && (settled || NoStructs(e))
  }

  /** A statement registered in a table filled as `f`, whose names mean what `ctx` says.
      `good`: a pointer it keeps survives registration.  `settled`: lowering moved no buckets. */
  predicate Mirrors(ir: IRStmt, s: Stmt, f: Fill, good: bool, settled: bool, ctx: Context)
    decreases s, 0
  {
    match s
    case Var(n, None) => ir.IRVar? && ir.name == n && ir.eid >= 1 && ir.init == None
    case Var(n, Some(e)) =>
      && ir.IRVar? && ir.name == n && ir.eid >= 1 && ir.init.Some?
      && (Trusted(e, EMPTY_FILL, settled) ==> MirrorsApart(ir.init.value, e, ctx))
    case Let(n, init) => ir.IRLet? && ir.name == n && ir.eid >= 1 && MirrorsInit(ir.init, init, f, good, settled, ctx)
    case Const(n, init) => ir.IRConst? && ir.name == n && ir.eid >= 1 && MirrorsInit(ir.init, init, f, good, settled, ctx)
    case If(c, b, eb) =>
      && ir.IRIf? && (Trusted(c, EMPTY_FILL, settled) ==> MirrorsExpr(ir.cond, c, ctx))
      && MirrorsList(ir.body, BLANK, b, settled, [], ctx) && MirrorsList(ir.elseBody, BLANK, eb, settled, [], ctx)
    case While(c, b) =>
      && ir.IRWhile? && (Trusted(c, EMPTY_FILL, settled) ==> MirrorsExpr(ir.cond, c, ctx))
      && MirrorsList(ir.body, BLANK, b, settled, [], ctx)
    case For(v, i, b) =>
      && ir.IRFor? && ir.var_ == v && (Trusted(i, EMPTY_FILL, settled) ==> MirrorsExpr(ir.iter, i, ctx))
      && MirrorsList(ir.body, BLANK, b, settled, [], ctx)
    case Return(None) => ir == IRReturn(None)
    case Return(Some(e)) => ir.IRReturn? && ir.val.Some? && (Trusted(e, f, settled) ==> MirrorsExpr(ir.val.value, e, ctx))
    case ExprStmt(e) => ir.IRExprStmt? && (Trusted(e, f, settled) ==> MirrorsExpr(ir.e, e, ctx))
    case Assign(op, t, v) =>
      && ir.IRAssign? && ir.op == op
      && (SteadyTwo(f, t, v) && (settled || (NoStructs(t) && NoStructs(v))) ==>
            MirrorsExpr(ir.target, t, ctx) && MirrorsExpr(ir.value, v, ctx))
  }

  /** The initialiser of a `let` or `const` is passed over if it is a plain call.  Otherwise it
      comes out if its pointer survives registration and lowering, and is lost if it does not
      survive registration. */
  predicate MirrorsInit(ir: Option<IRExpr>, init: Option<Ast>, f: Fill, good: bool, settled: bool, ctx: Context) {
    if init.None? || init.value.Call? then ir.None?
    else
      && ir.Some? && (!good ==> ir.value == IStale)
      && (good && Trusted(init.value, f, settled) ==> MirrorsExpr(ir.value, init.value, ctx) || (!settled && ir.value == IStale))
  }

  /** The k-th statement out comes from the k-th statement in, names mean what the parameters
      `ps`, the list itself and what is around it declare, and later declarations have
      greater ids. */
  predicate MirrorsList(irs: seq<IRStmt>, b: Start, ss: seq<Stmt>, settled: bool, ps: seq<IRParam>, outer: Context)
    decreases ss, 1
  {
    && |irs| == |ss|
    && (forall k | 0 <= k < |ss| :: Mirrors(irs[k], ss[k], FillAfter(b, ss[..k]), Survives(b, ss, k), settled, In(ps, irs, outer)))
    && forall j, k | 0 <= j < k < |irs| && IsDeclaration(irs[j]) && IsDeclaration(irs[k]) :: irs[j].eid < irs[k].eid
  }

  // ----- The direct translation mirrors its expression -----

  /** In scope `s` names mean what `ctx` says. */
  ghost predicate Means(w: World, s: nat, ctx: Context)
    requires s < |w.scopes|
  {
    forall n | IsName(n) :: Resolve(w, s, n) == IdOf(ctx, n)
  }

  lemma {:induction false} DirectMirrors(w: World, s: nat, e: Ast, ctx: Context)
    requires s < |w.scopes| && Means(w, s, ctx) && WellNamed(e)
    ensures MirrorsExpr(Direct(w, s, e), e, ctx)
    decreases e, 0
  {
    hide Resolve, IdOf;
    match e
    case Bin(_, l, r) =>
      DirectMirrors(w, s, l, ctx);
      DirectMirrors(w, s, r, ctx);
    case CastTo(x, _) => DirectMirrors(w, s, x, ctx);
    case Idx(b, i) =>
      DirectMirrors(w, s, b, ctx);
      DirectMirrors(w, s, i, ctx);
    case Call(_, args) => DirectAllMirrors(w, s, args, ctx);
    case ClassCall(_, _, args) => DirectAllMirrors(w, s, args, ctx);
    case StructLit(_, fs) => DirectFieldsMirrors(w, s, fs, ctx);
    case _ =>
  }

  lemma {:induction false} DirectAllMirrors(w: World, s: nat, es: seq<Ast>, ctx: Context)
    requires s < |w.scopes| && Means(w, s, ctx) && AllWellNamed(es)
    ensures MirrorsAll(DirectAll(w, s, es), es, ctx)
    decreases es, 1
  {
    if es != [] {
      DirectAllMirrors(w, s, es[..|es| - 1], ctx);
      DirectMirrors(w, s, es[|es| - 1], ctx);
    }
  }

  lemma {:induction false} DirectFieldsMirrors(w: World, s: nat, fs: seq<FieldAst>, ctx: Context)
    requires s < |w.scopes| && Means(w, s, ctx) && FieldsWellNamed(fs)
    ensures MirrorsFields(DirectFields(w, s, fs), fs, ctx)
    decreases fs, 1
  {
    if fs != [] {
      DirectFieldsMirrors(w, s, fs[..|fs| - 1], ctx);
      DirectMirrors(w, s, fs[|fs| - 1].value, ctx);
    }
  }

  // ----- Names in a list that has been lowered -----

  lemma {:induction false} FirstInList(w0: World, w1: World, c: nat, b: Start, ids: seq<nat>, ss: seq<Stmt>, irs: seq<IRStmt>, n: string)
    requires c < |w0.scopes| && c < |w1.scopes| && ListRep(w0, c, b, ids, ss) && LoweredList(w0, w1, c, b, ids, ss, irs) && IsName(n)
    ensures |ids| == |ss| && FirstDeclared(irs, n) == FirstDeclaration(ids, ss, n)
    decreases ss
  {
    if ss != [] {
      hide LoweredStmt, StmtRep, DeclaresName, DeclName;
      var k := |ss| - 1;
      FirstInList(w0, w1, c, b, ids[..k], ss[..k], irs[..k], n);
      DeclaredUnderId(w0, w1, c, ids[k], ss[k], irs[k], n);
    }
  }

  /** The parameters of a scope are what its start says. */
  ghost predicate ParamsMean(w: World, c: nat, b: Start, ps: seq<IRParam>)
    requires c < |w.scopes|
  {
    forall n | IsName(n) ::
      (n in b.names <==> FirstParam(ps, n).Some?) && (n in b.names ==> FirstParam(ps, n) == Some(Resolve(w, c, n)))
  }

  lemma NoParams(w: World, c: nat)
    requires c < |w.scopes|
    ensures ParamsMean(w, c, BLANK, [])
  {
  }

  lemma InnerContext(w0: World, w1: World, t: nat, c: nat, b: Start, ss: seq<Stmt>, irs: seq<IRStmt>, ps: seq<IRParam>, outer: Context)
    requires Valid(w0) && t < |w0.scopes| && BodyRep(w0, t, c, b, ss) && LoweredBody(w0, w1, t, c, b, ss, irs)
    requires Means(w0, t, outer) && ParamsMean(w0, c, b, ps)
    ensures Means(w0, c, In(ps, irs, outer))
  {
    hide Valid, ListRep, NamesRep, LoweredList, Resolve, FirstParam, FirstDeclared, FirstDeclaration, StmtIds;
    forall n | IsName(n)
      ensures Resolve(w0, c, n) == IdOf(In(ps, irs, outer), n)
    {
      NameMeansFirstDeclaration(w0, c, b, ss, n);
      FirstInList(w0, w1, c, b, StmtIds(w0, c, w0.next), ss, irs, n);
    }
  }

  // ----- What is lowered mirrors its source -----

  lemma DetachedMirrors(w: World, t: nat, e: Ast, ctx: Context)
    requires t < |w.scopes| && Means(w, t, ctx) && WellNamed(e)
    ensures MirrorsApart(Detached(w, t, e), e, ctx)
  {
    DirectMirrors(w, t, e, ctx);
  }

  lemma InitMirrors(w0: World, w1: World, t: nat, slot: Option<Slot>, init: Option<Ast>, ir: Option<IRExpr>, f: Fill, good: bool, ctx: Context)
    requires Valid(w0) && t < |w0.scopes| && t < |w1.scopes| && InPlaceRep(w0, t, slot, init) && Kept(w0, w1)
    requires LoweredInit(w0, w1, t, slot, init, ir) && Means(w0, t, ctx) && WellNamedOpt(init)
    requires slot.Some? ==> (good <==> slot.value.moves == w0.scopes[t].moves)
    ensures MirrorsInit(ir, init, f, good, Settled(w0, w1), ctx)
  {
    if !Dropped(init) {
      DirectMirrors(w0, t, init.value, ctx);
      HeldMoves(w0, t, slot.value.id);
    }
  }

  lemma {:induction false} StmtMirrors(w0: World, w1: World, t: nat, id: nat, s: Stmt, ir: IRStmt, f: Fill, moves: nat, ctx: Context)
    requires Valid(w0) && Kept(w0, w1) && t < |w0.scopes| && t < |w1.scopes|
    requires StmtRep(w0, t, id, s) && LoweredStmt(w0, w1, t, id, s, ir) && Means(w0, t, ctx) && WellNamedStmt(s)
    requires FullNode(w0, GetById(w0, t, id).value.node, s) && SlotTakenAt(GetById(w0, t, id).value.node, moves)
    ensures Mirrors(ir, s, f, moves == w0.scopes[t].moves, Settled(w0, w1), ctx)
    decreases s, 0
  {
    IdPositive(w0, t, id);
    hide Direct, MirrorsExpr, MirrorsApart, MirrorsInit, Detached, Rep, BodyRep, MirrorsList, LoweredBody, FullBody;
    hide InPlaceRep, LoweredInit, Trusted, SteadyTwo, Settled, Valid, Kept, NoStructs, Means, WellNamed, IsName;
    var node := GetById(w0, t, id).value.node;
    var good := moves == w0.scopes[t].moves;
    assert StmtNodeRep(w0, t, node, s);
    match s
    case Var(_, None) =>
    case Var(_, Some(e)) => DetachedMirrors(w0, t, e, ctx);
    case Let(_, init) => InitMirrors(w0, w1, t, node.slot, init, ir.init, f, good, ctx);
    case Const(_, init) => InitMirrors(w0, w1, t, node.slot, init, ir.init, f, good, ctx);
    case If(c, b, eb) =>
      DirectMirrors(w0, t, c, ctx);
      BodyMirrors(w0, w1, t, node.thenChild, b, ir.body, ctx);
      BodyMirrors(w0, w1, t, node.elseChild, eb, ir.elseBody, ctx);
    case While(c, b) =>
      DirectMirrors(w0, t, c, ctx);
      BodyMirrors(w0, w1, t, node.bodyChild, b, ir.body, ctx);
    case For(_, i, b) =>
      DirectMirrors(w0, t, i, ctx);
      BodyMirrors(w0, w1, t, node.bodyChild, b, ir.body, ctx);
    case Return(None) =>
    case Return(Some(e)) => DirectMirrors(w0, t, e, ctx);
    case ExprStmt(e) => DirectMirrors(w0, t, e, ctx);
    case Assign(_, tgt, v) =>
      DirectMirrors(w0, t, tgt, ctx);
      DirectMirrors(w0, t, v, ctx);
  }

  lemma IdPositive(w: World, t: nat, id: nat)
    requires Valid(w) && t < |w.scopes| && GetById(w, t, id).Some? && GetById(w, t, id).value.eid == id
    ensures id >= 1
  {
    assert KeyValid(w, t, Decimal(id));
  }

  lemma {:induction false} BodyMirrors(w0: World, w1: World, t: nat, c: nat, ss: seq<Stmt>, irs: seq<IRStmt>, outer: Context)
    requires Valid(w0) && Kept(w0, w1) && t < |w0.scopes| && Means(w0, t, outer) && WellNamedStmts(ss)
    requires BodyRep(w0, t, c, BLANK, ss) && FullBody(w0, c, BLANK, ss) && LoweredBody(w0, w1, t, c, BLANK, ss, irs)
    ensures MirrorsList(irs, BLANK, ss, Settled(w0, w1), [], outer)
    decreases ss, 3
  {
    hide Valid, Kept, Settled, ScopeRep, FullBody, LoweredScope, MirrorsList, Means, ParamsMean;
    NoParams(w0, c);
    InnerContext(w0, w1, t, c, BLANK, ss, irs, [], outer);
    ScopeMirrors(w0, w1, c, BLANK, ss, irs, [], outer);
  }

  /** Statement for statement, and the initialisers of `let` and `const` where their pointers
      survive. */
  lemma {:induction false} ScopeMirrors(w0: World, w1: World, c: nat, b: Start, ss: seq<Stmt>, irs: seq<IRStmt>, ps: seq<IRParam>, outer: Context)
    requires Valid(w0) && Kept(w0, w1) && c < |w0.scopes| && c < |w1.scopes| && ScopeRep(w0, c, b, ss) && FullBody(w0, c, b, ss)
    requires LoweredScope(w0, w1, c, b, ss, irs) && WellNamedStmts(ss) && Means(w0, c, In(ps, irs, outer))
    ensures MirrorsList(irs, b, ss, Settled(w0, w1), ps, outer)
    decreases ss, 2
  {
    hide Mirrors, StmtRep, LoweredStmt, FullNode, SlotMoves, StmtIds, Valid, Kept, Settled, FillAfter, Means, WellNamedStmt, ListRep, LoweredList;
    var ids := StmtIds(w0, c, w0.next);
    ScopeList(w0, c, b, ss);
    SameCount(w0, w1, c, b, ids, ss, irs);
    forall k | 0 <= k < |ss|
      ensures Mirrors(irs[k], ss[k], FillAfter(b, ss[..k]), Survives(b, ss, k), Settled(w0, w1), In(ps, irs, outer))
    {
      StmtAt(w0, w1, c, b, ids, ss, irs, k);
      StmtWellNamedAt(ss, k);
      StmtMirrors(w0, w1, c, ids[k], ss[k], irs[k], FillAfter(b, ss[..k]), SlotMoves(b, ss, k), In(ps, irs, outer));
    }
    IdsIncrease(w0, c, w0.next);
    forall j, k | 0 <= j < k < |irs| && IsDeclaration(irs[j]) && IsDeclaration(irs[k])
      ensures irs[j].eid < irs[k].eid
    {
      StmtAt(w0, w1, c, b, ids, ss, irs, j);
      DeclaredUnderId(w0, w1, c, ids[j], ss[j], irs[j], "x");
      StmtAt(w0, w1, c, b, ids, ss, irs, k);
      DeclaredUnderId(w0, w1, c, ids[k], ss[k], irs[k], "x");
    }
  }

  lemma DeclaredUnderId(w0: World, w1: World, t: nat, id: nat, s: Stmt, ir: IRStmt, n: string)
    requires t < |w0.scopes| && t < |w1.scopes| && StmtRep(w0, t, id, s) && LoweredStmt(w0, w1, t, id, s, ir) && IsName(n)
    ensures IsDeclaration(ir) ==> ir.eid == id
    ensures DeclaresName(ir, n) <==> DeclName(s) == n
  {
    hide Direct, Detached, LoweredBody, LoweredInit, Rep, BodyRep, InPlaceRep;
  }

  lemma {:induction false} IdsIncrease(w: World, t: nat, hi: nat)
    requires t < |w.scopes|
    ensures forall j, k | 0 <= j < k < |StmtIds(w, t, hi)| :: StmtIds(w, t, hi)[j] < StmtIds(w, t, hi)[k]
    ensures forall k | 0 <= k < |StmtIds(w, t, hi)| :: StmtIds(w, t, hi)[k] < hi
  {
    if hi > 0 {
      IdsIncrease(w, t, hi - 1);
    }
  }

  lemma SameCount(w0: World, w1: World, c: nat, b: Start, ids: seq<nat>, ss: seq<Stmt>, irs: seq<IRStmt>)
    requires c < |w0.scopes| && c < |w1.scopes| && ListRep(w0, c, b, ids, ss) && LoweredList(w0, w1, c, b, ids, ss, irs)
    ensures |irs| == |ss| == |ids|
  {
  }

  lemma {:induction false} StmtAt(w0: World, w1: World, c: nat, b: Start, ids: seq<nat>, ss: seq<Stmt>, irs: seq<IRStmt>, k: nat)
    requires c < |w0.scopes| && c < |w1.scopes| && ListRep(w0, c, b, ids, ss) && FullList(w0, c, ids, ss)
    requires LoweredList(w0, w1, c, b, ids, ss, irs) && k < |ss| == |irs| == |ids|
    ensures StmtRep(w0, c, ids[k], ss[k]) && LoweredStmt(w0, w1, c, ids[k], ss[k], irs[k])
    ensures FullNode(w0, GetById(w0, c, ids[k]).value.node, ss[k])
    ensures SlotTakenAt(GetById(w0, c, ids[k]).value.node, SlotMoves(b, ss, k))
    decreases ss
  {
    hide StmtRep, LoweredStmt, FullNode;
    var n := |ss| - 1;
    if k < n {
      assert ss[..n][..k] == ss[..k];
      StmtAt(w0, w1, c, b, ids[..n], ss[..n], irs[..n], k);
    }
  }

  // ----- Names -----

  /** In a scope filled from `ss`, a name means the first parameter that has it, else the first
      statement of `ss` that declares it, and otherwise what it means in the enclosing scope. */
  lemma NameMeansFirstDeclaration(w: World, c: nat, b: Start, ss: seq<Stmt>, n: string)
    requires Valid(w) && c < |w.scopes| && ScopeRep(w, c, b, ss) && IsName(n)
    ensures n in b.names ==> Lookup(w, c, n).Some? && Lookup(w, c, n).value.node == NParam(b.names[n])
    ensures n !in b.names ==>
              var first := FirstDeclaration(StmtIds(w, c, w.next), ss, n);
              Resolve(w, c, n) == match first
                                  case Some(id) => id
                                  case None => if w.scopes[c].parent.Some? then Resolve(w, w.scopes[c].parent.value, n) else 0
  {
    hide StmtIds, ListRep, FirstDeclaration;
    assert NamesRep(w, c, b, StmtIds(w, c, w.next), ss);
    assert NameRep(w, c, b, StmtIds(w, c, w.next), ss, n);
  }

  // ----- A whole function body -----

  /** The parameters as the IR lists them: each with the id its name has in the scope. */
  ghost predicate ParamsFound(w: World, c: nat, ps: seq<FieldAst>, params: seq<IRParam>)
    requires c < |w.scopes|
  {
    |params| == |ps| && forall i | 0 <= i < |ps| :: params[i] == IRParam(ps[i].name, Resolve(w, c, ps[i].name))
  }

  lemma {:induction false} FoundFirst(w: World, c: nat, ps: seq<FieldAst>, params: seq<IRParam>, n: string)
    requires c < |w.scopes| && ParamsFound(w, c, ps, params)
    ensures n in ParamNames(ps) <==> FirstParam(params, n).Some?
    ensures n in ParamNames(ps) ==> FirstParam(params, n) == Some(Resolve(w, c, n))
  {
    hide Resolve;
    if ps != [] {
      FoundFirst(w, c, ps[..|ps| - 1], params[..|ps| - 1], n);
    }
  }

  lemma FoundMean(w: World, c: nat, ps: seq<FieldAst>, params: seq<IRParam>)
    requires c < |w.scopes| && ParamsFound(w, c, ps, params)
    ensures ParamsMean(w, c, StartOf(ps), params)
  {
    hide ParamsFound, FirstParam, Resolve;
    forall n | IsName(n)
      ensures n in ParamNames(ps) <==> FirstParam(params, n).Some?
      ensures n in ParamNames(ps) ==> FirstParam(params, n) == Some(Resolve(w, c, n))
    {
      FoundFirst(w, c, ps, params, n);
    }
  }

  /** A parameter is found in the scope of its function. */
  lemma {:induction false} ParamResolves(w: World, c: nat, ps: seq<FieldAst>, ss: seq<Stmt>, i: nat)
    requires Valid(w) && c < |w.scopes| && ScopeRep(w, c, StartOf(ps), ss) && i < |ps| && IsName(ps[i].name)
    ensures Resolve(w, c, ps[i].name) >= 1
  {
    NameMeansFirstDeclaration(w, c, StartOf(ps), ss, ps[i].name);
    ParamIsNamed(ps, i);
    hide ScopeRep;
    assert KeyValid(w, c, ps[i].name);
  }

  lemma {:induction false} ParamIsNamed(ps: seq<FieldAst>, i: nat)
    requires i < |ps|
    ensures ps[i].name in ParamNames(ps)
    decreases ps
  {
    if i < |ps| - 1 {
      ParamIsNamed(ps[..|ps| - 1], i);
    }
  }

  /** Nothing is declared at the top. */
  lemma TopMeansNothing(w0: World, w: World)
    requires Valid(w0) && Grows(w0, w, 0) && w0.scopes == [EMPTY_SCOPE]
    ensures 0 < |w.scopes| && Means(w, 0, Nowhere)
  {
    forall n | IsName(n)
      ensures Resolve(w, 0, n) == 0
    {
      LookupStable(w0, w, 0, n);
    }
  }

  /** Registers parameters and body in a scope of their own under the top scope, then looks up
      the parameters and lowers that scope.  `stale` is returned if a pointer was read whose
      buckets had moved. */
  method TranslateBody(ps: seq<FieldAst>, ss: seq<Stmt>)
    returns (params: seq<IRParam>, out: seq<IRStmt>, ghost w: World, ghost c: nat, ghost w': World, ghost stale: bool)
    requires WellNamedStmts(ss) && forall i | 0 <= i < |ps| :: IsName(ps[i].name)
    ensures |params| == |ps| && forall i | 0 <= i < |ps| :: params[i].name == ps[i].name && params[i].eid >= 1
    ensures MirrorsList(out, StartOf(ps), ss, Settled(w, w'), params, Nowhere)
    ensures var steady := SteadyFields(ParamFill(ps), ps) && SteadyStmts(StartOf(ps), ss);
            (!steady ==> stale) && (stale ==> !steady || !Settled(w, w'))
    ensures NoStructsStmts(ss) ==> w' == w && Settled(w, w')
    ensures Valid(w) && Valid(w') && Grows(w, w', 0) && BodyRep(w, 0, c, StartOf(ps), ss) && FullBody(w, c, StartOf(ps), ss)
    ensures c < |w'.scopes| && LoweredScope(w, w', c, StartOf(ps), ss, out)
  {
    hide NoStructsStmts, MirrorsList, LoweredScope, ScopeRep, FullBody, Settled, SteadyFields, SteadyStmts, StartOf;
    hide Means, ParamsMean, Valid, Kept, OnlyExprs, FillOf, Resolve, ParamNames, ParamFill;
    var r := new Registrar();
    ghost var start := r.W();
    var body := RegisterFunctionBody(r, 0, ps, ss);
    w, c, stale := r.W(), body, r.stale;
    RegisteredIs(start, w, 0, 0);
    TopMeansNothing(start, w);
    params := [];
    for i := 0 to |ps|
      invariant r.W() == w && r.stale == stale && ParamsFound(w, c, ps[..i], params)
      invariant forall k | 0 <= k < i :: params[k].eid >= 1
    {
      var eid := r.ResolveId(body, ps[i].name);
      ParamResolves(w, c, ps, ss, i);
      params := params + [IRParam(ps[i].name, eid)];
    }
    assert ps[..|ps|] == ps;
    FoundMean(w, c, ps, params);
    out := LowerScope(r, body, StartOf(ps), ss);
    w', stale := r.W(), r.stale;
    KeptOf(w, w');
    InnerContext(w, w', 0, c, StartOf(ps), ss, out, params, Nowhere);
    ScopeMirrors(w, w', c, StartOf(ps), ss, out, params, Nowhere);
    SettledSelf(w);
  }

  lemma SettledSelf(w: World)
    ensures Settled(w, w)
  {
  }
}

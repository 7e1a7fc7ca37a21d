/** Registering expressions and lowering them again gives their direct translation. */
module Lowering {
  import opened Options
  import opened Decimals
  import opened Registry
  import opened Steadiness

  datatype IRExpr =
    | INull
    | IStale  // what a pointer to buckets that have moved away reads
    | ILit(text: string)
    | IVarRef(name: string, eid: nat)
    | IBin(op: nat, lhs: IRExpr, rhs: IRExpr)
    | ICast(inner: IRExpr, ty: string)
    | IIdx(object_: IRExpr, index: IRExpr)
    | ICall(fn: string, eid: nat, args: seq<IRExpr>)
    | IStruct(struct_: string, eid: nat, fields: seq<IRField>)
    | IEnum(enum: string, variant: string)

  datatype IRField = IRField(name: string, val: IRExpr)

  /** The name a class call is registered under. */
  function Mangle(cls: string, method_: string): string {
    method_ + "_" + cls
  }

  /** Every identifier starts as the lexer lets identifiers start. */
  predicate WellNamed(e: Ast) {
    match e
    case Lit(_) => true
    case Name(n) => IsName(n)
    case Bin(_, l, r) => WellNamed(l) && WellNamed(r)
    case CastTo(x, _) => WellNamed(x)
    case Idx(b, i) => WellNamed(b) && WellNamed(i)
    case Call(f, args) => IsName(f) && AllWellNamed(args)
    case ClassCall(_, m, args) => IsName(m) && AllWellNamed(args)
    case StructLit(n, fs) => IsName(n) && FieldsWellNamed(fs)
    case EnumLit(_, _) => true
  }

  predicate AllWellNamed(es: seq<Ast>) {
    es == [] || (AllWellNamed(es[..|es| - 1]) && WellNamed(es[|es| - 1]))
  }

  predicate FieldsWellNamed(fs: seq<FieldAst>) {
    fs == [] || (FieldsWellNamed(fs[..|fs| - 1]) && WellNamed(fs[|fs| - 1].value))
  }

  /** Lowering adds no entries to any table unless a struct literal is lowered. */
  predicate NoStructs(e: Ast) {
    match e
    case Bin(_, l, r) => NoStructs(l) && NoStructs(r)
    case CastTo(x, _) => NoStructs(x)
    case Idx(b, i) => NoStructs(b) && NoStructs(i)
    case Call(_, args) => NoStructsIn(args)
    case ClassCall(_, _, args) => NoStructsIn(args)
    case StructLit(_, _) => false
    case _ => true
  }

  predicate NoStructsIn(es: seq<Ast>) {
    es == [] || (NoStructsIn(es[..|es| - 1]) && NoStructs(es[|es| - 1]))
  }

  // ----- The direct translation -----

  /** The IR of `e` read in scope `s`: structural, with names resolved there. */
  function Direct(w: World, s: nat, e: Ast): IRExpr
    requires s < |w.scopes|
  {
    match e
    case Lit(t) => ILit(t)
    case Name(n) => IVarRef(n, Resolve(w, s, n))
    case Bin(op, l, r) => IBin(op, Direct(w, s, l), Direct(w, s, r))
    case CastTo(x, ty) => ICast(Direct(w, s, x), ty)
    case Idx(b, i) => IIdx(Direct(w, s, b), Direct(w, s, i))
    case Call(f, args) => ICall(f, Resolve(w, s, f), DirectAll(w, s, args))
    case ClassCall(c, m, args) => ICall(Mangle(c, m), Resolve(w, s, Mangle(c, m)), DirectAll(w, s, args))
    case StructLit(n, fs) => IStruct(n, Resolve(w, s, n), DirectFields(w, s, fs))
    case EnumLit(n, v) => IEnum(n, v)
  }

  function DirectAll(w: World, s: nat, es: seq<Ast>): seq<IRExpr>
    requires s < |w.scopes|
  {
    if es == [] then [] else DirectAll(w, s, es[..|es| - 1]) + [Direct(w, s, es[|es| - 1])]
  }

  function DirectFields(w: World, s: nat, fs: seq<FieldAst>): seq<IRField>
    requires s < |w.scopes|
  {
    if fs == [] then [] else
      DirectFields(w, s, fs[..|fs| - 1]) + [IRField(fs[|fs| - 1].name, Direct(w, s, fs[|fs| - 1].value))]
  }

  /** The translation depends only on how names resolve. */
  lemma {:induction false} DirectAgrees(w: World, s: nat, w': World, s': nat, e: Ast)
    requires s < |w.scopes| && s' < |w'.scopes| && WellNamed(e)
    requires forall n | IsName(n) :: Lookup(w', s', n) == Lookup(w, s, n)
    ensures Direct(w', s', e) == Direct(w, s, e)
    decreases e, 0
  {
    match e
    case Lit(_) =>
    case Name(_) =>
    case Bin(_, l, r) =>
      DirectAgrees(w, s, w', s', l);
      DirectAgrees(w, s, w', s', r);
    case CastTo(x, _) => DirectAgrees(w, s, w', s', x);
    case Idx(b, i) =>
      DirectAgrees(w, s, w', s', b);
      DirectAgrees(w, s, w', s', i);
    case Call(_, args) => DirectAllAgrees(w, s, w', s', args);
    case ClassCall(_, _, args) => DirectAllAgrees(w, s, w', s', args);
    case StructLit(_, fs) => DirectFieldsAgrees(w, s, w', s', fs);
    case EnumLit(_, _) =>
  }

  lemma {:induction false} DirectAllAgrees(w: World, s: nat, w': World, s': nat, es: seq<Ast>)
    requires s < |w.scopes| && s' < |w'.scopes| && AllWellNamed(es)
    requires forall n | IsName(n) :: Lookup(w', s', n) == Lookup(w, s, n)
    ensures DirectAll(w', s', es) == DirectAll(w, s, es)
    decreases es, 1
  {
    if es != [] {
      DirectAllAgrees(w, s, w', s', es[..|es| - 1]);
      DirectAgrees(w, s, w', s', es[|es| - 1]);
    }
  }

  lemma {:induction false} DirectFieldsAgrees(w: World, s: nat, w': World, s': nat, fs: seq<FieldAst>)
    requires s < |w.scopes| && s' < |w'.scopes| && FieldsWellNamed(fs)
    requires forall n | IsName(n) :: Lookup(w', s', n) == Lookup(w, s, n)
    ensures DirectFields(w', s', fs) == DirectFields(w, s, fs)
    decreases fs, 1
  {
    if fs != [] {
      DirectFieldsAgrees(w, s, w', s', fs[..|fs| - 1]);
      DirectAgrees(w, s, w', s', fs[|fs| - 1].value);
    }
  }

  lemma DirectStable(w: World, w': World, s: nat, e: Ast)
    requires Valid(w) && Grows(w, w', 0) && s < |w.scopes| && WellNamed(e)
    ensures Direct(w', s, e) == Direct(w, s, e)
  {
    forall n | IsName(n)
      ensures Lookup(w', s, n) == Lookup(w, s, n)
    {
      LookupStable(w, w', s, n);
    }
    DirectAgrees(w, s, w', s, e);
  }

  lemma DirectThroughExprScope(w: World, s: nat, e: Ast)
    requires Valid(w) && s < |w.scopes| && s in w.exprScopes && w.scopes[s].parent.Some? && WellNamed(e)
    ensures Direct(w, s, e) == Direct(w, w.scopes[s].parent.value, e)
  {
    forall n | IsName(n)
      ensures Lookup(w, s, n) == Lookup(w, w.scopes[s].parent.value, n)
    {
      LookupThroughExprScope(w, s, n);
    }
    DirectAgrees(w, w.scopes[s].parent.value, w, s, e);
  }

  // ----- What registration leaves behind -----

  /** Entry `id` of scope `s` stands for the expression `e`. */
  ghost predicate Rep(w: World, s: nat, id: nat, e: Ast)
    requires s < |w.scopes|
    decreases e, 1
  {
    GetById(w, s, id).Some? && NodeRep(w, s, GetById(w, s, id).value.node, e)
  }

  ghost predicate NodeRep(w: World, s: nat, node: Node, e: Ast)
    requires s < |w.scopes|
    decreases e, 0
  {
    match e
    case Lit(t) => node == NLit(t)
    case Name(n) => node == NName(n)
    case Bin(op, l, r) => node.NBin? && node.op == op && Rep(w, s, node.leftId, l) && Rep(w, s, node.rightId, r)
    case CastTo(x, ty) => node.NCast? && node.ty == ty && Rep(w, s, node.exprId, x)
    case Idx(b, i) => node.NIdx? && Rep(w, s, node.baseId, b) && Rep(w, s, node.indexId, i)
    case Call(f, args) => node.NCall? && node.fn == f && ArgsRep(w, s, node.child, node.argIds, args)
    case ClassCall(c, m, args) => node.NCall? && node.fn == Mangle(c, m) && ArgsRep(w, s, node.child, node.argIds, args)
    case StructLit(n, fs) => node == NStruct(n, fs)
    case EnumLit(n, v) => node == NEnum(n, v)
  }

  /** The arguments of a call live in a scope of their own. */
  ghost predicate ArgsRep(w: World, s: nat, child: nat, ids: seq<nat>, args: seq<Ast>)
    decreases args, 2
  {
    && child < |w.scopes| && child in w.exprScopes && w.scopes[child].parent == Some(s)
    && |ids| == |args|
    && (args == [] ||
        (ArgsRep(w, s, child, ids[..|ids| - 1], args[..|args| - 1]) && Rep(w, child, ids[|ids| - 1], args[|args| - 1])))
  }

  lemma {:induction false} RepKept(w: World, w': World, s: nat, id: nat, e: Ast)
    requires Kept(w, w') && s < |w.scopes| && Rep(w, s, id, e)
    ensures Rep(w', s, id, e)
    decreases e, 1
  {
    NodeRepKept(w, w', s, GetById(w, s, id).value.node, e);
  }

  lemma {:induction false} NodeRepKept(w: World, w': World, s: nat, node: Node, e: Ast)
    requires Kept(w, w') && s < |w.scopes| && NodeRep(w, s, node, e)
    ensures NodeRep(w', s, node, e)
    decreases e, 0
  {
    match e
    case Bin(_, l, r) =>
      RepKept(w, w', s, node.leftId, l);
      RepKept(w, w', s, node.rightId, r);
    case CastTo(x, _) => RepKept(w, w', s, node.exprId, x);
    case Idx(b, i) =>
      RepKept(w, w', s, node.baseId, b);
      RepKept(w, w', s, node.indexId, i);
    case Call(_, args) => ArgsRepKept(w, w', s, node.child, node.argIds, args);
    case ClassCall(_, _, args) => ArgsRepKept(w, w', s, node.child, node.argIds, args);
    case _ =>
  }

  lemma {:induction false} ArgsRepKept(w: World, w': World, s: nat, child: nat, ids: seq<nat>, args: seq<Ast>)
    requires Kept(w, w') && ArgsRep(w, s, child, ids, args)
    ensures ArgsRep(w', s, child, ids, args)
    decreases args, 2
  {
    if args != [] {
      ArgsRepKept(w, w', s, child, ids[..|ids| - 1], args[..|args| - 1]);
      RepKept(w, w', child, ids[|ids| - 1], args[|args| - 1]);
    }
  }

  lemma ArgsRepSnoc(w: World, s: nat, child: nat, ids: seq<nat>, args: seq<Ast>, id: nat, arg: Ast)
    requires ArgsRep(w, s, child, ids, args) && Rep(w, child, id, arg)
    ensures ArgsRep(w, s, child, ids + [id], args + [arg])
  {
    assert (args + [arg])[..|args|] == args && (ids + [id])[..|ids|] == ids;
  }

  /** More entries for a scope that `w0` does not have yet. */
  lemma RegisteredElsewhere(w0: World, w1: World, w2: World, child: nat, n: nat)
    requires Grows(w0, w1, 0) && SameElsewhere(w0, w1, child) && |w0.scopes| <= child && Registered(w1, w2, child, n)
    ensures Valid(w2) && Grows(w1, w2, 0) && Grows(w0, w2, 0) && SameElsewhere(w0, w2, child)
  {
    hide Valid, Kept, OnlyExprs;
    GrowsTransitive(w0, w1, w2, 0);
  }

  lemma ExprInserted(w0: World, w1: World, w2: World, s: nat, id: nat, node: Node, e: Ast)
    requires Valid(w1) && Registered(w0, w1, s, Size(e) - 1) && s < |w1.scopes| && NodeRep(w1, s, node, e) && IsExpr(node)
    requires w2 == Insert(w1, s, "", node) && id == w1.next
    ensures Registered(w0, w2, s, Size(e)) && Rep(w2, s, id, e)
  {
    hide *;
    InsertRegisters(w1, s, node);
    InsertGrows(w1, s, "", node);
    RegisteredMore(w0, w1, w2, s, Size(e) - 1, 1);
    RegisteredIs(w1, w2, s, 1);
    NodeRepKept(w1, w2, s, node, e);
    RepIf(w2, s, id, node, e);
  }

  /** An insertion reads no pointer. */
  lemma WatchedOnward(w0: World, b0: bool, w1: World, w2: World, b: bool, s: nat, node: Node, p: bool)
    requires Valid(w1) && s < |w1.scopes| && w2 == Insert(w1, s, "", node)
    requires Kept(w0, w1) && Watched(w0, b0, w1, b, p)
    ensures Watched(w0, b0, w2, b, p)
  {
    InsertGrows(w1, s, "", node);
    WatchedNothing(w1, b);
    hide *;
    WatchedMore(w0, b0, w1, b, w2, b, p, true);
  }

  /** The first `i` arguments have been registered in `child`, a scope that `w0` does not have. */
  ghost predicate ArgsDone(w0: World, b0: bool, w: World, b: bool, s: nat, child: nat, ids: seq<nat>, args: seq<Ast>, i: nat) {
    && i <= |args| && Valid(w) && Grows(w0, w, 0) && SameElsewhere(w0, w, child) && s < |w0.scopes| <= child < |w.scopes|
    && ArgsRep(w, s, child, ids, args[..i])
    && FillOf(w.scopes[child]) == After(EMPTY_FILL, AllSize(args[..i]))
    && Watched(w0, b0, w, b, SteadyAll(args[..i]))
  }

  lemma NoArgumentsYet(w0: World, b: bool, w: World, s: nat, child: nat, args: seq<Ast>)
    requires Valid(w0) && s < |w0.scopes| == child && w == MakeChild(w0, s, true)
    ensures ArgsDone(w0, b, w, b, s, child, [], args, 0)
  {
    MakeChildValid(w0, s, true);
    NoneYet(args, [], EMPTY_FILL);
    assert args[..0] == [];
  }

  lemma ArgsGoOn(w0: World, b0: bool, w: World, b: bool, s: nat, child: nat, ids: seq<nat>, args: seq<Ast>, i: nat)
    requires ArgsDone(w0, b0, w, b, s, child, ids, args, i)
    ensures Valid(w) && child < |w.scopes|
  {
  }

  lemma OneArgumentMore(w0: World, b0: bool, w1: World, b1: bool, w2: World, b2: bool, s: nat, child: nat, ids: seq<nat>, args: seq<Ast>, i: nat, id: nat)
    requires ArgsDone(w0, b0, w1, b1, s, child, ids, args, i) && i < |args| && child < |w1.scopes|
    requires Registered(w1, w2, child, Size(args[i])) && child < |w2.scopes| && Rep(w2, child, id, args[i])
    requires Watched(w1, b1, w2, b2, Steady(FillOf(w1.scopes[child]), args[i]))
    ensures ArgsDone(w0, b0, w2, b2, s, child, ids + [id], args, i + 1)
  {
    hide Valid, OnlyExprs, SameElsewhere, Watched, Steady, SteadyAll, FillOf, After, Registered, ArgsRep, Rep, AllSize;
    var n := AllSize(args[..i]);
    RegisteredElsewhere(w0, w1, w2, child, Size(args[i]));
    RegisteredFill(w1, w2, child, Size(args[i]));
    AfterAfter(EMPTY_FILL, n, Size(args[i]));
    OneArgument(args, i);
    ArgsRepKept(w1, w2, s, child, ids, args[..i]);
    ArgsRepSnoc(w2, s, child, ids, args[..i], id, args[i]);
    assert args[..i + 1] == args[..i] + [args[i]];
    hide Kept;
    WatchedMore(w0, b0, w1, b1, w2, b2, SteadyAll(args[..i]), Steady(After(EMPTY_FILL, n), args[i]));
  }

  lemma AllArgumentsDone(w0: World, b0: bool, w: World, b: bool, s: nat, child: nat, ids: seq<nat>, args: seq<Ast>)
    requires ArgsDone(w0, b0, w, b, s, child, ids, args, |args|)
    ensures Registered(w0, w, s, 0) && s < |w.scopes| && ArgsRep(w, s, child, ids, args) && Watched(w0, b0, w, b, SteadyAll(args))
  {
    assert args[..|args|] == args;
    hide Valid, Kept, OnlyExprs, ArgsRep, Watched, SteadyAll;
    NewScopeFilled(w0, w, child, s);
  }

  lemma RepIf(w: World, s: nat, id: nat, node: Node, e: Ast)
    requires s < |w.scopes| && GetById(w, s, id).Some? && GetById(w, s, id).value.node == node && NodeRep(w, s, node, e)
    ensures Rep(w, s, id, e)
  {
    hide NodeRep;
  }

  lemma NewScopeFilled(w0: World, w: World, child: nat, s: nat)
    requires Valid(w) && Grows(w0, w, 0) && SameElsewhere(w0, w, child) && s < |w0.scopes| <= child
    ensures Registered(w0, w, s, 0) && s < |w.scopes|
  {
  }

  // ----- The register object -----

  class Registrar {
    var scopes: seq<Scope>
    var next: nat
    ghost var exprScopes: set<nat>

    /** A pointer has been read whose buckets had moved. */
    ghost var stale: bool

    ghost function W(): World
      reads this
    {
      World(scopes, next, exprScopes)
    }

    /** The top register and the counter, which starts at 1. */
    constructor ()
      ensures W() == World([EMPTY_SCOPE], 1, {}) && Valid(W()) && !stale
    {
      scopes, next, exprScopes, stale := [EMPTY_SCOPE], 1, {}, false;
    }

    method NewChild(s: nat, ghost exprOnly: bool) returns (child: nat)
      requires Valid(W()) && s < |scopes|
      modifies this
      ensures child == |old(scopes)| && W() == MakeChild(old(W()), s, exprOnly) && stale == old(stale)
      ensures Valid(W()) && Grows(old(W()), W(), 0)
    {
      MakeChildValid(W(), s, exprOnly);
      child := |scopes|;
      exprScopes := exprScopes + if exprOnly then {child} else {};
      scopes := scopes + [EMPTY_SCOPE.(parent := Some(s))];
    }

    method InsertEntry(s: nat, name: string, node: Node) returns (id: nat)
      requires Valid(W()) && s < |scopes|
      requires name == "" || (IsName(name) && s !in exprScopes)
      modifies this
      ensures id == old(next) && W() == Insert(old(W()), s, name, node) && stale == old(stale)
      ensures Valid(W()) && Grows(old(W()), W(), s + 1)
      ensures name == "" && IsExpr(node) ==> Grows(old(W()), W(), 0)
      ensures GetById(W(), s, id) == Some(Entry(id, name, node))
    {
      InsertGrows(W(), s, name, node);
      InsertValid(W(), s, name, node);
      id := next;
      next := next + 1;
      var entry := Entry(id, name, node);
      var scope := scopes[s];
      if name != "" {
        scope := PutKey(scope, name, entry);
      }
      scope := PutKey(scope, Decimal(id), entry);
      scopes := scopes[s := scope];
    }

    /** `register_get`: walks from `s` to the root. */
    method Get(s: nat, n: string) returns (r: Option<Entry>)
      requires Valid(W()) && s < |scopes|
      ensures r == Lookup(W(), s, n)
    {
      var cur: Option<nat> := Some(s);
      while cur.Some?
        invariant cur.Some? ==> cur.value < |scopes| && Lookup(W(), s, n) == Lookup(W(), cur.value, n)
        invariant cur.None? ==> Lookup(W(), s, n) == None
        decreases if cur.Some? then cur.value + 1 else 0
      {
        if n in scopes[cur.value].table {
          return Some(scopes[cur.value].table[n]);
        }
        cur := scopes[cur.value].parent;
      }
      return None;
    }

    method ResolveId(s: nat, n: string) returns (eid: nat)
      requires Valid(W()) && s < |scopes|
      ensures eid == Resolve(W(), s, n)
    {
      var e := Get(s, n);
      eid := if e.Some? then e.value.eid else 0;
    }

    /** The world is the state of the object. */
    lemma Now()
      ensures W() == World(scopes, next, exprScopes)
    {
    }

    /** `register_expr` */
    method RegisterExpr(s: nat, e: Ast) returns (id: nat)
      requires Valid(W()) && s < |scopes|
      modifies this
      ensures Registered(old(W()), W(), s, Size(e)) && Rep(W(), s, id, e)
      ensures Watched(old(W()), old(stale), W(), stale, Steady(old(FillOf(scopes[s])), e))
      decreases e, 1
    {
      hide *;
      ghost var w0, b0, f := W(), stale, FillOf(scopes[s]);
      var node := BuildExpr(s, e);
      ghost var w1 := W();
      Now();
      RegisteredIs(w0, w1, s, Size(e) - 1);
      id := InsertEntry(s, "", node);
      ExprInserted(w0, w1, W(), s, id, node, e);
      WatchedOnward(w0, b0, w1, W(), stale, s, node, Steady(f, e));
    }

    /** The part of `register_expr` before its own insertion. */
    method BuildExpr(s: nat, e: Ast) returns (node: Node)
      requires Valid(W()) && s < |scopes|
      modifies this
      ensures Registered(old(W()), W(), s, Size(e) - 1) && s < |scopes|
      ensures NodeRep(W(), s, node, e) && IsExpr(node)
      ensures Watched(old(W()), old(stale), W(), stale, Steady(old(FillOf(scopes[s])), e))
      decreases e, 0
    {
      hide *;
      if e.Bin? || e.CastTo? || e.Idx? {
        node := BuildOperation(s, e);
      } else if e.Call? || e.ClassCall? {
        node := BuildCall(s, e);
      } else if e.StructLit? {
        node := BuildLiteral(s, e);
      } else {
        node := BuildAtom(s, e);
      }
    }

    method BuildOperation(s: nat, e: Ast) returns (node: Node)
      requires Valid(W()) && s < |scopes| && (e.Bin? || e.CastTo? || e.Idx?)
      modifies this
      ensures Registered(old(W()), W(), s, Size(e) - 1) && s < |scopes|
      ensures NodeRep(W(), s, node, e) && IsExpr(node)
      ensures Watched(old(W()), old(stale), W(), stale, Steady(old(FillOf(scopes[s])), e))
      decreases e, 0, 1
    {
      hide Valid, Kept, OnlyExprs, SameElsewhere, Registered, Watched, FillOf, After, HasRoom, Rep;
      if e.CastTo? {
        ghost var w0 := W();
        var exprId := RegisterExpr(s, e.inner);
        RegisteredIs(w0, W(), s, Size(e.inner));
        node := NCast(exprId, e.ty);
      } else if e.Bin? {
        var leftId, rightId := RegisterTwo(s, e.left, e.right, e);
        node := NBin(e.op, leftId, rightId);
      } else {
        var baseId, indexId := RegisterTwo(s, e.base, e.index, e);
        node := NIdx(baseId, indexId);
      }
    }

    method BuildCall(s: nat, e: Ast) returns (node: Node)
      requires Valid(W()) && s < |scopes| && (e.Call? || e.ClassCall?)
      modifies this
      ensures Registered(old(W()), W(), s, Size(e) - 1) && s < |scopes|
      ensures NodeRep(W(), s, node, e) && IsExpr(node)
      ensures Watched(old(W()), old(stale), W(), stale, Steady(old(FillOf(scopes[s])), e))
      decreases e, 0, 1
    {
      hide Valid, Kept, OnlyExprs, SameElsewhere, Registered, Watched, FillOf, ArgsRep, SteadyAll;
      var child, ids := RegisterArgs(s, e.args);
      node := NCall(if e.Call? then e.fn else Mangle(e.cls, e.method_), child, ids);
    }

    method BuildAtom(s: nat, e: Ast) returns (node: Node)
      requires Valid(W()) && s < |scopes| && (e.Lit? || e.Name? || e.EnumLit?)
      modifies this
      ensures Registered(old(W()), W(), s, Size(e) - 1) && s < |scopes|
      ensures NodeRep(W(), s, node, e) && IsExpr(node)
      ensures Watched(old(W()), old(stale), W(), stale, Steady(old(FillOf(scopes[s])), e))
      decreases e, 0, 1
    {
      NothingRegistered(W(), s);
      WatchedNothing(W(), stale);
      hide Valid, Kept, OnlyExprs, SameElsewhere, Registered, Watched, FillOf;
      node := if e.Lit? then NLit(e.text) else if e.Name? then NName(e.name) else NEnum(e.enum, e.variant);
    }

    method BuildLiteral(s: nat, e: Ast) returns (node: Node)
      requires Valid(W()) && s < |scopes| && e.StructLit?
      modifies this
      ensures Registered(old(W()), W(), s, Size(e) - 1) && s < |scopes|
      ensures NodeRep(W(), s, node, e) && IsExpr(node)
      ensures Watched(old(W()), old(stale), W(), stale, Steady(old(FillOf(scopes[s])), e))
      decreases e, 0, 1
    {
      hide Valid, Kept, OnlyExprs, SameElsewhere, Registered, Watched, FillOf, FieldsSize, SteadyFields;
      RegisterFields(s, e.fields);
      node := NStruct(e.struct_, e.fields);
    }

    /** Two operands; the id of the first is read after the second is registered. */
    method RegisterTwo(s: nat, l: Ast, r: Ast, ghost e: Ast) returns (leftId: nat, rightId: nat)
      requires Valid(W()) && s < |scopes|
      requires (e.Bin? && l == e.left && r == e.right) || (e.Idx? && l == e.base && r == e.index)
      modifies this
      ensures Registered(old(W()), W(), s, Size(l) + Size(r)) && s < |scopes|
      ensures Rep(W(), s, leftId, l) && Rep(W(), s, rightId, r)
      ensures Watched(old(W()), old(stale), W(), stale, SteadyTwo(old(FillOf(scopes[s])), l, r))
      decreases e, 0, 0
    {
      hide *;
      ghost var w0, b0 := W(), stale;
      Now();
      leftId := RegisterExpr(s, l);
      ghost var w1, b1 := W(), stale;
      Now();
      RegisteredIs(w0, w1, s, Size(l));
      rightId := RegisterExpr(s, r);
      Now();
      RegisteredIs(w1, W(), s, Size(r));
      RepKept(w1, W(), s, leftId, l);
      OperandsWatched(w0, b0, w1, b1, W(), stale, s, l, r);
      stale := stale || scopes[s].moves != w1.scopes[s].moves;
      Now();
    }

    /** The arguments of a call, in a scope of their own. */
    method RegisterArgs(s: nat, args: seq<Ast>) returns (child: nat, ids: seq<nat>)
      requires Valid(W()) && s < |scopes|
      modifies this
      ensures Registered(old(W()), W(), s, 0) && s < |scopes|
      ensures ArgsRep(W(), s, child, ids, args)
      ensures Watched(old(W()), old(stale), W(), stale, SteadyAll(args))
      decreases args, 1
    {
      ghost var w0, b0 := W(), stale;
      child := NewChild(s, true);
      ids := [];
      NoArgumentsYet(w0, b0, W(), s, child, args);
      hide *;
      for i := 0 to |args|
        invariant ArgsDone(w0, b0, W(), stale, s, child, ids, args, i)
      {
        ghost var w1, b1 := W(), stale;
        Now();
        ArgsGoOn(w0, b0, w1, b1, s, child, ids, args, i);
        var id := RegisterExpr(child, args[i]);
        OneArgumentMore(w0, b0, w1, b1, W(), stale, s, child, ids, args, i, id);
        ids := ids + [id];
      }
      Now();
      AllArgumentsDone(w0, b0, W(), stale, s, child, ids, args);
    }

    /** Registers field values whose entries nothing refers to. */
    method RegisterFields(s: nat, fs: seq<FieldAst>)
      requires Valid(W()) && s < |scopes|
      modifies this
      ensures Registered(old(W()), W(), s, FieldsSize(fs)) && s < |scopes|
      ensures Watched(old(W()), old(stale), W(), stale, SteadyFields(old(FillOf(scopes[s])), fs))
      decreases fs, 1
    {
      Now();
      hide *;
      ghost var w0, b0, f := W(), stale, FillOf(scopes[s]);
      NothingRegistered(w0, s);
      WatchedNothing(w0, b0);
      NoneYet([], fs, f);
      for i := 0 to |fs|
        invariant Registered(w0, W(), s, FieldsSize(fs[..i])) && Valid(W()) && s < |scopes|
        invariant Watched(w0, b0, W(), stale, SteadyFields(f, fs[..i]))
      {
        ghost var w1, b1 := W(), stale;
        Now();
        RegisteredFill(w0, w1, s, FieldsSize(fs[..i]));
        var _ := RegisterExpr(s, fs[i].value);
        Now();
        RegisteredIs(w1, W(), s, Size(fs[i].value));
        RegisteredFill(w1, W(), s, Size(fs[i].value));
        RegisteredMore(w0, w1, W(), s, FieldsSize(fs[..i]), Size(fs[i].value));
        WatchedMore(w0, b0, w1, b1, W(), stale, SteadyFields(f, fs[..i]), Steady(After(f, FieldsSize(fs[..i])), fs[i].value));
        OneField(f, fs, i);
      }
      assert fs[..|fs|] == fs;
    }

    // ----- Lowering -----

    /** `register_get_by_id` */
    method FindId(s: nat, id: nat) returns (r: Option<Entry>)
      requires s < |scopes|
      ensures r == GetById(W(), s, id)
    {
      var key := Decimal(id);
      r := if key in scopes[s].table then Some(scopes[s].table[key]) else None;
    }

    /** `lower_expr` on an entry that registration made for `e` in scope `home`, read in scope
        `s`; the code holds a pointer to the entry throughout. */
    method LowerExpr(s: nat, entry: Entry, ghost home: nat, ghost e: Ast) returns (ir: IRExpr)
      requires Valid(W()) && s < |scopes| && WellNamed(e)
      requires AtHome(W(), s, home) && scopes[home].moves >= 1 && NodeRep(W(), home, entry.node, e)
      modifies this
      ensures Valid(W()) && Grows(old(W()), W(), 0)
      ensures ir == if home == s then Direct(old(W()), s, e) else Detached(old(W()), s, e)
      ensures NoStructs(e) ==> W() == old(W())
      ensures Calm(old(W()), old(stale), W(), stale)
      decreases e, 1
    {
      hide Valid, Kept, OnlyExprs, Calm, Watched, Rep, ArgsRep, FieldsWellNamed, AllWellNamed;
      ghost var w0, b0 := W(), stale;
      GrowsSelf(w0);
      CalmSelf(w0, b0);
      match entry.node {
        case NCall(f, child, ids) =>
          var eid := ResolveId(s, f);
          var irs := LowerArgs(child, ids, s, home, e.args);
          ir := ICall(f, eid, irs);
        case NStruct(n, fs) =>
          var eid := ResolveId(s, n);
          var irs := LowerFields(s, fs, home);
          ir := IStruct(n, eid, irs);
        case NEnum(n, v) =>
          ir := IEnum(n, v);
        case NLit(t) =>
          ir := ILit(t);
        case NName(n) =>
          var eid := ResolveId(s, n);
          ir := IVarRef(n, eid);
        case NCast(exprId, ty) =>
          var inner := LowerOperand(s, exprId, home, e.inner);
          KeptOf(w0, W());
          CalmSlot(w0, b0, w0, W(), stale, home);
          stale := stale || scopes[home].moves != w0.scopes[home].moves;
          ir := ICast(inner, ty);
        case NBin(op, leftId, rightId) =>
          var lhs, rhs := LowerTwo(s, leftId, rightId, home, e.left, e.right, e);
          ir := IBin(op, lhs, rhs);
        case NIdx(baseId, indexId) =>
          var object_, index := LowerTwo(s, baseId, indexId, home, e.base, e.index, e);
          ir := IIdx(object_, index);
        case _ =>
          ir := INull;
      }
    }

    /** A sub-expression found by its id; a missing one leaves its place empty. */
    method LowerOperand(s: nat, id: nat, ghost home: nat, ghost e: Ast) returns (ir: IRExpr)
      requires Valid(W()) && s < |scopes| && WellNamed(e)
      requires AtHome(W(), s, home) && Rep(W(), home, id, e)
      modifies this
      ensures Valid(W()) && Grows(old(W()), W(), 0)
      ensures ir == if home == s then Direct(old(W()), s, e) else INull
      ensures NoStructs(e) ==> W() == old(W())
      ensures Calm(old(W()), old(stale), W(), stale)
      decreases e, 2
    {
      var entry := FindId(s, id);
      FoundAtHome(W(), s, home, id, e);
      CalmSelf(W(), stale);
      GrowsSelf(W());
      hide Valid, Kept, OnlyExprs, NodeRep, Direct, Detached, NoStructs, WellNamed, Calm;
      ir := INull;
      if entry.Some? {
        ir := LowerExpr(s, entry.value, s, e);
      }
    }

    /** Both entries are found before the first is lowered; the second, and the entry that
        refers to them, are read through their pointers afterwards. */
    method LowerTwo(s: nat, leftId: nat, rightId: nat, ghost home: nat, ghost l: Ast, ghost r: Ast, ghost e: Ast)
      returns (lhs: IRExpr, rhs: IRExpr)
      requires Valid(W()) && s < |scopes| && WellNamed(l) && WellNamed(r)
      requires (e.Bin? && l == e.left && r == e.right) || (e.Idx? && l == e.base && r == e.index)
      requires AtHome(W(), s, home) && Rep(W(), home, leftId, l) && Rep(W(), home, rightId, r)
      modifies this
      ensures Valid(W()) && Grows(old(W()), W(), 0)
      ensures lhs == if home == s then Direct(old(W()), s, l) else INull
      ensures rhs == if home == s then Direct(old(W()), s, r) else INull
      ensures NoStructs(l) && NoStructs(r) ==> W() == old(W())
      ensures Calm(old(W()), old(stale), W(), stale)
      decreases e, 0
    {
      hide *;
      ghost var w0, b0 := W(), stale;
      FoundAtHome(w0, s, home, leftId, l);
      FoundAtHome(w0, s, home, rightId, r);
      GrowsSelf(w0);
      CalmSelf(w0, b0);
      Now();
      var left := FindId(s, leftId);
      var right := FindId(s, rightId);
      lhs, rhs := INull, INull;
      if left.Some? {
        lhs := LowerExpr(s, left.value, s, l);
      }
      ghost var w1, b1 := W(), stale;
      Now();
      KeptOf(w0, w1);
      if right.Some? {
        CalmSlot(w0, b0, w0, w1, b1, s);
        b1 := b1 || w1.scopes[s].moves != w0.scopes[s].moves;
        stale := b1;
        Now();
        SecondReady(w0, w1, s, right.value.node, r);
        rhs := LowerExpr(s, right.value, s, r);
        Now();
        SecondDone(w0, b0, w1, b1, W(), stale, s, r);
        stale := stale || scopes[s].moves != w0.scopes[s].moves;
        Now();
      }
    }

    /** The arguments of a call, each in the call's own scope. */
    method LowerArgs(child: nat, ids: seq<nat>, ghost s: nat, ghost home: nat, ghost args: seq<Ast>) returns (irs: seq<IRExpr>)
      requires Valid(W()) && s < |scopes| && AllWellNamed(args)
      requires AtHome(W(), s, home) && ArgsRep(W(), home, child, ids, args)
      modifies this
      ensures Valid(W()) && Grows(old(W()), W(), 0)
      ensures irs == DirectAll(old(W()), s, args)
      ensures NoStructsIn(args) ==> W() == old(W())
      ensures Calm(old(W()), old(stale), W(), stale)
      decreases args, 3
    {
      ghost var w0, b0 := W(), stale;
      assert child != home && child < |w0.scopes| && |ids| == |args|;
      GrowsSelf(w0);
      CalmSelf(w0, b0);
      hide Valid, Kept, OnlyExprs, Direct, WellNamed, Detached, NodeRep, ArgsRep, AllWellNamed, Calm, NoStructsIn;
      irs := [];
      for i := 0 to |ids|
        invariant Valid(W()) && Grows(w0, W(), 0) && child < |scopes|
        invariant irs == DirectAll(w0, s, args[..i])
        invariant NoStructsIn(args) ==> W() == w0
        invariant Calm(w0, b0, W(), stale)
      {
        ghost var w1, b1 := W(), stale;
        NoStructsAt(args, i);
        ArgReady(w0, w1, s, home, child, ids, args, i);
        HeldMoves(w1, child, ids[i]);
        var entry := FindId(child, ids[i]);
        var ir := LowerExpr(child, entry.value, child, args[i]);
        irs := irs + [ir];
        OneLowered(w0, b0, w1, b1, W(), stale, child);
      }
      assert args[..|args|] == args;
    }

    /** The fields of a literal, which is read through the pointer to its entry for each of them. */
    method LowerFields(s: nat, fs: seq<FieldAst>, ghost home: nat) returns (irs: seq<IRField>)
      requires Valid(W()) && s < |scopes| && FieldsWellNamed(fs) && home < |scopes| && scopes[home].moves >= 1
      modifies this
      ensures Valid(W()) && Grows(old(W()), W(), 0)
      ensures irs == DirectFields(old(W()), s, fs)
      ensures Calm(old(W()), old(stale), W(), stale)
      decreases fs, 3
    {
      ghost var w0, b0 := W(), stale;
      GrowsSelf(w0);
      CalmSelf(w0, b0);
      hide Valid, Kept, OnlyExprs, Direct, NodeRep, Calm, FieldsWellNamed, WellNamed;
      irs := [];
      for i := 0 to |fs|
        invariant Valid(W()) && Grows(w0, W(), 0) && s < |scopes| && home < |scopes|
        invariant irs == DirectFields(w0, s, fs[..i])
        invariant Calm(w0, b0, W(), stale)
      {
        ghost var w1, b1 := W(), stale;
        FieldWellNamedAt(fs, i);
        assert fs[..i + 1][..i] == fs[..i];
        DirectStable(w0, w1, s, fs[i].value);
        var ir := RegisterAndLower(s, fs[i].value);
        irs := irs + [IRField(fs[i].name, ir)];
        OneLowered(w0, b0, w1, b1, W(), stale, home);
        OneLowered(w0, b0, w1, b1, W(), stale, s);
        CalmSlot(w0, b0, w0, W(), stale, home);
        stale := stale || scopes[home].moves != w0.scopes[home].moves;
      }
      assert fs[..|fs|] == fs;
    }

    /** A field value is registered afresh, and lowered at once. */
    method RegisterAndLower(s: nat, e: Ast) returns (ir: IRExpr)
      requires Valid(W()) && s < |scopes| && WellNamed(e)
      modifies this
      ensures Valid(W()) && Grows(old(W()), W(), 0)
      ensures ir == Direct(old(W()), s, e)
      ensures Calm(old(W()), old(stale), W(), stale)
      decreases e, 2
    {
      hide *;
      ghost var w0, b0, f := W(), stale, FillOf(scopes[s]);
      var id := RegisterExpr(s, e);
      ghost var w1, b1 := W(), stale;
      Now();
      RegisteredIs(w0, w1, s, Size(e));
      RegisteredMoves(w0, w1, s, Size(e));
      WatchedIsCalm(w0, b0, w1, b1, Steady(f, e));
      DirectStable(w0, w1, s, e);
      RepFound(w1, s, id, e);
      var entry := FindId(s, id);
      ir := LowerExpr(s, entry.value, s, e);
      OneLowered(w0, b0, w1, b1, W(), stale, s);
    }
  }

  lemma GrowsSelf(w: World)
    ensures Grows(w, w, 0)
  {
  }

  lemma KeptOf(w: World, w': World)
    requires Grows(w, w', 0)
    ensures Kept(w, w') && |w.scopes| <= |w'.scopes|
  {
  }

  lemma RepFound(w: World, s: nat, id: nat, e: Ast)
    requires s < |w.scopes| && Rep(w, s, id, e)
    ensures GetById(w, s, id).Some? && NodeRep(w, s, GetById(w, s, id).value.node, e) && AtHome(w, s, s)
  {
  }

  /** An operand is found in the scope it is read in only if it was registered there. */
  lemma FoundAtHome(w: World, s: nat, home: nat, id: nat, e: Ast)
    requires Valid(w) && AtHome(w, s, home) && Rep(w, home, id, e)
    ensures GetById(w, s, id).Some? <==> home == s
    ensures home == s ==> w.scopes[s].moves >= 1 && AtHome(w, s, s) && NodeRep(w, s, GetById(w, s, id).value.node, e)
  {
    HeldMoves(w, home, id);
  }

  lemma SecondReady(w0: World, w1: World, s: nat, node: Node, r: Ast)
    requires Valid(w0) && Grows(w0, w1, 0) && s < |w0.scopes| && w0.scopes[s].moves >= 1 && NodeRep(w0, s, node, r) && WellNamed(r)
    ensures s < |w1.scopes| && w1.scopes[s].moves >= 1 && AtHome(w1, s, s) && NodeRep(w1, s, node, r)
    ensures Direct(w1, s, r) == Direct(w0, s, r)
  {
    NodeRepKept(w0, w1, s, node, r);
    DirectStable(w0, w1, s, r);
    hide NodeRep, Direct;
  }

  lemma SecondDone(w0: World, b0: bool, w1: World, b1: bool, w2: World, b2: bool, s: nat, r: Ast)
    requires s < |w0.scopes| && w0.scopes[s].moves >= 1 && Grows(w0, w1, 0) && Grows(w1, w2, 0)
    requires Calm(w0, b0, w1, b1) && Calm(w1, b1, w2, b2)
    ensures s < |w2.scopes| && Grows(w0, w2, 0)
    ensures Calm(w0, b0, w2, b2 || w2.scopes[s].moves != w0.scopes[s].moves)
  {
    OneLowered(w0, b0, w1, b1, w2, b2, s);
    hide OnlyExprs, Calm;
    CalmSlot(w0, b0, w0, w2, b2, s);
  }

  lemma OneLowered(w0: World, b0: bool, w1: World, b1: bool, w2: World, b2: bool, s: nat)
    requires Grows(w0, w1, 0) && Grows(w1, w2, 0) && Calm(w0, b0, w1, b1) && Calm(w1, b1, w2, b2)
    ensures Grows(w0, w2, 0) && Kept(w0, w2) && Calm(w0, b0, w2, b2)
    ensures s < |w1.scopes| ==> s < |w2.scopes|
  {
    GrowsTransitive(w0, w1, w2, 0);
    hide OnlyExprs, Calm;
    CalmMore(w0, b0, w1, b1, w2, b2);
  }

  /** An entry is lowered in the scope it was registered in, or in the parent of a scope made for it. */
  ghost predicate AtHome(w: World, s: nat, home: nat) {
    s < |w.scopes| && home < |w.scopes| && (home == s || (home in w.exprScopes && w.scopes[home].parent == Some(s)))
  }

  /** What an expression registered in a child scope lowers to in the parent: operands that
      are found by id are not found there, and come out empty. */
  function Detached(w: World, s: nat, e: Ast): IRExpr
    requires s < |w.scopes|
  {
    match e
    case Bin(op, _, _) => IBin(op, INull, INull)
    case CastTo(_, ty) => ICast(INull, ty)
    case Idx(_, _) => IIdx(INull, INull)
    case _ => Direct(w, s, e)
  }

  /** That is the meaning of the expression exactly when it has no such operands. */
  lemma DetachedRightIff(w: World, s: nat, e: Ast)
    requires s < |w.scopes|
    ensures Detached(w, s, e) == Direct(w, s, e) <==> !(e.Bin? || e.CastTo? || e.Idx?)
  {
  }

  lemma {:induction false} ArgRepAt(w: World, s: nat, child: nat, ids: seq<nat>, args: seq<Ast>, i: nat)
    requires ArgsRep(w, s, child, ids, args) && i < |args| && AllWellNamed(args)
    ensures Rep(w, child, ids[i], args[i]) && WellNamed(args[i])
    decreases args
  {
    var n := |args| - 1;
    if i < n {
      ArgRepAt(w, s, child, ids[..n], args[..n], i);
    }
  }

  /** What lowering argument `i` needs, after the ones before it. */
  lemma ArgReady(w0: World, w1: World, s: nat, home: nat, child: nat, ids: seq<nat>, args: seq<Ast>, i: nat)
    requires Valid(w0) && Valid(w1) && Grows(w0, w1, 0) && AtHome(w0, s, home)
    requires ArgsRep(w0, home, child, ids, args) && child != home && i < |args| && AllWellNamed(args)
    ensures child < |w1.scopes| && Rep(w1, child, ids[i], args[i]) && WellNamed(args[i]) && AtHome(w1, child, child)
    ensures GetById(w1, child, ids[i]).Some? && NodeRep(w1, child, GetById(w1, child, ids[i]).value.node, args[i])
    ensures Direct(w1, child, args[i]) == Direct(w0, s, args[i])
    ensures DirectAll(w0, s, args[..i + 1]) == DirectAll(w0, s, args[..i]) + [Direct(w0, s, args[i])]
  {
    hide Valid, OnlyExprs, Direct, WellNamed, NodeRep;
    ArgRepAt(w0, home, child, ids, args, i);
    RepKept(w0, w1, child, ids[i], args[i]);
    DirectOfArg(w0, w1, s, home, child, args[i]);
    assert args[..i + 1][..i] == args[..i];
  }

  lemma {:induction false} NoStructsAt(es: seq<Ast>, i: nat)
    requires i < |es|
    ensures NoStructsIn(es) ==> NoStructs(es[i])
    decreases es
  {
    if i < |es| - 1 {
      NoStructsAt(es[..|es| - 1], i);
    }
  }

  lemma {:induction false} FieldWellNamedAt(fs: seq<FieldAst>, i: nat)
    requires FieldsWellNamed(fs) && i < |fs|
    ensures WellNamed(fs[i].value)
    decreases fs
  {
    if i < |fs| - 1 {
      FieldWellNamedAt(fs[..|fs| - 1], i);
    }
  }

  /** An argument means in its own scope what it means where the call stands. */
  lemma DirectOfArg(w0: World, w1: World, s: nat, home: nat, child: nat, e: Ast)
    requires Valid(w0) && Valid(w1) && Grows(w0, w1, 0) && WellNamed(e)
    requires AtHome(w0, s, home) && AtHome(w0, home, child) && child != home
    ensures Direct(w1, child, e) == Direct(w0, s, e)
  {
    DirectStable(w0, w1, child, e);
    DirectThroughExprScope(w0, child, e);
    if home != s {
      DirectThroughExprScope(w0, home, e);
    }
  }
}

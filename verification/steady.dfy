/** Which expressions can be registered without reading a stale pointer.  Registering an
    expression returns a pointer to its bucket; the id of a first operand is read through
    such a pointer only after the second operand has been put into the same table, whose
    buckets may have moved by then.  How full the table is before decides. */
module Steadiness {
  import opened Registry

  /** How many entries registering `e` adds to its own scope; arguments have theirs. */
  function Size(e: Ast): (n: nat)
    ensures n >= 1
  {
    match e
    case Bin(_, l, r) => Size(l) + Size(r) + 1
    case CastTo(x, _) => Size(x) + 1
    case Idx(b, i) => Size(b) + Size(i) + 1
    case StructLit(_, fs) => FieldsSize(fs) + 1
    case _ => 1
  }

  function FieldsSize(fs: seq<FieldAst>): nat {
    if fs == [] then 0 else FieldsSize(fs[..|fs| - 1]) + Size(fs[|fs| - 1].value)
  }

  function AllSize(es: seq<Ast>): nat {
    if es == [] then 0 else AllSize(es[..|es| - 1]) + Size(es[|es| - 1])
  }

  /** No stale pointer is read when `e` is registered in a table filled as `f`: of every two
      operands the second finds room. */
  predicate Steady(f: Fill, e: Ast)
    decreases e, 0
  {
    match e
    case Bin(_, l, r) => Steady(f, l) && Steady(After(f, Size(l)), r) && HasRoom(After(f, Size(l)), Size(r))
    case CastTo(x, _) => Steady(f, x)
    case Idx(b, i) => Steady(f, b) && Steady(After(f, Size(b)), i) && HasRoom(After(f, Size(b)), Size(i))
    case Call(_, args) => SteadyAll(args)
    case ClassCall(_, _, args) => SteadyAll(args)
    case StructLit(_, fs) => SteadyFields(f, fs)
    case _ => true
  }

  /** Arguments go into a table of their own, empty at first. */
  predicate SteadyAll(es: seq<Ast>)
    decreases es, 1
  {
    es == [] || (SteadyAll(es[..|es| - 1]) && Steady(After(EMPTY_FILL, AllSize(es[..|es| - 1])), es[|es| - 1]))
  }

  predicate SteadyFields(f: Fill, fs: seq<FieldAst>)
    decreases fs, 1
  {
    fs == [] || (SteadyFields(f, fs[..|fs| - 1]) && Steady(After(f, FieldsSize(fs[..|fs| - 1])), fs[|fs| - 1].value))
  }

  /** Two expressions, the first of which is read after the second is registered. */
  predicate SteadyTwo(f: Fill, l: Ast, r: Ast) {
    Steady(f, l) && Steady(After(f, Size(l)), r) && HasRoom(After(f, Size(l)), Size(r))
  }

  lemma NoneYet(es: seq<Ast>, fs: seq<FieldAst>, f: Fill)
    ensures AllSize(es[..0]) == 0 && SteadyAll(es[..0])
    ensures FieldsSize(fs[..0]) == 0 && SteadyFields(f, fs[..0])
  {
  }

  lemma OneField(f: Fill, fs: seq<FieldAst>, i: nat)
    requires i < |fs|
    ensures FieldsSize(fs[..i + 1]) == FieldsSize(fs[..i]) + Size(fs[i].value)
    ensures SteadyFields(f, fs[..i + 1]) <==> SteadyFields(f, fs[..i]) && Steady(After(f, FieldsSize(fs[..i])), fs[i].value)
  {
    hide Steady, After, Size;
    assert fs[..i + 1][..i] == fs[..i];
  }

  lemma OneArgument(es: seq<Ast>, i: nat)
    requires i < |es|
    ensures AllSize(es[..i + 1]) == AllSize(es[..i]) + Size(es[i])
    ensures SteadyAll(es[..i + 1]) <==> SteadyAll(es[..i]) && Steady(After(EMPTY_FILL, AllSize(es[..i])), es[i])
  {
    hide Steady, After, Size;
    assert es[..i + 1][..i] == es[..i];
  }

  /** The first operand's bucket is still there exactly if the second one finds room. */
  lemma FirstOperandStays(f: Fill, l: Ast, r: Ast)
    ensures After(f, Size(l) + Size(r)).moves == After(f, Size(l)).moves <==> HasRoom(After(f, Size(l)), Size(r))
  {
    AfterAfter(f, Size(l), Size(r));
    MovedIff(After(f, Size(l)), Size(r));
    hide After, Size;
  }

  /** Registering two expressions and then reading the id of the first through its pointer. */
  lemma OperandsWatched(w0: World, b0: bool, w1: World, b1: bool, w2: World, b2: bool, s: nat, l: Ast, r: Ast)
    requires Valid(w0) && s < |w0.scopes| && s < |w1.scopes|
    requires Registered(w0, w1, s, Size(l)) && Watched(w0, b0, w1, b1, Steady(FillOf(w0.scopes[s]), l))
    requires Registered(w1, w2, s, Size(r)) && Watched(w1, b1, w2, b2, Steady(FillOf(w1.scopes[s]), r))
    ensures Registered(w0, w2, s, Size(l) + Size(r)) && s < |w2.scopes|
    ensures Watched(w0, b0, w2, b2 || w2.scopes[s].moves != w1.scopes[s].moves, SteadyTwo(FillOf(w0.scopes[s]), l, r))
  {
    hide *;
    var f := FillOf(w0.scopes[s]);
    RegisteredFill(w0, w1, s, Size(l));
    RegisteredMore(w0, w1, w2, s, Size(l), Size(r));
    RegisteredFill(w0, w2, s, Size(l) + Size(r));
    RegisteredFill(w1, w2, s, Size(r));
    RegisteredMoves(w0, w1, s, Size(l));
    FirstOperandStays(f, l, r);
    var p, q := Steady(f, l), Steady(After(f, Size(l)), r);
    WatchedMore(w0, b0, w1, b1, w2, b2, p, q);
    WatchedSlot(w0, b0, w1, w2, b2, s, p && q);
    TwoAreSteady(f, l, r);
  }

  lemma RegisteredFill(w0: World, w: World, s: nat, n: nat)
    requires Registered(w0, w, s, n)
    ensures s < |w0.scopes| <= |w.scopes| && Kept(w0, w)
    ensures FillOf(w.scopes[s]) == After(FillOf(w0.scopes[s]), n)
    ensures w.scopes[s].moves == After(FillOf(w0.scopes[s]), n).moves
  {
    hide After;
  }

  lemma TwoAreSteady(f: Fill, l: Ast, r: Ast)
    ensures SteadyTwo(f, l, r) <==> Steady(f, l) && Steady(After(f, Size(l)), r) && HasRoom(After(f, Size(l)), Size(r))
  {
  }

  /** `a[1] as T` adds four entries to the scope it stands in; a call adds one, whatever its
      arguments; a struct literal adds those of its fields and one. */
  lemma EntriesAdded(a: string, x: string, ty: string, args: seq<Ast>)
    ensures Size(CastTo(Idx(Name(a), Lit(x)), ty)) == 4
    ensures Size(Call(a, args)) == Size(ClassCall(a, x, args)) == Size(EnumLit(a, x)) == 1
    ensures Size(StructLit(a, [FieldAst(x, Lit(x))])) == 2
  {
    assert Size(Idx(Name(a), Lit(x))) == 3;
    assert [FieldAst(x, Lit(x))][..0] == [] && FieldsSize([]) == 0;
  }

  /** `x = 1 + 2;` as the first statement of a body: the target's bucket moves before its id
      is read. */
  lemma SumAssignedIsUnsteady(x: string, op: nat, a: string, b: string)
    ensures !SteadyTwo(EMPTY_FILL, Name(x), Bin(op, Lit(a), Lit(b)))
  {
    assert After(EMPTY_FILL, 1) == Fresh(After(EMPTY_FILL, 0)) == Fill(1, 4, 1);
    assert Size(Bin(op, Lit(a), Lit(b))) == 3;
  }
}

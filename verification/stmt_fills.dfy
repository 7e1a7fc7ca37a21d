/** What the registration of a statement list does to the table of its scope, from the list
    alone: how full the table is after each statement, which of the pointers that `let` and
    `const` keep into it survive, and whether a stale pointer is read on the way. */
module StmtFills {
  import opened Options
  import opened Registry
  import opened Steadiness

  function DeclName(s: Stmt): string {
    if s.Var? || s.Let? || s.Const? then s.name else ""
  }

  /** `let` and `const` take a plain call for no initialiser. */
  predicate Dropped(init: Option<Ast>) {
    init.None? || init.value.Call?
  }

  /** How many entries the expressions of a statement add to the scope of its list. */
  function OwnSize(s: Stmt): nat {
    match s
    case Let(_, init) => if Dropped(init) then 0 else Size(init.value)
    case Const(_, init) => if Dropped(init) then 0 else Size(init.value)
    case Return(Some(e)) => Size(e)
    case ExprStmt(e) => Size(e)
    case Assign(_, tgt, v) => Size(tgt) + Size(v)
    case _ => 0
  }

  // ----- Where a list starts -----

  /** A scope before its first statement: how full it is, and which parameter each name that
      is taken refers to. */
  datatype Start = Start(fill: Fill, names: map<string, nat>)

  const BLANK := Start(EMPTY_FILL, map[])

  /** A name refers to the first parameter that has it. */
  function ParamNames(ps: seq<FieldAst>): map<string, nat> {
    if ps == [] then map[] else
      var k := |ps| - 1;
      var earlier := ParamNames(ps[..k]);
      if ps[k].name in earlier then earlier else earlier[ps[k].name := k]
  }

  /** The table after the entries of the parameters. */
  function ParamFill(ps: seq<FieldAst>): Fill {
    if ps == [] then EMPTY_FILL else
      var k := |ps| - 1;
      Fresh(if ps[k].name in ParamNames(ps[..k]) then Touch(ParamFill(ps[..k])) else Fresh(ParamFill(ps[..k])))
  }

  /** The scope of a function before its body: the parameters, then their default values. */
  function StartOf(ps: seq<FieldAst>): Start {
    Start(After(ParamFill(ps), FieldsSize(ps)), ParamNames(ps))
  }

  // ----- Filling -----

  /** A table after the registration of one more statement; its name may be taken. */
  function WithStmt(f: Fill, s: Stmt, taken: bool): Fill {
    var f1 := After(f, OwnSize(s));
    Fresh(if DeclName(s) == "" then f1 else if taken then Touch(f1) else Fresh(f1))
  }

  predicate Declares(ss: seq<Stmt>, n: string) {
    ss != [] && (Declares(ss[..|ss| - 1], n) || DeclName(ss[|ss| - 1]) == n)
  }

  predicate Taken(b: Start, ss: seq<Stmt>, n: string) {
    n in b.names || Declares(ss, n)
  }

  /** The table of a scope that was filled from `ss`. */
  function FillAfter(b: Start, ss: seq<Stmt>): Fill {
    if ss == [] then b.fill else
      var k := |ss| - 1;
      WithStmt(FillAfter(b, ss[..k]), ss[k], Taken(b, ss[..k], DeclName(ss[k])))
  }

  lemma FillAfterIs(b: Start, ss: seq<Stmt>)
    requires ss != []
    ensures var n := |ss| - 1; FillAfter(b, ss) == WithStmt(FillAfter(b, ss[..n]), ss[n], Taken(b, ss[..n], DeclName(ss[n])))
  {
  }

  lemma FillCount(f: Fill, s: Stmt)
    ensures WithStmt(f, s, false).count == f.count + OwnSize(s) + if DeclName(s) == "" then 1 else 2
  {
    MovedIff(f, OwnSize(s));
    hide After, OwnSize;
  }

  /** A loop and a `var` keep their expressions in scopes of their own; `let` puts its into the
      table it goes into itself, and a plain call nowhere. */
  lemma EntriesOfStatements(f: Fill, x: string, c: Ast, args: seq<Ast>, ss: seq<Stmt>)
    requires IsName(x)
    ensures WithStmt(f, While(c, ss), false).count == WithStmt(f, If(c, ss, ss), false).count == WithStmt(f, For(x, c, ss), false).count == f.count + 1
    ensures WithStmt(f, Var(x, Some(c)), false).count == f.count + 2
    ensures WithStmt(f, Let(x, Some(Bin(0, Lit(x), Lit(x)))), false).count == f.count + 5
    ensures WithStmt(f, Let(x, Some(Call(x, args))), false).count == f.count + 2
  {
    hide WithStmt;
    FillCount(f, While(c, ss));
    FillCount(f, If(c, ss, ss));
    FillCount(f, For(x, c, ss));
    FillCount(f, Var(x, Some(c)));
    FillCount(f, Let(x, Some(Bin(0, Lit(x), Lit(x)))));
    FillCount(f, Let(x, Some(Call(x, args))));
    assert Size(Bin(0, Lit(x), Lit(x))) == 3;
  }

  // ----- Which pointers survive -----

  /** How often the buckets have moved when statement `k` takes its pointer. */
  function SlotMoves(b: Start, ss: seq<Stmt>, k: nat): nat
    requires k < |ss|
  {
    After(FillAfter(b, ss[..k]), OwnSize(ss[k])).moves
  }

  /** The pointer is still good when the whole list is registered. */
  predicate Survives(b: Start, ss: seq<Stmt>, k: nat)
    requires k < |ss|
  {
    SlotMoves(b, ss, k) == FillAfter(b, ss).moves
  }

  /** The puts of a statement's entries find room: the table keeps its buckets. */
  predicate Fits(f: Fill, size: nat, name: string, taken: bool) {
    HasRoom(f, size + (if name == "" || taken then 0 else 1) + 1)
  }

  lemma WithStmtMoves(f: Fill, s: Stmt, taken: bool)
    ensures WithStmt(f, s, taken).moves >= f.moves
    ensures WithStmt(f, s, taken).moves == f.moves <==> Fits(f, OwnSize(s), DeclName(s), taken)
  {
    hide OwnSize;
    MovedIff(f, OwnSize(s));
  }

  lemma OwnEntryFits(f: Fill, s: Stmt, taken: bool)
    ensures var f1 := After(f, OwnSize(s));
            && WithStmt(f, s, taken).moves >= f1.moves
            && (WithStmt(f, s, taken).moves == f1.moves <==> Fits(f1, 0, DeclName(s), taken))
  {
    hide OwnSize;
  }

  /** The pointer of a `let` or `const` survives exactly if its own entry, and then every later
      statement of the list, finds room in the table. */
  lemma {:induction false} SurvivesIffRoom(b: Start, ss: seq<Stmt>, k: nat)
    requires k < |ss|
    ensures Survives(b, ss, k) <==>
            && Fits(After(FillAfter(b, ss[..k]), OwnSize(ss[k])), 0, DeclName(ss[k]), Taken(b, ss[..k], DeclName(ss[k])))
            && forall j | k < j < |ss| :: Fits(FillAfter(b, ss[..j]), OwnSize(ss[j]), DeclName(ss[j]), Taken(b, ss[..j], DeclName(ss[j])))
    ensures SlotMoves(b, ss, k) <= FillAfter(b, ss).moves
    decreases |ss|
  {
    hide Fits, OwnSize, Taken, FillAfter, WithStmt, After;
    var n := |ss| - 1;
    FillAfterIs(b, ss);
    if k == n {
      OwnEntryFits(FillAfter(b, ss[..k]), ss[k], Taken(b, ss[..k], DeclName(ss[k])));
    } else {
      SurvivesIffRoom(b, ss[..n], k);
      assert ss[..n][..k] == ss[..k];
      WithStmtMoves(FillAfter(b, ss[..n]), ss[n], Taken(b, ss[..n], DeclName(ss[n])));
      forall j | k < j < n
        ensures ss[..n][..j] == ss[..j]
      {
      }
    }
  }

  function LetOf(x: string, a: string): Stmt {
    Let(x, Some(Lit(a)))
  }

  lemma WithLet(f: Fill, x: string, a: string)
    requires IsName(x)
    ensures var s := LetOf(x, a);
            After(f, OwnSize(s)) == Fresh(f) && WithStmt(f, s, false) == Fresh(Fresh(Fresh(f))) && DeclName(s) == x
  {
    assert After(f, 1) == Fresh(After(f, 0)) == Fresh(f);
    hide Fresh;
  }

  lemma FillSoFar(ss: seq<Stmt>, s: Stmt)
    requires !Declares(ss, DeclName(s))
    ensures FillAfter(BLANK, ss + [s]) == WithStmt(FillAfter(BLANK, ss), s, false)
  {
    hide WithStmt, Declares, DeclName;
    assert (ss + [s])[..|ss|] == ss;
    FillAfterIs(BLANK, ss + [s]);
  }

  /** One more `let` of a literal under a new name: three puts. */
  lemma LetAdded(ss: seq<Stmt>, x: string, a: string)
    requires IsName(x) && !Declares(ss, x)
    ensures var f, s := FillAfter(BLANK, ss), LetOf(x, a);
            After(f, OwnSize(s)) == Fresh(f) && FillAfter(BLANK, ss + [s]) == Fresh(Fresh(Fresh(f)))
  {
    hide *;
    WithLet(FillAfter(BLANK, ss), x, a);
    FillSoFar(ss, LetOf(x, a));
  }

  lemma FirstFills()
    ensures Fresh(EMPTY_FILL) == Fill(1, 4, 1) && Fresh(Fresh(Fresh(EMPTY_FILL))) == Fill(3, 4, 1)
    ensures Fresh(Fill(3, 4, 1)) == Fill(4, 8, 2) && Fresh(Fresh(Fresh(Fill(3, 4, 1)))) == Fill(6, 8, 2)
    ensures Fresh(Fill(6, 8, 2)) == Fill(7, 16, 3) && Fresh(Fresh(Fresh(Fill(6, 8, 2)))) == Fill(9, 16, 3)
  {
    assert Fresh(Fill(1, 4, 1)) == Fill(2, 4, 1);
    assert Fresh(Fill(4, 8, 2)) == Fill(5, 8, 2);
    assert Fresh(Fill(7, 16, 3)) == Fill(8, 16, 3);
  }

  lemma LetsDeclare(x: string, a: string, y: string, b: string, n: string)
    requires n != ""
    ensures !Declares([], n) && (Declares([LetOf(x, a)], n) <==> n == x)
    ensures Declares([LetOf(x, a), LetOf(y, b)], n) <==> n == x || n == y
  {
    var s0, s1 := LetOf(x, a), LetOf(y, b);
    assert [s0][..0] == [] && [s0, s1][..1] == [s0];
    assert Declares([s0], n) <==> DeclName(s0) == n;
  }

  lemma NothingFilledYet()
    ensures FillAfter(BLANK, []) == EMPTY_FILL
  {
  }

  lemma LetsFill(x: string, a: string, y: string, b: string)
    requires IsName(x) && IsName(y) && x != y
    ensures var s0, s1 := LetOf(x, a), LetOf(y, b);
            && FillAfter(BLANK, []) == EMPTY_FILL && After(EMPTY_FILL, OwnSize(s0)) == Fill(1, 4, 1)
            && FillAfter(BLANK, [s0]) == Fill(3, 4, 1) && After(Fill(3, 4, 1), OwnSize(s1)) == Fill(4, 8, 2)
            && FillAfter(BLANK, [s0, s1]) == Fill(6, 8, 2)
  {
    assert x != "" && y != "";
    hide *;
    NothingFilledYet();
    LetsDeclare(x, a, y, b, x);
    LetsDeclare(x, a, y, b, y);
    LetAdded([], x, a);
    LetAdded([LetOf(x, a)], y, b);
    assert [] + [LetOf(x, a)] == [LetOf(x, a)];
    assert [LetOf(x, a)] + [LetOf(y, b)] == [LetOf(x, a), LetOf(y, b)];
    FirstFills();
  }

  lemma ThirdLetFill(x: string, a: string, y: string, b: string, z: string, c: string)
    requires IsName(x) && IsName(y) && IsName(z) && x != y && z != x && z != y
    ensures After(Fill(6, 8, 2), OwnSize(LetOf(z, c))) == Fill(7, 16, 3)
    ensures FillAfter(BLANK, [LetOf(x, a), LetOf(y, b), LetOf(z, c)]) == Fill(9, 16, 3)
  {
    assert z != "";
    hide *;
    var ss := [LetOf(x, a), LetOf(y, b)];
    LetsFill(x, a, y, b);
    LetsDeclare(x, a, y, b, z);
    LetAdded(ss, z, c);
    FirstFills();
    assert ss + [LetOf(z, c)] == [LetOf(x, a), LetOf(y, b), LetOf(z, c)];
  }

  /** `let x = 1; let y = 2;`: the entry for `2` moves the buckets, and `x` loses its value. */
  lemma SecondLetSpoilsFirst(x: string, a: string, y: string, b: string)
    requires IsName(x) && IsName(y) && x != y
    ensures var ss := [LetOf(x, a), LetOf(y, b)]; !Survives(BLANK, ss, 0) && Survives(BLANK, ss, 1)
  {
    hide FillAfter, OwnSize, After, LetOf, WithStmt, Fresh, Touch, IsName;
    LetsFill(x, a, y, b);
    var s0, s1 := LetOf(x, a), LetOf(y, b);
    assert [s0, s1][..0] == [] && [s0, s1][..1] == [s0];
  }

  /** A third `let` moves the buckets once more, spoils the second and keeps its own value. */
  lemma ThirdLetSpoilsSecond(x: string, a: string, y: string, b: string, z: string, c: string)
    requires IsName(x) && IsName(y) && IsName(z) && x != y && z != x && z != y
    ensures var ss := [LetOf(x, a), LetOf(y, b), LetOf(z, c)];
            !Survives(BLANK, ss, 0) && !Survives(BLANK, ss, 1) && Survives(BLANK, ss, 2)
  {
    hide FillAfter, OwnSize, After, LetOf, WithStmt, Fresh, Touch, IsName;
    LetsFill(x, a, y, b);
    ThirdLetFill(x, a, y, b, z, c);
    var ss := [LetOf(x, a), LetOf(y, b), LetOf(z, c)];
    assert ss[..0] == [] && ss[..1] == [ss[0]] && ss[..2] == [ss[0], ss[1]];
  }

  // ----- Which lists are steady -----

  /** No stale pointer is read when the statement is registered in a table filled as `f`. */
  predicate SteadyStmt(f: Fill, s: Stmt)
    decreases s, 0
  {
    match s
    case Var(_, init) => init.Some? ==> Steady(EMPTY_FILL, init.value)
    case Let(_, init) => !Dropped(init) ==> Steady(f, init.value)
    case Const(_, init) => !Dropped(init) ==> Steady(f, init.value)
    case If(c, b, eb) => Steady(EMPTY_FILL, c) && SteadyStmts(BLANK, b) && SteadyStmts(BLANK, eb)
    case While(c, b) => Steady(EMPTY_FILL, c) && SteadyStmts(BLANK, b)
    case For(_, i, b) => Steady(EMPTY_FILL, i) && SteadyStmts(BLANK, b)
    case Return(v) => v.Some? ==> Steady(f, v.value)
    case ExprStmt(e) => Steady(f, e)
    case Assign(_, tgt, v) => SteadyTwo(f, tgt, v)
  }

  predicate SteadyStmts(b: Start, ss: seq<Stmt>)
    decreases ss, 1
  {
    ss == [] || (SteadyStmts(b, ss[..|ss| - 1]) && SteadyStmt(FillAfter(b, ss[..|ss| - 1]), ss[|ss| - 1]))
  }

  lemma SteadySnoc(b: Start, ss: seq<Stmt>, s: Stmt)
    ensures SteadyStmts(b, ss + [s]) <==> SteadyStmts(b, ss) && SteadyStmt(FillAfter(b, ss), s)
  {
    hide SteadyStmt, FillAfter;
    assert (ss + [s])[..|ss|] == ss;
  }

  /** `x = 1 + 2;` at the start of a body without parameters reads a stale pointer. */
  lemma FirstAssignmentIsUnsteady(op: nat, x: string, plus: nat, a: string, b: string)
    ensures !SteadyStmt(BLANK.fill, Assign(op, Name(x), Bin(plus, Lit(a), Lit(b))))
  {
    SumAssignedIsUnsteady(x, plus, a, b);
  }
}

/** When the generated graph is well formed: exactly when `return` is last in every list. */
module CodegenWellFormed {
  import opened Codegen
  import opened CodegenSemantics

  /** `return` is the last statement of its list, at every nesting level. */
  predicate ReturnsLast(stmts: seq<Stmt>)
    decreases stmts, 0
  {
    stmts == [] ||
    ((stmts[0].Return? ==> |stmts| == 1) && ReturnsLastWithin(stmts[0]) && ReturnsLast(stmts[1..]))
  }

  predicate ReturnsLastWithin(s: Stmt)
    decreases s, 0
  {
    match s
    case If(_, t, f) => ReturnsLast(t) && ReturnsLast(f)
    case While(_, b) => ReturnsLast(b)
    case For(_, b) => ReturnsLast(b)
    case _ => true
  }

  /** Nothing follows a terminator. */
  predicate Clean(b: Block) {
    forall i | 0 <= i < |b| - 1 :: !b[i].Terminator()
  }

  /** Exactly one terminator, at the end. */
  predicate Sealed(b: Block) {
    Clean(b) && Terminated(b)
  }

  predicate Open(b: Block) {
    Clean(b) && !Terminated(b)
  }

  /** The blocks that generation from `g` to `g'` was in charge of, save the one it stands in, are sealed. */
  predicate SealedBetween(g: Graph, g': Graph)
    requires g.Valid() && g'.Valid()
  {
    forall b | 0 <= b < |g'.blocks| && (b >= |g.blocks| || b == g.cur) && b != g'.cur :: Sealed(g'.blocks[b])
  }

  predicate EndsInReturn(stmts: seq<Stmt>) {
    stmts != [] && stmts[|stmts| - 1].Return?
  }

  lemma {:induction false} ListSealed(stmts: seq<Stmt>, g: Graph)
    requires g.Valid() && Open(g.Here()) && ReturnsLast(stmts)
    ensures var g' := GenList(stmts, g);
            && SealedBetween(g, g') && Clean(g'.Here())
            && Terminated(g'.Here()) == EndsInReturn(stmts)
    decreases stmts, 0
  {
    if stmts != [] {
      var g1 := GenStmt(stmts[0], g);
      StmtSealed(stmts[0], g);
      GenStmtExtends(stmts[0], g);
      GenListExtends(stmts[1..], g1);
      if stmts[0].Return? {
        assert stmts[1..] == [];
      } else {
        ListSealed(stmts[1..], g1);
        assert stmts[1..] != [] ==> stmts[1..][|stmts[1..]| - 1] == stmts[|stmts| - 1];
      }
    }
  }

  lemma {:induction false} StmtSealed(s: Stmt, g: Graph)
    requires g.Valid() && Open(g.Here()) && ReturnsLastWithin(s)
    ensures var g' := GenStmt(s, g);
            && SealedBetween(g, g') && Clean(g'.Here())
            && Terminated(g'.Here()) == s.Return?
    decreases s, 1
  {
    match s
    case Simple(_) =>
    case Return(_) =>
    case If(_, _, _) => IfSealed(s, g);
    case While(c, b) => LoopSealed(c, b, g);
    case For(i, b) => LoopSealed(i, b, g);
  }

  lemma {:induction false} ArmSealed(body: seq<Stmt>, g: Graph, target: nat)
    requires g.Valid() && g.Here() == [] && ReturnsLast(body)
    ensures var g' := GenList(body, g).BranchUnlessTerminated(target);
            && Extends(g, g')
            && forall b | 0 <= b < |g'.blocks| && (b >= |g.blocks| || b == g.cur) :: Sealed(g'.blocks[b])
    decreases body, 1
  {
    ListSealed(body, g);
    GenListExtends(body, g);
  }

  lemma {:induction false} IfSealed(s: Stmt, g: Graph)
    requires g.Valid() && s.If? && Open(g.Here()) && ReturnsLastWithin(s)
    ensures SealedBetween(g, GenStmt(s, g)) && GenStmt(s, g).Here() == []
    decreases s, 0
  {
    hide GenList, GenStmt, GenIf, IfHead;
    var k, g1, g2 := |g.blocks|, IfHead(s, g), IfMiddle(s, g);
    IfStages(s, g);
    IfHeadBlocks(s, g);
    ArmSealed(s.thenBody, g1, k + 2);
    ArmSealed(s.elseBody, g2, k + 2);
    assert Sealed(g1.blocks[g.cur]);
  }

  lemma {:induction false} LoopSealed(c: Expr, b: seq<Stmt>, g: Graph)
    requires g.Valid() && Open(g.Here()) && ReturnsLast(b)
    ensures SealedBetween(g, GenLoop(c, b, g)) && GenLoop(c, b, g).Here() == []
    decreases b, 2
  {
    var k, g1 := |g.blocks|, LoopHead(c, g);
    ArmSealed(b, g1.(cur := k + 1), k);
    assert Sealed(g1.blocks[g.cur]);
    assert Sealed(g1.blocks[k]);
  }

  // ----- A misplaced return spoils a block for good -----

  predicate Spoiled(g: Graph) {
    exists b :: 0 <= b < |g.blocks| && !Clean(g.blocks[b])
  }

  lemma SpoiledStays(g: Graph, g': Graph)
    requires g.Valid() && g'.Valid() && Extends(g, g') && Spoiled(g)
    ensures Spoiled(g')
  {
    var b :| 0 <= b < |g.blocks| && !Clean(g.blocks[b]);
    assert g.blocks[b] <= g'.blocks[b];
  }

  /** Every statement appends to the block generation stands in. */
  lemma StmtAppends(s: Stmt, g: Graph)
    requires g.Valid()
    ensures |g.Here()| < |GenStmt(s, g).blocks[g.cur]|
  {
    match s
    case Simple(_) =>
    case Return(_) =>
    case If(c, _, _) => GenIfExtends(s, g.nextVal, g.EmitExpr(c));
    case While(c, b) => GenListExtends(b, LoopHead(c, g).(cur := |g.blocks| + 1));
    case For(i, b) => GenListExtends(b, LoopHead(i, g).(cur := |g.blocks| + 1));
  }

  lemma {:induction false} MisplacedReturnSpoils(stmts: seq<Stmt>, g: Graph)
    requires g.Valid() && !ReturnsLast(stmts)
    ensures Spoiled(GenList(stmts, g))
    decreases stmts, 0
  {
    var g1 := GenStmt(stmts[0], g);
    if stmts[0].Return? && |stmts| > 1 {
      var g2 := GenStmt(stmts[1], g1);
      StmtAppends(stmts[1], g1);
      GenStmtExtends(stmts[1], g1);
      assert g2.blocks[g.cur][|g1.Here()| - 1] == g1.Here()[|g1.Here()| - 1];
      assert !Clean(g2.blocks[g.cur]);
      GenListExtends(stmts[1..][1..], g2);
      assert GenList(stmts[1..], g1) == GenList(stmts[1..][1..], g2);
      SpoiledStays(g2, GenList(stmts, g));
    } else if !ReturnsLastWithin(stmts[0]) {
      MisplacedWithinSpoils(stmts[0], g);
      GenListExtends(stmts[1..], g1);
      SpoiledStays(g1, GenList(stmts, g));
    } else {
      MisplacedReturnSpoils(stmts[1..], g1);
    }
  }

  lemma {:induction false} MisplacedWithinSpoils(s: Stmt, g: Graph)
    requires g.Valid() && !ReturnsLastWithin(s)
    ensures Spoiled(GenStmt(s, g))
    decreases s, 0
  {
    match s
    case If(_, t, f) =>
      hide GenList, GenIf, IfHead;
      var k, g1, g2 := |g.blocks|, IfHead(s, g), IfMiddle(s, g);
      IfStages(s, g);
      if ReturnsLast(t) {
        MisplacedReturnSpoils(f, g2);
      } else {
        MisplacedReturnSpoils(t, g1);
        SpoiledArm(t, g1, k + 2, k + 1);
        GenListExtends(f, g2);
        SpoiledStays(g2, GenList(f, g2));
      }
      SpoiledArm(f, g2, k + 2, k + 2);
    case While(c, b) => MisplacedInLoopSpoils(c, b, g);
    case For(i, b) => MisplacedInLoopSpoils(i, b, g);
  }

  lemma {:induction false} MisplacedInLoopSpoils(c: Expr, b: seq<Stmt>, g: Graph)
    requires g.Valid() && !ReturnsLast(b)
    ensures Spoiled(GenLoop(c, b, g))
    decreases b, 1
  {
    var k, g1 := |g.blocks|, LoopHead(c, g).(cur := |g.blocks| + 1);
    MisplacedReturnSpoils(b, g1);
    SpoiledArm(b, g1, k, k + 2);
  }

  lemma SpoiledArm(body: seq<Stmt>, g: Graph, target: nat, next: nat)
    requires g.Valid() && Spoiled(GenList(body, g))
    ensures Spoiled(GenList(body, g).BranchUnlessTerminated(target).(cur := next))
  {
    var g1 := GenList(body, g);
    var g' := g1.BranchUnlessTerminated(target);
    SpoiledStays(g1, g');
    var b :| 0 <= b < |g'.blocks| && !Clean(g'.blocks[b]);
    assert !Clean(g'.(cur := next).blocks[b]);
  }

  // ----- Branch targets -----

  predicate TargetsExist(g: Graph) {
    forall b, i | 0 <= b < |g.blocks| && 0 <= i < |g.blocks[b]| :: g.blocks[b][i].TargetsBelow(|g.blocks|)
  }

  lemma {:induction false} ListTargets(stmts: seq<Stmt>, g: Graph)
    requires g.Valid() && TargetsExist(g)
    ensures TargetsExist(GenList(stmts, g))
    decreases stmts, 0
  {
    if stmts != [] {
      StmtTargets(stmts[0], g);
      ListTargets(stmts[1..], GenStmt(stmts[0], g));
    }
  }

  lemma {:induction false} StmtTargets(s: Stmt, g: Graph)
    requires g.Valid() && TargetsExist(g)
    ensures TargetsExist(GenStmt(s, g))
    decreases s, 1
  {
    match s
    case Simple(_) =>
    case Return(_) =>
    case If(_, _, _) => IfTargets(s, g);
    case While(c, b) => LoopTargets(c, b, g);
    case For(i, b) => LoopTargets(i, b, g);
  }

  lemma {:induction false} IfTargets(s: Stmt, g: Graph)
    requires g.Valid() && s.If? && TargetsExist(g)
    ensures TargetsExist(GenStmt(s, g))
    decreases s, 0
  {
    hide GenList, GenStmt, GenIf, IfHead;
    var k, g1, g2 := |g.blocks|, IfHead(s, g), IfMiddle(s, g);
    IfHeadBlocks(s, g);
    IfStages(s, g);
    ListTargets(s.thenBody, g1);
    ListTargets(s.elseBody, g2);
  }

  lemma {:induction false} LoopTargets(c: Expr, b: seq<Stmt>, g: Graph)
    requires g.Valid() && TargetsExist(g)
    ensures TargetsExist(GenLoop(c, b, g))
    decreases b, 1
  {
    ListTargets(b, LoopHead(c, g).(cur := |g.blocks| + 1));
  }

  // ----- Main theorems -----

  /** Every block but the insertion block has exactly one terminator, at its end, and
      nothing follows a terminator in the insertion block either. */
  predicate WellFormed(g: Graph) {
    forall b | 0 <= b < |g.blocks| :: Clean(g.blocks[b]) && (b != g.cur ==> Terminated(g.blocks[b]))
  }

  lemma WellFormedIffReturnsLast(stmts: seq<Stmt>)
    ensures WellFormed(GenList(stmts, ENTRY)) <==> ReturnsLast(stmts)
    ensures TargetsExist(GenList(stmts, ENTRY))
  {
    ListTargets(stmts, ENTRY);
    if ReturnsLast(stmts) {
      ListSealed(stmts, ENTRY);
    } else {
      MisplacedReturnSpoils(stmts, ENTRY);
    }
  }

  /** No block is left without a terminator exactly when the body also ends in `return`. */
  lemma CompleteIffEndsInReturn(stmts: seq<Stmt>)
    ensures (forall b | 0 <= b < |GenList(stmts, ENTRY).blocks| :: Sealed(GenList(stmts, ENTRY).blocks[b]))
       <==> ReturnsLast(stmts) && EndsInReturn(stmts)
  {
    WellFormedIffReturnsLast(stmts);
    if ReturnsLast(stmts) {
      ListSealed(stmts, ENTRY);
    }
  }
}

/** Lowering of structured statements to basic blocks.

    The foreign IR builder is modelled as a growing list of blocks and an insertion
    point; a block is the list of instructions appended to it, terminators included, so
    appending after a terminator is representable (it is what makes a module malformed).
    Expressions and straight-line statements are opaque handles: `Meaning` says what
    they do to a store, and every theorem holds for every meaning. */
module Codegen {
  import opened Options

  type Expr = nat
  type Action = nat

  datatype Stmt =
    | Simple(act: Action)  // declarations, plain assignments, expression statements
    | Return(val: Option<Expr>)
    | If(cond: Expr, thenBody: seq<Stmt>, elseBody: seq<Stmt>)
    | While(cond: Expr, body: seq<Stmt>)
    | For(iter: Expr, body: seq<Stmt>)

  datatype Instr =
    | Do(act: Action)
    | Compute(dst: nat, e: Expr)
    | Br(target: nat)
    | CondBr(cond: nat, onTrue: nat, onFalse: nat)
    | Ret(val: Option<nat>)
  {
    predicate Terminator() {
      Br? || CondBr? || Ret?
    }

    predicate TargetsBelow(n: nat) {
      (Br? ==> target < n) && (CondBr? ==> onTrue < n && onFalse < n)
    }
  }

  type Block = seq<Instr>

  predicate Terminated(b: Block) {
    b != [] && b[|b| - 1].Terminator()
  }

  // ----- The builder, on values -----

  datatype Graph = Graph(blocks: seq<Block>, cur: nat, nextVal: nat) {
    predicate Valid() {
      cur < |blocks|
    }

    function Here(): Block
      requires Valid()
    {
      blocks[cur]
    }

    function Emit(i: Instr): (g: Graph)
      requires Valid()
      ensures g.Valid()
    {
      this.(blocks := blocks[cur := blocks[cur] + [i]])
    }

    function Append(): (g: Graph)
      requires Valid()
      ensures g.Valid()
    {
      this.(blocks := blocks + [[]])
    }

    function EmitExpr(e: Expr): (g: Graph)
      requires Valid()
      ensures g.Valid()
    {
      Emit(Compute(nextVal, e)).(nextVal := nextVal + 1)
    }

    function BranchUnlessTerminated(target: nat): (g: Graph)
      requires Valid()
      ensures g.Valid()
    {
      if Terminated(Here()) then this else Emit(Br(target))
    }
  }

  const ENTRY := Graph([[]], 0, 0)

  function GenList(stmts: seq<Stmt>, g: Graph): (g': Graph)
    requires g.Valid()
    ensures g'.Valid() && |g'.blocks| >= |g.blocks|
    decreases stmts, 0
  {
    if stmts == [] then g else GenList(stmts[1..], GenStmt(stmts[0], g))
  }

  function GenStmt(s: Stmt, g: Graph): (g': Graph)
    requires g.Valid()
    ensures g'.Valid() && |g'.blocks| >= |g.blocks|
    decreases s, 1
  {
    match s
    case Simple(a) => g.Emit(Do(a))
    case Return(None) => g.Emit(Ret(None))
    case Return(Some(e)) => g.EmitExpr(e).Emit(Ret(Some(g.nextVal)))
    case If(c, _, _) => GenIf(s, g.nextVal, g.EmitExpr(c))
    case While(c, b) => GenLoop(c, b, g)
    case For(i, b) => GenLoop(i, b, g)
  }

  /** An `if` whose condition has been emitted as value `cond`. */
  function GenIf(s: Stmt, cond: nat, g: Graph): (g': Graph)
    requires g.Valid() && s.If?
    ensures g'.Valid() && |g'.blocks| >= |g.blocks|
    decreases s, 0
  {
    var n := |g.blocks|;
    var g1 := g.Append().Append().Append().Emit(CondBr(cond, n, n + 1)).(cur := n);
    var g2 := GenList(s.thenBody, g1).BranchUnlessTerminated(n + 2).(cur := n + 1);
    GenList(s.elseBody, g2).BranchUnlessTerminated(n + 2).(cur := n + 2)
  }

  function GenLoop(c: Expr, b: seq<Stmt>, g: Graph): (g': Graph)
    requires g.Valid()
    ensures g'.Valid() && |g'.blocks| >= |g.blocks|
    decreases b, 1
  {
    var n := |g.blocks|;
    var g1 := LoopHead(c, g);
    GenList(b, g1.(cur := n + 1)).BranchUnlessTerminated(n).(cur := n + 2)
  }

  /** The three blocks of a loop, with the branch into it and the test in the first. */
  function LoopHead(c: Expr, g: Graph): (g': Graph)
    requires g.Valid()
    ensures g'.Valid() && |g'.blocks| == |g.blocks| + 3
  {
    var n := |g.blocks|;
    var g1 := g.Append().Append().Append().Emit(Br(n)).(cur := n);
    g1.EmitExpr(c).Emit(CondBr(g.nextVal, n + 1, n + 2))
  }

  // ----- The builder, as the source drives it -----

  class Builder {
    var blocks: seq<Block>
    var cur: nat
    var nextVal: nat

    ghost predicate Valid()
      reads this
    {
      cur < |blocks|
    }

    ghost function State(): Graph
      reads this
    {
      Graph(blocks, cur, nextVal)
    }

    constructor ()
      ensures Valid() && State() == ENTRY
    {
      blocks, cur, nextVal := [[]], 0, 0;
    }

    method AppendBlock() returns (b: nat)
      requires Valid()
      modifies this
      ensures Valid() && State() == old(State()).Append() && b == |old(blocks)|
    {
      b := |blocks|;
      blocks := blocks + [[]];
    }

    method Build(i: Instr)
      requires Valid()
      modifies this
      ensures Valid() && State() == old(State()).Emit(i)
    {
      blocks := blocks[cur := blocks[cur] + [i]];
    }

    method BuildExpr(e: Expr) returns (v: nat)
      requires Valid()
      modifies this
      ensures Valid() && State() == old(State()).EmitExpr(e) && v == old(nextVal)
    {
      v := nextVal;
      Build(Compute(v, e));
      nextVal := nextVal + 1;
    }

    method PositionAtEnd(b: nat)
      requires b < |blocks|
      modifies this
      ensures Valid() && State() == old(State()).(cur := b)
    {
      cur := b;
    }

    method BranchUnlessTerminated(target: nat)
      requires Valid()
      modifies this
      ensures Valid() && State() == old(State()).BranchUnlessTerminated(target)
    {
      if !Terminated(blocks[cur]) {
        Build(Br(target));
      }
    }

    method CodegenStmts(stmts: seq<Stmt>)
      requires Valid()
      modifies this
      ensures Valid() && State() == GenList(stmts, old(State()))
      decreases stmts, 0
    {
      var i := 0;
      while i < |stmts|
        invariant 0 <= i <= |stmts|
        invariant Valid() && GenList(stmts[i..], State()) == GenList(stmts, old(State()))
        decreases |stmts| - i
      {
        assert stmts[i..][1..] == stmts[i + 1..];
        var s := stmts[i];
        match s {
          case Simple(a) =>
            Build(Do(a));
          case Return(val) =>
            if val == None {
              Build(Ret(None));
            } else {
              var v := BuildExpr(val.value);
              Build(Ret(Some(v)));
            }
          case If(c, t, f) =>
            var v := BuildExpr(c);
            GenerateIf(v, t, f, s);
          case While(c, b) =>
            GenerateLoop(c, b);
          case For(it, b) =>
            GenerateLoop(it, b);
        }
        i := i + 1;
      }
    }

    method GenerateIf(cond: nat, body: seq<Stmt>, elseBody: seq<Stmt>, ghost s: Stmt)
      requires Valid()
      requires s.If? && s.thenBody == body && s.elseBody == elseBody
      modifies this
      ensures Valid()
      ensures State() == GenIf(s, cond, old(State()))
      decreases s, 0
    {
      hide GenList, GenStmt;
      var thenBlock := AppendBlock();
      var elseBlock := AppendBlock();
      var mergeBlock := AppendBlock();
      Build(CondBr(cond, thenBlock, elseBlock));
      PositionAtEnd(thenBlock);
      CodegenStmts(body);
      BranchUnlessTerminated(mergeBlock);
      PositionAtEnd(elseBlock);
      CodegenStmts(elseBody);
      BranchUnlessTerminated(mergeBlock);
      PositionAtEnd(mergeBlock);
    }

    method GenerateLoop(cond: Expr, body: seq<Stmt>)
      requires Valid()
      modifies this
      ensures Valid() && State() == GenLoop(cond, body, old(State()))
      decreases body, 1
    {
      var condBlock := AppendBlock();
      var bodyBlock := AppendBlock();
      var mergeBlock := AppendBlock();
      Build(Br(condBlock));
      PositionAtEnd(condBlock);
      var v := BuildExpr(cond);
      Build(CondBr(v, bodyBlock, mergeBlock));
      PositionAtEnd(bodyBlock);
      CodegenStmts(body);
      BranchUnlessTerminated(condBlock);
      PositionAtEnd(mergeBlock);
    }
  }
}

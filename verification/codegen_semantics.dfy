/** The basic-block graph means what the structured statements mean. */
module CodegenSemantics {
  import opened Options
  import opened Codegen

  /** What the opaque handles do, for a store `S` and values `V`. */
  datatype Meaning<!S, !V> = Meaning(act: (Action, S) -> S, eval: (Expr, S) -> (S, V), truth: V -> bool)

  // ----- The structured program -----

  datatype Outcome<S, V> = OutOfFuel | Normal(store: S) | Returned(store: S, val: Option<V>)

  /** Runs a statement list; each loop iteration costs one unit of fuel.  A program
      diverges exactly when no amount of fuel is enough. */
  function RunList<S, V>(m: Meaning<S, V>, stmts: seq<Stmt>, s: S, fuel: nat): Outcome<S, V>
    decreases fuel, stmts, 0
  {
    if stmts == [] then Normal(s) else
      match RunStmt(m, stmts[0], s, fuel)
      case Normal(s') => RunList(m, stmts[1..], s', fuel)
      case other => other
  }

  function RunStmt<S, V>(m: Meaning<S, V>, stmt: Stmt, s: S, fuel: nat): Outcome<S, V>
    decreases fuel, stmt, 0
  {
    match stmt
    case Simple(a) => Normal(m.act(a, s))
    case Return(None) => Returned(s, None)
    case Return(Some(e)) =>
      var (s', v) := m.eval(e, s);
      Returned(s', Some(v))
    case If(c, t, f) =>
      var (s', v) := m.eval(c, s);
      RunList(m, if m.truth(v) then t else f, s', fuel)
    case While(c, b) => RunLoop(m, c, b, s, fuel)
    case For(i, b) => RunLoop(m, i, b, s, fuel)
  }

  function RunLoop<S, V>(m: Meaning<S, V>, c: Expr, b: seq<Stmt>, s: S, fuel: nat): Outcome<S, V>
    decreases fuel, b, 1
  {
    if fuel == 0 then OutOfFuel else
      var (s', v) := m.eval(c, s);
      if !m.truth(v) then Normal(s') else
        match RunList(m, b, s', fuel - 1)
        case Normal(s'') => RunLoop(m, c, b, s'', fuel - 1)
        case other => other
  }

  // ----- The machine that runs a graph -----

  datatype Config<S, V> =
    | At(block: nat, pc: nat, store: S, env: map<nat, V>)
    | Halted(store: S, val: Option<V>)

  function Current<S, V>(G: seq<Block>, c: Config<S, V>): Option<Instr> {
    if c.At? && c.block < |G| && c.pc < |G[c.block]| then Some(G[c.block][c.pc]) else None
  }

  /** No further step: returned, fell off the end of a block, or read an undefined value. */
  predicate Stopped<S, V>(G: seq<Block>, c: Config<S, V>) {
    match Current(G, c)
    case None => true
    case Some(CondBr(v, _, _)) => v !in c.env
    case Some(Ret(Some(v))) => v !in c.env
    case _ => false
  }

  function Step<S, V>(m: Meaning<S, V>, G: seq<Block>, c: Config<S, V>): Config<S, V> {
    if Stopped(G, c) then c else
      match Current(G, c).value
      case Do(a) => c.(pc := c.pc + 1, store := m.act(a, c.store))
      case Compute(dst, e) =>
        var (s', v) := m.eval(e, c.store);
        c.(pc := c.pc + 1, store := s', env := c.env[dst := v])
      case Br(b) => c.(block := b, pc := 0)
      case CondBr(v, t, f) => c.(block := if m.truth(c.env[v]) then t else f, pc := 0)
      case Ret(None) => Halted(c.store, None)
      case Ret(Some(v)) => Halted(c.store, Some(c.env[v]))
  }

  function Steps<S, V>(m: Meaning<S, V>, G: seq<Block>, c: Config<S, V>, n: nat): Config<S, V>
    decreases n
  {
    if n == 0 then c else Steps(m, G, Step(m, G, c), n - 1)
  }

  lemma {:induction false} StepsAdd<S, V>(m: Meaning<S, V>, G: seq<Block>, c: Config<S, V>, a: nat, b: nat)
    ensures Steps(m, G, c, a + b) == Steps(m, G, Steps(m, G, c, a), b)
    decreases a
  {
    if a != 0 {
      StepsAdd(m, G, Step(m, G, c), a - 1, b);
    }
  }

  lemma {:induction false} StoppedStays<S, V>(m: Meaning<S, V>, G: seq<Block>, c: Config<S, V>, n: nat)
    requires Stopped(G, c)
    ensures Steps(m, G, c, n) == c
  {
    if n != 0 {
      StoppedStays(m, G, c, n - 1);
    }
  }

  // ----- How generation extends a graph -----

  /** Generation from `g` to `g'` appends to the insertion block and adds blocks, and nothing else. */
  predicate Extends(g: Graph, g': Graph)
    requires g.Valid() && g'.Valid()
  {
    && |g.blocks| <= |g'.blocks|
    && (forall b | 0 <= b < |g.blocks| && b != g.cur :: g'.blocks[b] == g.blocks[b])
    && g.Here() <= g'.blocks[g.cur]
    && (g'.cur == g.cur || |g.blocks| <= g'.cur)
    && g.nextVal <= g'.nextVal
  }

  lemma {:induction false} GenListExtends(stmts: seq<Stmt>, g: Graph)
    requires g.Valid()
    ensures Extends(g, GenList(stmts, g))
    decreases stmts, 0
  {
    if stmts != [] {
      GenStmtExtends(stmts[0], g);
      GenListExtends(stmts[1..], GenStmt(stmts[0], g));
    }
  }

  lemma {:induction false} GenStmtExtends(s: Stmt, g: Graph)
    requires g.Valid()
    ensures Extends(g, GenStmt(s, g))
    decreases s, 1
  {
    match s
    case Simple(_) =>
    case Return(_) =>
    case If(c, _, _) => GenIfExtends(s, g.nextVal, g.EmitExpr(c));
    case While(c, b) => GenLoopExtends(c, b, g);
    case For(i, b) => GenLoopExtends(i, b, g);
  }

  lemma {:induction false} GenIfExtends(s: Stmt, cond: nat, g: Graph)
    requires g.Valid() && s.If?
    ensures Extends(g, GenIf(s, cond, g)) && GenIf(s, cond, g).Here() == []
    decreases s, 0
  {
    var n := |g.blocks|;
    var g1 := g.Append().Append().Append().Emit(CondBr(cond, n, n + 1)).(cur := n);
    var h1 := GenList(s.thenBody, g1);
    var g2 := h1.BranchUnlessTerminated(n + 2).(cur := n + 1);
    var h2 := GenList(s.elseBody, g2);
    assert WithinIf(g, g1);
    assert GenIf(s, cond, g) == h2.BranchUnlessTerminated(n + 2).(cur := n + 2);
    hide GenList, GenIf, Extends, WithinIf;
    GenListExtends(s.thenBody, g1);
    ArmWithinIf(g, g1, h1, n + 1);
    GenListExtends(s.elseBody, g2);
    ArmWithinIf(g, g2, h2, n + 2);
    IfExtends(g, h2.BranchUnlessTerminated(n + 2).(cur := n + 2));
  }

  /** Between the head of an `if` in `g` and its end: an arm is being filled, and the block
      after the `if` is still empty. */
  predicate WithinIf(g: Graph, x: Graph)
    requires g.Valid()
  {
    var n := |g.blocks|;
    && x.Valid() && |x.blocks| >= n + 3 && x.blocks[n + 2] == [] && x.cur >= n && g.nextVal <= x.nextVal
    && (forall b | 0 <= b < n && b != g.cur :: x.blocks[b] == g.blocks[b])
    && g.Here() <= x.blocks[g.cur]
  }

  lemma ArmWithinIf(g: Graph, x: Graph, h: Graph, next: nat)
    requires g.Valid() && h.Valid() && WithinIf(g, x) && x.cur != |g.blocks| + 2 && Extends(x, h)
    requires |g.blocks| <= next < |g.blocks| + 3
    ensures WithinIf(g, h.BranchUnlessTerminated(|g.blocks| + 2).(cur := next))
  {
  }

  lemma IfExtends(g: Graph, x: Graph)
    requires g.Valid() && WithinIf(g, x) && x.cur == |g.blocks| + 2
    ensures x.Valid() && Extends(g, x) && x.Here() == []
  {
  }

  lemma {:induction false} GenLoopExtends(c: Expr, b: seq<Stmt>, g: Graph)
    requires g.Valid()
    ensures Extends(g, GenLoop(c, b, g)) && GenLoop(c, b, g).Here() == []
    decreases b, 1
  {
    GenListExtends(b, LoopHead(c, g).(cur := |g.blocks| + 1));
  }

  /** A list that can complete normally leaves its insertion block open, so the branch
      to the merge block is emitted. */
  lemma {:induction false} NormalLeavesOpen<S, V>(m: Meaning<S, V>, stmts: seq<Stmt>, s: S, fuel: nat, g: Graph)
    requires g.Valid() && !Terminated(g.Here())
    requires RunList(m, stmts, s, fuel).Normal?
    ensures !Terminated(GenList(stmts, g).Here())
  {
    if stmts != [] {
      var st := stmts[0];
      if st.If? {
        GenIfExtends(st, g.nextVal, g.EmitExpr(st.cond));
      } else if st.While? {
        GenLoopExtends(st.cond, st.body, g);
      } else if st.For? {
        GenLoopExtends(st.iter, st.body, g);
      }
      NormalLeavesOpen(m, stmts[1..], RunStmt(m, st, s, fuel).store, fuel, GenStmt(st, g));
    }
  }

  /** `G` is a later state of the graph `g`: every block of `g` has only been appended to. */
  predicate Covers(G: seq<Block>, g: Graph) {
    |g.blocks| <= |G| && forall b | 0 <= b < |g.blocks| :: g.blocks[b] <= G[b]
  }

  lemma CoversEarlier(G: seq<Block>, g: Graph, g': Graph)
    requires g.Valid() && g'.Valid() && Extends(g, g') && Covers(G, g')
    ensures Covers(G, g)
  {
    forall b | 0 <= b < |g.blocks|
      ensures g.blocks[b] <= G[b]
    {
      assert g.blocks[b] <= g'.blocks[b] <= G[b];
    }
  }

  // ----- Simulation -----

  /** The machine stands where generation stands. */
  function Standing<S, V>(g: Graph, s: S, env: map<nat, V>): Config<S, V>
    requires g.Valid()
  {
    At(g.cur, |g.Here()|, s, env)
  }

  /** `n` steps from `c` do what the structured outcome says: reach the place where
      generation went on, return, or (out of `fuel`) at least keep running. */
  ghost predicate Simulates<S, V>(m: Meaning<S, V>, G: seq<Block>, c: Config<S, V>, n: nat, g': Graph, o: Outcome<S, V>, fuel: nat)
    requires g'.Valid()
  {
    var c' := Steps(m, G, c, n);
    match o
    case Normal(s') => c'.At? && c' == Standing(g', s', c'.env)
    case Returned(s', v) => c' == Halted(s', v)
    case OutOfFuel => n >= fuel && !Stopped(G, c')
  }

  lemma {:induction false} SimulateList<S, V>(m: Meaning<S, V>, stmts: seq<Stmt>, s: S, fuel: nat, env: map<nat, V>, g: Graph, G: seq<Block>)
    returns (n: nat)
    requires g.Valid() && Covers(G, GenList(stmts, g))
    ensures Simulates(m, G, Standing(g, s, env), n, GenList(stmts, g), RunList(m, stmts, s, fuel), fuel)
    decreases fuel, stmts, 0
  {
    var c := Standing(g, s, env);
    if stmts == [] {
      n := 0;
    } else {
      var g1 := GenStmt(stmts[0], g);
      GenListExtends(stmts[1..], g1);
      CoversEarlier(G, g1, GenList(stmts, g));
      var a := SimulateStmt(m, stmts[0], s, fuel, env, g, G);
      n := a;
      var o := RunStmt(m, stmts[0], s, fuel);
      if o.Normal? {
        var c1 := Steps(m, G, c, a);
        var b := SimulateList(m, stmts[1..], o.store, fuel, c1.env, g1, G);
        StepsAdd(m, G, c, a, b);
        n := a + b;
      }
    }
  }

  lemma {:induction false} SimulateStmt<S, V>(m: Meaning<S, V>, stmt: Stmt, s: S, fuel: nat, env: map<nat, V>, g: Graph, G: seq<Block>)
    returns (n: nat)
    requires g.Valid() && Covers(G, GenStmt(stmt, g))
    ensures Simulates(m, G, Standing(g, s, env), n, GenStmt(stmt, g), RunStmt(m, stmt, s, fuel), fuel)
    decreases fuel, stmt, 2
  {
    match stmt
    case Simple(a) =>
      n := 1;
      assert g.Emit(Do(a)).blocks[g.cur][|g.Here()|] == Do(a);
      assert Steps(m, G, Standing(g, s, env), 1) == Step(m, G, Standing(g, s, env));
    case Return(val) => n := SimulateReturn(m, val, s, fuel, env, g, G);
    case If(_, _, _) => n := SimulateIf(m, stmt, s, fuel, env, g, G);
    case While(c, b) => n := SimulateLoop(m, c, b, s, fuel, env, g, G);
    case For(i, b) => n := SimulateLoop(m, i, b, s, fuel, env, g, G);
  }

  lemma SimulateReturn<S, V>(m: Meaning<S, V>, val: Option<Expr>, s: S, fuel: nat, env: map<nat, V>, g: Graph, G: seq<Block>)
    returns (n: nat)
    requires g.Valid() && Covers(G, GenStmt(Return(val), g))
    ensures Simulates(m, G, Standing(g, s, env), n, GenStmt(Return(val), g), RunStmt(m, Return(val), s, fuel), fuel)
  {
    var c := Standing(g, s, env);
    var g' := GenStmt(Return(val), g);
    var p := |g.Here()|;
    if val == None {
      n := 1;
      assert g'.blocks[g.cur][p] == Ret(None);
      assert Steps(m, G, c, 1) == Step(m, G, c);
    } else {
      n := 2;
      assert g'.blocks[g.cur][p] == Compute(g.nextVal, val.value);
      assert g'.blocks[g.cur][p + 1] == Ret(Some(g.nextVal));
      TwoSteps(m, G, c);
    }
  }

  lemma TwoSteps<S, V>(m: Meaning<S, V>, G: seq<Block>, c: Config<S, V>)
    ensures Steps(m, G, c, 1) == Step(m, G, c)
    ensures Steps(m, G, c, 2) == Step(m, G, Step(m, G, c))
  {
    assert Steps(m, G, Step(m, G, c), 1) == Steps(m, G, Step(m, G, Step(m, G, c)), 0);
  }

  /** From an evaluated condition into one of two blocks. */
  lemma TakeBranch<S, V>(m: Meaning<S, V>, e: Expr, s: S, env: map<nat, V>, G: seq<Block>, b: nat, p: nat, v: nat, t: nat, f: nat)
    requires b < |G| && p + 1 < |G[b]|
    requires G[b][p] == Compute(v, e) && G[b][p + 1] == CondBr(v, t, f)
    ensures var (s', x) := m.eval(e, s);
            Steps(m, G, At(b, p, s, env), 2) == At(if m.truth(x) then t else f, 0, s', env[v := x])
  {
    TwoSteps(m, G, At(b, p, s, env));
  }

  /** A body run from the start of a block, followed by the branch that closes it. */
  lemma {:induction false} SimulateArm<S, V>(m: Meaning<S, V>, body: seq<Stmt>, s: S, fuel: nat, env: map<nat, V>, g: Graph, target: nat, G: seq<Block>)
    returns (n: nat)
    requires g.Valid() && g.Here() == []
    requires Covers(G, GenList(body, g).BranchUnlessTerminated(target))
    ensures var c' := Steps(m, G, At(g.cur, 0, s, env), n);
            match RunList(m, body, s, fuel)
            case Normal(s') => n >= 1 && c'.At? && c' == At(target, 0, s', c'.env)
            case Returned(s', v) => c' == Halted(s', v)
            case OutOfFuel => n >= fuel && !Stopped(G, c')
    decreases fuel, body, 1
  {
    var g1 := GenList(body, g);
    var o := RunList(m, body, s, fuel);
    CoversEarlier(G, g1, g1.BranchUnlessTerminated(target));
    n := SimulateList(m, body, s, fuel, env, g, G);
    if o.Normal? {
      NormalLeavesOpen(m, body, s, fuel, g);
      assert g1.BranchUnlessTerminated(target).blocks[g1.cur][|g1.Here()|] == Br(target);
      StepsAdd(m, G, At(g.cur, 0, s, env), n, 1);
      assert Steps(m, G, Steps(m, G, At(g.cur, 0, s, env), n), 1) == Step(m, G, Steps(m, G, At(g.cur, 0, s, env), n));
      n := n + 1;
    }
  }

  lemma {:induction false} SimulateIf<S, V>(m: Meaning<S, V>, stmt: Stmt, s: S, fuel: nat, env: map<nat, V>, g: Graph, G: seq<Block>)
    returns (n: nat)
    requires g.Valid() && stmt.If? && Covers(G, GenStmt(stmt, g))
    ensures Simulates(m, G, Standing(g, s, env), n, GenStmt(stmt, g), RunStmt(m, stmt, s, fuel), fuel)
    decreases fuel, stmt, 1
  {
    hide GenList, GenIf, IfHead, IfMiddle, Covers;
    var k, v, p := |g.blocks|, g.nextVal, |g.Here()|;
    var g1, g2 := IfHead(stmt, g), IfMiddle(stmt, g);
    IfStages(stmt, g);
    IfCovered(stmt, g, G);
    IfTest(stmt, g, G);
    TakeBranch(m, stmt.cond, s, env, G, g.cur, p, v, k, k + 1);
    var (s', x) := m.eval(stmt.cond, s);
    var a;
    if m.truth(x) {
      a := SimulateArm(m, stmt.thenBody, s', fuel, env[v := x], g1, k + 2, G);
    } else {
      a := SimulateArm(m, stmt.elseBody, s', fuel, env[v := x], g2, k + 2, G);
    }
    StepsAdd(m, G, Standing(g, s, env), 2, a);
    n := 2 + a;
  }

  function IfHead(stmt: Stmt, g: Graph): (g1: Graph)
    requires g.Valid() && stmt.If?
    ensures g1.Valid()
  {
    var k := |g.blocks|;
    g.EmitExpr(stmt.cond).Append().Append().Append().Emit(CondBr(g.nextVal, k, k + 1)).(cur := k)
  }

  lemma IfHeadBlocks(stmt: Stmt, g: Graph)
    requires g.Valid() && stmt.If?
    ensures var k := |g.blocks|;
            IfHead(stmt, g).blocks == g.blocks[g.cur := g.Here() + [Compute(g.nextVal, stmt.cond), CondBr(g.nextVal, k, k + 1)]] + [[], [], []]
  {
    var k := |g.blocks|;
    assert g.Here() + [Compute(g.nextVal, stmt.cond)] + [CondBr(g.nextVal, k, k + 1)]
        == g.Here() + [Compute(g.nextVal, stmt.cond), CondBr(g.nextVal, k, k + 1)];
  }

  /** The graph when generation moves on to the `else` block. */
  function IfMiddle(stmt: Stmt, g: Graph): (g2: Graph)
    requires g.Valid() && stmt.If?
    ensures g2.Valid()
  {
    var k := |g.blocks|;
    GenList(stmt.thenBody, IfHead(stmt, g)).BranchUnlessTerminated(k + 2).(cur := k + 1)
  }

  lemma IfStages(stmt: Stmt, g: Graph)
    requires g.Valid() && stmt.If?
    ensures var k, g1, g2 := |g.blocks|, IfHead(stmt, g), IfMiddle(stmt, g);
            && GenStmt(stmt, g) == GenList(stmt.elseBody, g2).BranchUnlessTerminated(k + 2).(cur := k + 2)
            && Extends(g1, GenList(stmt.thenBody, g1).BranchUnlessTerminated(k + 2))
            && Extends(g2, GenList(stmt.elseBody, g2).BranchUnlessTerminated(k + 2))
            && g1.cur == k && g2.cur == k + 1
            && g1.Here() == [] && g2.Here() == [] && GenStmt(stmt, g).Here() == [] && GenStmt(stmt, g).cur == k + 2
  {
    IfHeadBlocks(stmt, g);
    GenListExtends(stmt.thenBody, IfHead(stmt, g));
    hide GenList;
    GenListExtends(stmt.elseBody, IfMiddle(stmt, g));
  }

  lemma IfCovered(stmt: Stmt, g: Graph, G: seq<Block>)
    requires g.Valid() && stmt.If? && Covers(G, GenStmt(stmt, g))
    ensures var k, g1, g2 := |g.blocks|, IfHead(stmt, g), IfMiddle(stmt, g);
            && Covers(G, g1)
            && Covers(G, GenList(stmt.thenBody, g1).BranchUnlessTerminated(k + 2))
            && Covers(G, GenList(stmt.elseBody, g2).BranchUnlessTerminated(k + 2))
  {
    hide GenList, GenStmt, GenIf, IfHead;
    var k, g1, g2 := |g.blocks|, IfHead(stmt, g), IfMiddle(stmt, g);
    IfStages(stmt, g);
    CoversEarlier(G, g2, GenList(stmt.elseBody, g2).BranchUnlessTerminated(k + 2));
    CoversEarlier(G, g1, GenList(stmt.thenBody, g1).BranchUnlessTerminated(k + 2));
  }

  lemma IfTest(stmt: Stmt, g: Graph, G: seq<Block>)
    requires g.Valid() && stmt.If? && Covers(G, IfHead(stmt, g))
    ensures var k, p := |g.blocks|, |g.Here()|;
            && g.cur < |G| && p + 1 < |G[g.cur]|
            && G[g.cur][p] == Compute(g.nextVal, stmt.cond) && G[g.cur][p + 1] == CondBr(g.nextVal, k, k + 1)
  {
    hide IfHead;
    var k, p, g1 := |g.blocks|, |g.Here()|, IfHead(stmt, g);
    IfHeadBlocks(stmt, g);
    assert g1.blocks[g.cur] == g.Here() + [Compute(g.nextVal, stmt.cond), CondBr(g.nextVal, k, k + 1)] <= G[g.cur];
  }

  lemma {:induction false} SimulateLoop<S, V>(m: Meaning<S, V>, c: Expr, b: seq<Stmt>, s: S, fuel: nat, env: map<nat, V>, g: Graph, G: seq<Block>)
    returns (n: nat)
    requires g.Valid() && Covers(G, GenLoop(c, b, g))
    ensures Simulates(m, G, Standing(g, s, env), n, GenLoop(c, b, g), RunLoop(m, c, b, s, fuel), fuel)
    decreases fuel, b, 3
  {
    var k, p := |g.blocks|, |g.Here()|;
    LoopCovered(c, b, g, G);
    assert LoopHead(c, g).blocks[g.cur][p] == Br(k);
    var a := SimulateIterations(m, c, b, s, fuel, env, g, G);
    StepsAdd(m, G, Standing(g, s, env), 1, a);
    assert Steps(m, G, Standing(g, s, env), 1) == Step(m, G, Standing(g, s, env));
    n := 1 + a;
  }

  lemma LoopCovered(c: Expr, b: seq<Stmt>, g: Graph, G: seq<Block>)
    requires g.Valid() && Covers(G, GenLoop(c, b, g))
    ensures var k := |g.blocks|;
            && Covers(G, LoopHead(c, g))
            && LoopHead(c, g).blocks[k] == [Compute(g.nextVal, c), CondBr(g.nextVal, k + 1, k + 2)]
            && Covers(G, GenList(b, LoopHead(c, g).(cur := k + 1)).BranchUnlessTerminated(k))
            && LoopHead(c, g).blocks[k + 1] == []
            && GenLoop(c, b, g).Here() == [] && GenLoop(c, b, g).cur == k + 2
  {
    var k := |g.blocks|;
    var g1 := LoopHead(c, g).(cur := k + 1);
    GenListExtends(b, g1);
    GenLoopExtends(c, b, g);
    assert Covers(G, GenList(b, g1).BranchUnlessTerminated(k));
    CoversEarlier(G, g1, GenList(b, g1).BranchUnlessTerminated(k));
  }

  /** The rounds of a loop, from the start of its condition block. */
  lemma {:induction false} SimulateIterations<S, V>(m: Meaning<S, V>, c: Expr, b: seq<Stmt>, s: S, fuel: nat, env: map<nat, V>, g: Graph, G: seq<Block>)
    returns (n: nat)
    requires g.Valid() && Covers(G, GenLoop(c, b, g))
    ensures Simulates(m, G, At(|g.blocks|, 0, s, env), n, GenLoop(c, b, g), RunLoop(m, c, b, s, fuel), fuel)
    decreases fuel, b, 2
  {
    hide GenList, GenLoop, LoopHead, Covers, RunList;
    var k, v := |g.blocks|, g.nextVal;
    var c0 := At(k, 0, s, env);
    LoopCovered(c, b, g, G);
    if fuel == 0 {
      n := 0;
    } else {
      TakeBranch(m, c, s, env, G, k, 0, v, k + 1, k + 2);
      var (s', x) := m.eval(c, s);
      n := 2;
      if m.truth(x) {
        var a := SimulateArm(m, b, s', fuel - 1, env[v := x], LoopHead(c, g).(cur := k + 1), k, G);
        StepsAdd(m, G, c0, 2, a);
        n := 2 + a;
        var o := RunList(m, b, s', fuel - 1);
        if o.Normal? {
          var r := SimulateIterations(m, c, b, o.store, fuel - 1, Steps(m, G, c0, n).env, g, G);
          StepsAdd(m, G, c0, 2 + a, r);
          n := 2 + a + r;
        }
      }
    }
  }

  // ----- Main theorems -----

  /** How the machine stands when a whole function body has ended with `o`. */
  ghost predicate EndsAs<S, V>(stmts: seq<Stmt>, c: Config<S, V>, o: Outcome<S, V>) {
    match o
    case Normal(s') => c.At? && c == Standing(GenList(stmts, ENTRY), s', c.env)
    case Returned(s', v) => c == Halted(s', v)
    case OutOfFuel => false
  }

  /** The machine after `n` steps on the graph of a function body, from its entry block. */
  function GraphAfter<S, V>(m: Meaning<S, V>, stmts: seq<Stmt>, s: S, n: nat): Config<S, V> {
    Steps(m, GenList(stmts, ENTRY).blocks, At(0, 0, s, map[]), n)
  }

  predicate GraphStopped<S, V>(m: Meaning<S, V>, stmts: seq<Stmt>, s: S, n: nat) {
    Stopped(GenList(stmts, ENTRY).blocks, GraphAfter(m, stmts, s, n))
  }

  /** A program that ends does the same in the graph: same store, same returned value. */
  lemma GraphDoesWhatProgramDoes<S, V>(m: Meaning<S, V>, stmts: seq<Stmt>, s: S, fuel: nat)
    requires RunList(m, stmts, s, fuel) != OutOfFuel
    ensures exists n: nat :: GraphStopped(m, stmts, s, n) && EndsAs(stmts, GraphAfter(m, stmts, s, n), RunList(m, stmts, s, fuel))
  {
    var n := SimulateList(m, stmts, s, fuel, map[], ENTRY, GenList(stmts, ENTRY).blocks);
    assert GraphStopped(m, stmts, s, n);
  }

  /** One diverges exactly when the other does. */
  lemma GraphStopsIffProgramStops<S, V>(m: Meaning<S, V>, stmts: seq<Stmt>, s: S)
    ensures (exists n: nat :: GraphStopped(m, stmts, s, n)) <==> (exists fuel: nat :: RunList(m, stmts, s, fuel) != OutOfFuel)
  {
    if n: nat :| GraphStopped(m, stmts, s, n) {
      var G := GenList(stmts, ENTRY).blocks;
      var k := SimulateList(m, stmts, s, n, map[], ENTRY, G);
      if RunList(m, stmts, s, n) == OutOfFuel {
        StepsAdd(m, G, At(0, 0, s, map[]), n, k - n);
        StoppedStays(m, G, GraphAfter(m, stmts, s, n), k - n);
        assert false;
      }
    }
    if fuel: nat :| RunList(m, stmts, s, fuel) != OutOfFuel {
      GraphDoesWhatProgramDoes(m, stmts, s, fuel);
    }
  }

  /** Whatever the graph ends with, the program ends with it too. */
  lemma ProgramDoesWhatGraphDoes<S, V>(m: Meaning<S, V>, stmts: seq<Stmt>, s: S, n: nat)
    requires GraphStopped(m, stmts, s, n)
    ensures exists fuel: nat :: EndsAs(stmts, GraphAfter(m, stmts, s, n), RunList(m, stmts, s, fuel))
  {
    var G, c := GenList(stmts, ENTRY).blocks, At(0, 0, s, map[]);
    GraphStopsIffProgramStops(m, stmts, s);
    var fuel: nat :| RunList(m, stmts, s, fuel) != OutOfFuel;
    GraphDoesWhatProgramDoes(m, stmts, s, fuel);
    var k: nat :| GraphStopped(m, stmts, s, k) && EndsAs(stmts, GraphAfter(m, stmts, s, k), RunList(m, stmts, s, fuel));
    if n <= k {
      StepsAdd(m, G, c, n, k - n);
      StoppedStays(m, G, Steps(m, G, c, n), k - n);
    } else {
      StepsAdd(m, G, c, k, n - k);
      StoppedStays(m, G, Steps(m, G, c, k), n - k);
    }
  }
}

/** What `as` does to precedence.  A cast ends the operand it follows, and with it every
    operand begun for a tighter operator; so a chain of operands, operators and casts is read
    as the precedences say only under a condition on where the casts stand, which is found
    here. */
module CastPrecedence {
  import opened Tokens
  import opened TypeParser
  import opened ExprParser
  import opened ExprPrinting

  /** Operands, which may be parenthesised expressions, and what stands between them. */
  datatype Chain = Chain(first: Expr, rest: Rest)

  datatype Rest = Stop | Go(op: BinOp, next: Chain) | CastOn(ty: Type, more: Rest)

  /** Every operand and type can be written and read back. */
  predicate ReadableChain(c: Chain, atomic: bool) {
    Printable(c.first, atomic) && ReadableRest(c.rest, atomic)
  }

  predicate ReadableRest(r: Rest, atomic: bool) {
    match r
    case Stop => true
    case Go(_, next) => ReadableChain(next, atomic)
    case CastOn(ty, more) => Readable(ty, atomic) && ReadableRest(more, atomic)
  }

  /** Operands that are operators or casts are written in parentheses. */
  function Spell(c: Chain): Stream {
    Print(c.first, OPERAND, SpellRest(c.rest))
  }

  function SpellRest(r: Rest): Stream {
    match r
    case Stop => End
    case Go(op, next) => More(Op(op), Spell(next))
    case CastOn(ty, more) => More(As, PrintType(ty, SpellRest(more)))
  }

  // ----- Trees over operands -----

  datatype Tree = Leaf(x: Expr) | Node(op: BinOp, left: Tree, right: Tree) | Casting(inner: Tree, ty: Type)

  function ToExpr(t: Tree): Expr {
    match t
    case Leaf(x) => x
    case Node(op, l, r) => Binary(op, ToExpr(l), ToExpr(r))
    case Casting(inner, ty) => Cast(ToExpr(inner), ty)
  }

  /** The chain a tree yields, in front of `r`. */
  function Flatten(t: Tree, r: Rest): Chain
    decreases t
  {
    match t
    case Leaf(x) => Chain(x, r)
    case Node(op, left, right) => Flatten(left, Go(op, Flatten(right, r)))
    case Casting(inner, ty) => Flatten(inner, CastOn(ty, r))
  }

  /** The level of the outermost operator; a cast is an operand. */
  function Binding(t: Tree): (n: nat)
    ensures n <= OPERAND
  {
    if t.Node? then Precedence(t.op) else OPERAND
  }

  /** Left children bind at least as tightly as their parent, right children strictly tighter,
      and casts are of operands. */
  predicate Tight(t: Tree) {
    match t
    case Leaf(_) => true
    case Node(op, l, r) => Binding(l) >= Precedence(op) && Binding(r) > Precedence(op) && Tight(l) && Tight(r)
    case Casting(inner, _) => !inner.Node? && Tight(inner)
  }

  /** `t` is what the precedences say `c` means. */
  predicate Means(t: Tree, c: Chain) {
    Tight(t) && Flatten(t, Stop) == c
  }

  // ----- Where casts may stand -----

  /** Neither a cast nor an operator of the level `min` or above comes next. */
  predicate Below(r: Rest, min: nat) {
    r.Stop? || (r.Go? && Precedence(r.op) < min)
  }

  /** No operand is cast twice, and every cast operand is the last one, or the operator after
      it binds no tighter than the one before it; `min` is one more than the precedence of the
      operator before the first operand, and 0 if there is none. */
  predicate Placed(c: Chain, min: nat) {
    if c.rest.CastOn? then Below(c.rest.more, min) && PlacedRest(c.rest.more) else PlacedRest(c.rest)
  }

  predicate PlacedRest(r: Rest) {
    match r
    case Stop => true
    case Go(op, next) => Placed(next, Precedence(op) + 1)
    case CastOn(_, _) => false
  }

  // ----- The parser on chains -----

  /** What is read of a chain, and what is left of it. */
  function Climb(c: Chain, min: nat): (Tree, Rest)
    decreases c, 1
  {
    ClimbOn(Leaf(c.first), c.rest, min)
  }

  function ClimbOn(left: Tree, r: Rest, min: nat): (out: (Tree, Rest))
    ensures out.1 == r || out.1 < r
    decreases r
  {
    if Below(r, min) then (left, r)
    else if r.CastOn? then (Casting(left, r.ty), r.more)
    else
      var (right, after) := Climb(r.next, Precedence(r.op) + 1);
      assert after < r;
      ClimbOn(Node(r.op, left, right), after, min)
  }

  lemma {:induction false} BpReads(c: Chain, min: nat, atomic: bool)
    requires ReadableChain(c, atomic)
    ensures var (t, after) := Climb(c, min);
            ParseBp(Spell(c), min, atomic) == Ok(ToExpr(t), SpellRest(after)) && ReadableRest(after, atomic)
    decreases c, 1
  {
    hide ParseBp, ParseLoop, ParsePrimary, ParseType, Print, PrintType, Printable, Readable;
    ReparseOperand(c.first, SpellRest(c.rest), atomic);
    BpStep(Spell(c), c.first, SpellRest(c.rest), min, atomic);
    LoopReads(Leaf(c.first), c.rest, min, atomic);
  }

  lemma {:induction false} LoopReads(left: Tree, r: Rest, min: nat, atomic: bool)
    requires ReadableRest(r, atomic)
    ensures var (t, after) := ClimbOn(left, r, min);
            ParseLoop(ToExpr(left), SpellRest(r), min, atomic) == Ok(ToExpr(t), SpellRest(after)) && ReadableRest(after, atomic)
    decreases r
  {
    hide ParseBp, ParseLoop, ParseType, PrintType, ReadableChain, Spell, Readable;
    if Below(r, min) {
      LoopStops(ToExpr(left), SpellRest(r), min, atomic);
    } else if r.CastOn? {
      ReparseType(r.ty, SpellRest(r.more), atomic);
      CastStep(ToExpr(left), PrintType(r.ty, SpellRest(r.more)), r.ty, SpellRest(r.more), min, atomic);
    } else {
      var q := Precedence(r.op) + 1;
      var (right, after) := Climb(r.next, q);
      BpReads(r.next, q, atomic);
      LoopStep(ToExpr(left), r.op, Spell(r.next), ToExpr(right), SpellRest(after), min, atomic);
      assert after < r;
      LoopReads(Node(r.op, left, right), after, min, atomic);
    }
  }

  // ----- Order is always kept -----

  /** Whatever the casts do, the chain stays in order, and what is left over is its end. */
  lemma {:induction false} ClimbKeepsOrder(c: Chain, min: nat)
    requires min <= OPERAND
    ensures var (t, after) := Climb(c, min); Flatten(t, after) == c && Binding(t) >= min
    decreases c, 1
  {
    ClimbOnKeepsOrder(Leaf(c.first), c.rest, min);
  }

  lemma {:induction false} ClimbOnKeepsOrder(left: Tree, r: Rest, min: nat)
    requires Binding(left) >= min
    ensures var (t, after) := ClimbOn(left, r, min); Flatten(t, after) == Flatten(left, r) && Binding(t) >= min
    decreases r
  {
    if r.Go? && !Below(r, min) {
      var q := Precedence(r.op) + 1;
      var (right, after) := Climb(r.next, q);
      ClimbKeepsOrder(r.next, q);
      assert after < r;
      ClimbOnKeepsOrder(Node(r.op, left, right), after, min);
    }
  }

  // ----- Precedence is kept exactly where the casts allow it -----

  /** What has gone wrong on the left stays wrong. */
  lemma {:induction false} LooseStays(left: Tree, r: Rest, min: nat)
    requires !Tight(left)
    ensures !Tight(ClimbOn(left, r, min).0)
    decreases r
  {
    if r.Go? && !Below(r, min) {
      var (right, after) := Climb(r.next, Precedence(r.op) + 1);
      assert after < r;
      LooseStays(Node(r.op, left, right), after, min);
    }
  }

  lemma {:induction false} ClimbTightIff(c: Chain, min: nat)
    requires min <= OPERAND
    ensures var (t, after) := Climb(c, min);
            Placed(c, min) <==> Tight(t) && Below(after, min) && PlacedRest(after)
    decreases c, 1
  {
    if !c.rest.CastOn? {
      ClimbOnTightIff(Leaf(c.first), c.rest, min);
    }
  }

  lemma {:induction false} ClimbOnTightIff(left: Tree, r: Rest, min: nat)
    requires Tight(left) && Binding(left) >= min && Below(r, Binding(left) + 1)
    ensures var (t, after) := ClimbOn(left, r, min);
            PlacedRest(r) <==> Tight(t) && Below(after, min) && PlacedRest(after)
    decreases r
  {
    if !Below(r, min) {
      var q := Precedence(r.op) + 1;
      var (right, after) := Climb(r.next, q);
      var left1 := Node(r.op, left, right);
      ClimbKeepsOrder(r.next, q);
      ClimbTightIff(r.next, q);
      assert after < r;
      if !Tight(right) {
        LooseStays(left1, after, min);
      } else if Below(after, q) {
        ClimbOnTightIff(left1, after, min);
      } else if after.Go? {
        var (right2, after2) := Climb(after.next, Precedence(after.op) + 1);
        LooseStays(Node(after.op, left1, right2), after2, min);
      }
    }
  }

  // ----- There is one such tree -----

  /** Climbing as it would be if casts bound tighter than every operator. */
  function Ideal(c: Chain, min: nat): (Tree, Rest)
    decreases c, 1
  {
    IdealOn(Leaf(c.first), c.rest, min)
  }

  function IdealOn(left: Tree, r: Rest, min: nat): (out: (Tree, Rest))
    ensures out.1 == r || out.1 < r
    decreases r
  {
    if Below(r, min) then (left, r)
    else if r.CastOn? then IdealOn(Casting(left, r.ty), r.more, min)
    else
      var (right, after) := Ideal(r.next, Precedence(r.op) + 1);
      assert after < r;
      IdealOn(Node(r.op, left, right), after, min)
  }

  /** It finds every tight tree. */
  lemma {:induction false} IdealFinds(t: Tree, r: Rest, min: nat)
    requires Tight(t) && min <= Binding(t) && (t.Node? ==> Below(r, Binding(t) + 1))
    ensures Ideal(Flatten(t, r), min) == IdealOn(t, r, min)
    decreases t
  {
    match t
    case Leaf(_) =>
    case Casting(inner, ty) => IdealFinds(inner, CastOn(ty, r), min);
    case Node(op, left, right) =>
      var q := Precedence(op);
      IdealFinds(right, r, q + 1);
      IdealFinds(left, Go(op, Flatten(right, r)), min);
  }

  lemma {:induction false} IdealTight(c: Chain, min: nat)
    requires min <= OPERAND
    ensures var (t, after) := Ideal(c, min); Tight(t) && Flatten(t, after) == c && Binding(t) >= min && Below(after, min)
    decreases c, 1
  {
    IdealOnTight(Leaf(c.first), c.rest, min);
  }

  lemma {:induction false} IdealOnTight(left: Tree, r: Rest, min: nat)
    requires Tight(left) && Binding(left) >= min && (left.Node? ==> Below(r, Binding(left) + 1))
    ensures var (t, after) := IdealOn(left, r, min);
            Tight(t) && Flatten(t, after) == Flatten(left, r) && Binding(t) >= min && Below(after, min)
    decreases r
  {
    if !Below(r, min) {
      if r.CastOn? {
        IdealOnTight(Casting(left, r.ty), r.more, min);
      } else {
        var q := Precedence(r.op) + 1;
        var (right, after) := Ideal(r.next, q);
        IdealTight(r.next, q);
        assert after < r;
        IdealOnTight(Node(r.op, left, right), after, min);
      }
    }
  }

  lemma TightTreeUnique(t: Tree, t': Tree)
    requires Tight(t) && Tight(t') && Flatten(t, Stop) == Flatten(t', Stop)
    ensures t == t'
  {
    IdealFinds(t, Stop, 0);
    IdealFinds(t', Stop, 0);
  }

  /** Every chain means exactly one tree. */
  lemma MeansOneTree(c: Chain)
    ensures exists t :: Means(t, c)
    ensures forall t, t' :: Means(t, c) && Means(t', c) ==> t == t'
  {
    IdealTight(c, 0);
    assert Means(Ideal(c, 0).0, c);
    forall t, t' | Means(t, c) && Means(t', c)
      ensures t == t'
    {
      TightTreeUnique(t, t');
    }
  }

  // ----- An expression and its chain determine the tree -----

  /** How many operators and casts an expression has outside its atoms, and how many atoms. */
  function Weight(e: Expr): (n: nat)
    ensures n >= 1
  {
    match e
    case Binary(_, l, r) => Weight(l) + Weight(r) + 1
    case Cast(x, _) => Weight(x) + 1
    case _ => 1
  }

  function WeightOf(c: Chain): nat {
    Weight(c.first) + WeightOfRest(c.rest)
  }

  function WeightOfRest(r: Rest): nat {
    match r
    case Stop => 0
    case Go(_, next) => 1 + WeightOf(next)
    case CastOn(_, more) => 1 + WeightOfRest(more)
  }

  lemma {:induction false} FlattenWeight(t: Tree, r: Rest)
    ensures WeightOf(Flatten(t, r)) == Weight(ToExpr(t)) + WeightOfRest(r)
    decreases t
  {
    match t
    case Leaf(_) =>
    case Node(op, left, right) =>
      FlattenWeight(right, r);
      FlattenWeight(left, Go(op, Flatten(right, r)));
    case Casting(inner, ty) => FlattenWeight(inner, CastOn(ty, r));
  }

  /** `r` is an end of `whole`. */
  predicate Ends(whole: Rest, r: Rest) {
    whole == r ||
    match whole
    case Stop => false
    case Go(_, next) => Ends(next.rest, r)
    case CastOn(_, more) => Ends(more, r)
  }

  lemma {:induction false} EndsThrough(whole: Rest, r: Rest, r': Rest)
    requires Ends(whole, r) && Ends(r, r')
    ensures Ends(whole, r')
  {
    if whole != r {
      match whole
      case Stop =>
      case Go(_, next) => EndsThrough(next.rest, r, r');
      case CastOn(_, more) => EndsThrough(more, r, r');
    }
  }

  lemma {:induction false} FlattenEnds(t: Tree, r: Rest)
    ensures Ends(Flatten(t, r).rest, r)
    decreases t
  {
    match t
    case Leaf(_) =>
    case Node(op, left, right) =>
      var c := Flatten(right, r);
      FlattenEnds(right, r);
      FlattenEnds(left, Go(op, c));
      assert Ends(Go(op, c), r);
      EndsThrough(Flatten(left, Go(op, c)).rest, Go(op, c), r);
    case Casting(inner, ty) =>
      FlattenEnds(inner, CastOn(ty, r));
      assert Ends(CastOn(ty, r), r);
      EndsThrough(Flatten(inner, CastOn(ty, r)).rest, CastOn(ty, r), r);
  }

  lemma {:induction false} EndsWeigh(whole: Rest, r: Rest)
    requires Ends(whole, r)
    ensures WeightOfRest(r) <= WeightOfRest(whole) && (WeightOfRest(r) == WeightOfRest(whole) ==> r == whole)
  {
    if whole != r {
      match whole
      case Stop =>
      case Go(_, next) => EndsWeigh(next.rest, r);
      case CastOn(_, more) => EndsWeigh(more, r);
    }
  }

  lemma {:induction false} SameEnd(whole: Rest, r: Rest, r': Rest)
    requires Ends(whole, r) && Ends(whole, r') && WeightOfRest(r) == WeightOfRest(r')
    ensures r == r'
  {
    if whole == r {
      EndsWeigh(whole, r');
    } else if whole == r' {
      EndsWeigh(whole, r);
    } else {
      match whole
      case Stop =>
      case Go(_, next) => SameEnd(next.rest, r, r');
      case CastOn(_, more) => SameEnd(more, r, r');
    }
  }

  /** Two trees with the same expression whose chains start alike end alike. */
  lemma SameRest(t: Tree, r: Rest, t': Tree, r': Rest)
    requires ToExpr(t) == ToExpr(t') && Flatten(t, r) == Flatten(t', r')
    ensures r == r'
  {
    FlattenWeight(t, r);
    FlattenWeight(t', r');
    FlattenEnds(t, r);
    FlattenEnds(t', r');
    SameEnd(Flatten(t, r).rest, r, r');
  }

  lemma {:induction false} SameTree(t: Tree, t': Tree, r: Rest)
    requires ToExpr(t) == ToExpr(t') && Flatten(t, r) == Flatten(t', r)
    ensures t == t'
    decreases t
  {
    FlattenEnds(t, r);
    FlattenEnds(t', r);
    match t
    case Leaf(_) => LeafOnly(t, t', r);
    case Casting(inner, ty) =>
      if t'.Leaf? {
        LeafOnly(t', t, r);
      } else {
        SameTree(inner, t'.inner, CastOn(ty, r));
      }
    case Node(op, left, right) =>
      if t'.Leaf? {
        LeafOnly(t', t, r);
      } else {
        SameRest(left, Go(op, Flatten(right, r)), t'.left, Go(op, Flatten(t'.right, r)));
        SameTree(left, t'.left, Go(op, Flatten(right, r)));
        SameTree(right, t'.right, r);
      }
  }

  lemma LeafOnly(t: Tree, t': Tree, r: Rest)
    requires t.Leaf? && Flatten(t, r) == Flatten(t', r) && ToExpr(t) == ToExpr(t')
    ensures t' == t
  {
    match t'
    case Leaf(_) =>
    case Node(op, left, right) =>
      FlattenEnds(left, Go(op, Flatten(right, r)));
      FlattenEnds(right, r);
      EndsWeigh(Flatten(t', r).rest, Go(op, Flatten(right, r)));
      EndsWeigh(Flatten(right, r).rest, r);
    case Casting(inner, ty) =>
      FlattenEnds(inner, CastOn(ty, r));
      EndsWeigh(Flatten(t', r).rest, CastOn(ty, r));
  }

  // ----- The theorem -----

  /** The parser reads a chain as the precedences say, and to its end, if and only if no
      operand is cast twice and every cast operand is last or stands before an operator that
      binds no tighter than the one before it. */
  lemma ReadAsMeantIffPlaced(c: Chain, atomic: bool)
    requires ReadableChain(c, atomic)
    ensures (exists t :: Means(t, c) && ParseBp(Spell(c), 0, atomic) == Ok(ToExpr(t), End)) <==> Placed(c, 0)
  {
    var (t, after) := Climb(c, 0);
    BpReads(c, 0, atomic);
    ClimbTightIff(c, 0);
    ClimbKeepsOrder(c, 0);
    assert SpellRest(after) == End <==> after == Stop;
    if Placed(c, 0) {
      assert Means(t, c);
    } else if exists t' :: Means(t', c) && ParseBp(Spell(c), 0, atomic) == Ok(ToExpr(t'), End) {
      var t' :| Means(t', c) && ParseBp(Spell(c), 0, atomic) == Ok(ToExpr(t'), End);
      SameTree(t, t', Stop);
      assert false;
    }
  }

  /** Where it does not, it still reads the chain in order, and what it leaves is its end. */
  lemma ReadInOrder(c: Chain, atomic: bool)
    requires ReadableChain(c, atomic)
    ensures exists t, after :: Flatten(t, after) == c && ParseBp(Spell(c), 0, atomic) == Ok(ToExpr(t), SpellRest(after))
  {
    var (t, after) := Climb(c, 0);
    BpReads(c, 0, atomic);
    ClimbKeepsOrder(c, 0);
    assert Flatten(t, after) == c;
  }

  /** A cast first operand ends the expression: of `a as t + b`, `+ b` is not read, and of
      `a as t as u`, `as u` is not. */
  lemma FirstCastEndsExpression(x: Expr, ty: Type, r: Rest, min: nat, atomic: bool)
    requires ReadableChain(Chain(x, CastOn(ty, r)), atomic)
    ensures ParseBp(Spell(Chain(x, CastOn(ty, r))), min, atomic) == Ok(Cast(x, ty), SpellRest(r))
  {
    BpReads(Chain(x, CastOn(ty, r)), min, atomic);
  }

  lemma ClimbTurn(left: Tree, op: BinOp, next: Chain)
    ensures var (right, after) := Climb(next, Precedence(op) + 1);
            ClimbOn(left, Go(op, next), 0) == ClimbOn(Node(op, left, right), after, 0)
  {
  }

  lemma CastSum(op: BinOp, x: Expr, y: Expr, ty: Type)
    ensures ToExpr(Node(op, Leaf(x), Casting(Leaf(y), ty))) == Binary(op, x, Cast(y, ty))
  {
    assert ToExpr(Casting(Leaf(y), ty)) == Cast(ToExpr(Leaf(y)), ty);
  }

  /** Between two operators a cast operand always goes to the left one, whatever binds
      tighter: `a + b as t * c` multiplies the sum. */
  lemma CastGoesLeft(x: Expr, op: BinOp, y: Expr, ty: Type, op2: BinOp, z: Expr, atomic: bool)
    requires Printable(x, atomic) && Printable(y, atomic) && Readable(ty, atomic) && Printable(z, atomic)
    ensures var c := Chain(x, Go(op, Chain(y, CastOn(ty, Go(op2, Chain(z, Stop))))));
            && ParseBp(Spell(c), 0, atomic) == Ok(Binary(op2, Binary(op, x, Cast(y, ty)), z), End)
            && (Placed(c, 0) <==> Precedence(op2) <= Precedence(op))
  {
    hide Printable, Readable, Precedence, ParseBp, Print;
    var last := Chain(z, Stop);
    var middle := Chain(y, CastOn(ty, Go(op2, last)));
    var c := Chain(x, Go(op, middle));
    assert ReadableChain(last, atomic);
    assert ReadableRest(Go(op2, last), atomic);
    assert ReadableChain(middle, atomic);
    BpReads(c, 0, atomic);
    assert Climb(middle, Precedence(op) + 1) == (Casting(Leaf(y), ty), Go(op2, last));
    assert Climb(last, Precedence(op2) + 1) == (Leaf(z), Stop);
    ClimbTurn(Leaf(x), op, middle);
    ClimbTurn(Node(op, Leaf(x), Casting(Leaf(y), ty)), op2, last);
    assert Placed(last, Precedence(op2) + 1);
    var t := Node(op2, Node(op, Leaf(x), Casting(Leaf(y), ty)), Leaf(z));
    assert Climb(c, 0) == (t, Stop);
    CastSum(op, x, y, ty);
    assert Placed(middle, Precedence(op) + 1) <==> Precedence(op2) < Precedence(op) + 1;
  }

  /** A second cast after an operator is of the whole: `a + b as t as u` casts the sum to `u`. */
  lemma SecondCastIsOfTheWhole(x: Expr, op: BinOp, y: Expr, ty: Type, ty2: Type, atomic: bool)
    requires Printable(x, atomic) && Printable(y, atomic) && Readable(ty, atomic) && Readable(ty2, atomic)
    ensures ParseBp(Spell(Chain(x, Go(op, Chain(y, CastOn(ty, CastOn(ty2, Stop)))))), 0, atomic)
         == Ok(Cast(Binary(op, x, Cast(y, ty)), ty2), End)
  {
    hide Printable, Readable, Precedence, ParseBp, Print;
    var next := Chain(y, CastOn(ty, CastOn(ty2, Stop)));
    assert ReadableRest(CastOn(ty2, Stop), atomic);
    assert ReadableChain(next, atomic);
    BpReads(Chain(x, Go(op, next)), 0, atomic);
    assert Climb(next, Precedence(op) + 1) == (Casting(Leaf(y), ty), CastOn(ty2, Stop));
    ClimbTurn(Leaf(x), op, next);
    var sum := Node(op, Leaf(x), Casting(Leaf(y), ty));
    assert ClimbOn(sum, CastOn(ty2, Stop), 0) == (Casting(sum, ty2), Stop);
    CastSum(op, x, y, ty);
  }
}

/** Printing expressions with the parentheses their nesting needs, and reparsing them;
    the precedence tree of a flat operator sequence. */
module ExprPrinting {
  import opened Options
  import opened Tokens
  import opened TypeParser
  import opened ExprParser

  /** Tighter than every binary operator. */
  const OPERAND: nat := 11

  function PrefixToken(u: UnOp): Token {
    match u
    case Negate => Op(Minus)
    case LogicalNot => Not
    case BitNot => Tilde
    case AddrOf => Op(Ampersand)
  }

  /** Prints `e` in front of `k`, where an expression of at least level `p` is wanted.
      Parentheses go around a looser operator, and around a cast that is not alone. */
  function Print(e: Expr, p: nat, k: Stream): Stream
    decreases e, 1
  {
    match e
    case Literal(t) => More(t, k)
    case Ident(n) => More(Identifier(n), k)
    case Unary(u, x) => More(PrefixToken(u), Print(x, OPERAND, k))
    case Call(f, args) => More(Identifier(f), More(LeftParen, PrintArgs(args, More(RightParen, k))))
    case Index(b, i) => More(Identifier(b), More(LeftBracket, Print(i, 0, More(RightBracket, k))))
    case StructLit(n, fs) => More(Identifier(n), More(LeftBrace, PrintFields(fs, More(RightBrace, k))))
    case _ => if Level(e) >= p then Bare(e, k) else More(LeftParen, Bare(e, More(RightParen, k)))
  }

  /** The level of the outermost operator; a cast is alone only at level 0. */
  function Level(e: Expr): nat {
    match e
    case Binary(op, _, _) => Precedence(op)
    case Cast(_, _) => 0
    case _ => OPERAND
  }

  function Bare(e: Expr, k: Stream): Stream
    requires e.Binary? || e.Cast?
    decreases e, 0
  {
    match e
    case Binary(op, l, r) => Print(l, Precedence(op), More(Op(op), Print(r, Precedence(op) + 1, k)))
    case Cast(x, ty) => Print(x, OPERAND, More(As, PrintType(ty, k)))
  }

  function PrintArgs(args: seq<Expr>, k: Stream): Stream {
    if args == [] then k
    else if |args| == 1 then Print(args[0], 0, k)
    else Print(args[0], 0, More(Comma, PrintArgs(args[1..], k)))
  }

  function PrintFields(fs: seq<Field>, k: Stream): Stream {
    if fs == [] then k else
      var k' := if |fs| == 1 then k else More(Comma, PrintFields(fs[1..], k));
      More(Identifier(fs[0].name), More(Equals, Print(fs[0].value, 0, k')))
  }

  /** Whether the printed form begins with a parenthesis. */
  predicate OpensWithParen(e: Expr, p: nat) {
    (e.Binary? || e.Cast?) &&
    (Level(e) < p || (if e.Binary? then OpensWithParen(e.left, Precedence(e.op)) else OpensWithParen(e.inner, OPERAND)))
  }

  /** What has a printed form that can be read back: literals are literal tokens, cast
      types are readable, and no index opens with a parenthesis (the parser would take
      it for a call). */
  predicate Printable(e: Expr, atomic: bool) {
    match e
    case Literal(t) => IsLiteral(t)
    case Ident(_) => true
    case Unary(_, x) => Printable(x, atomic)
    case Binary(_, l, r) => Printable(l, atomic) && Printable(r, atomic)
    case Cast(x, ty) => Printable(x, atomic) && Readable(ty, atomic)
    case Call(_, args) => AllPrintable(args, atomic)
    case Index(_, i) => Printable(i, atomic) && !OpensWithParen(i, 0)
    case StructLit(_, fs) => FieldsPrintable(fs, atomic)
  }

  predicate AllPrintable(es: seq<Expr>, atomic: bool) {
    es == [] || (Printable(es[0], atomic) && AllPrintable(es[1..], atomic))
  }

  predicate FieldsPrintable(fs: seq<Field>, atomic: bool) {
    fs == [] || (Printable(fs[0].value, atomic) && FieldsPrintable(fs[1..], atomic))
  }

  // ----- Reparsing -----

  /** Nothing that would continue an identifier, or cast the expression before it. */
  predicate Quiet(k: Stream) {
    !k.At(LeftParen) && !k.At(LeftBrace) && !k.At(LeftBracket) && !k.At(Dot)
  }

  /** Does not continue an expression of level `p` with an operator that binds tighter than `p`. */
  predicate AtMost(k: Stream, p: nat) {
    Quiet(k) && !k.At(As) && (k.More? && k.head.Op? ==> Precedence(k.head.op) <= p)
  }

  lemma PrintedHead(e: Expr, p: nat, k: Stream, atomic: bool)
    requires Printable(e, atomic)
    ensures var s := Print(e, p, k);
            && s.More? && !s.At(RightParen)
            && (s.At(LeftParen) <==> OpensWithParen(e, p))
            && (!k.At(Colon) ==> !(s.head.Identifier? && s.tail.At(Colon)))
    decreases e
  {
    var k' := if Level(e) >= p then k else More(RightParen, k);
    if e.Binary? {
      PrintedHead(e.left, Precedence(e.op), More(Op(e.op), Print(e.right, Precedence(e.op) + 1, k')), atomic);
    } else if e.Cast? {
      PrintedHead(e.inner, OPERAND, More(As, PrintType(e.ty, k')), atomic);
    }
  }

  lemma LoopStops(e: Expr, k: Stream, min: nat, atomic: bool)
    requires !k.At(As) && (k.More? && k.head.Op? ==> Precedence(k.head.op) < min)
    ensures ParseLoop(e, k, min, atomic) == Ok(e, k)
  {
  }

  lemma BpStep(ts: Stream, e: Expr, rest: Stream, min: nat, atomic: bool)
    requires ParsePrimary(ts, atomic) == Ok(e, rest)
    ensures ParseBp(ts, min, atomic) == ParseLoop(e, rest, min, atomic)
  {
  }

  lemma LoopStep(left: Expr, op: BinOp, ts: Stream, right: Expr, rest: Stream, min: nat, atomic: bool)
    requires min <= Precedence(op) && ParseBp(ts, Precedence(op) + 1, atomic) == Ok(right, rest)
    ensures ParseLoop(left, More(Op(op), ts), min, atomic) == ParseLoop(Binary(op, left, right), rest, min, atomic)
  {
  }

  lemma CastStep(left: Expr, ts: Stream, ty: Type, rest: Stream, min: nat, atomic: bool)
    requires ParseType(ts, atomic) == Ok(ty, rest)
    ensures ParseLoop(left, More(As, ts), min, atomic) == Ok(Cast(left, ty), rest)
  {
  }

  lemma ParenStep(ts: Stream, e: Expr, k: Stream, atomic: bool)
    requires ParseBp(ts, 0, atomic) == Ok(e, More(RightParen, k))
    ensures ParsePrimary(More(LeftParen, ts), atomic) == Ok(e, k)
  {
    hide ParseBp, ParseNamed;
  }

  lemma IdentStep(n: string, k: Stream, atomic: bool)
    requires Quiet(k)
    ensures ParsePrimary(More(Identifier(n), k), atomic) == Ok(Ident(n), k)
  {
  }

  lemma UnaryStep(u: UnOp, ts: Stream, x: Expr, k: Stream, atomic: bool)
    requires ParsePrimary(ts, atomic) == Ok(x, k)
    ensures ParsePrimary(More(PrefixToken(u), ts), atomic) == Ok(Unary(u, x), k)
  {
    assert PrefixOp(PrefixToken(u)) == Some(u);
  }

  /** A form that is never parenthesised reads back as an operand. */
  lemma {:induction false} ReparseAtom(e: Expr, p: nat, k: Stream, atomic: bool)
    requires Printable(e, atomic) && !e.Binary? && !e.Cast? && Quiet(k)
    ensures ParsePrimary(Print(e, p, k), atomic) == Ok(e, k)
    decreases e, 1
  {
    hide ParseBp, ParseLoop, ParseNamed, ParseArgs, ParseFields, PrintArgs, PrintFields, Bare;
    match e
    case Literal(_) =>
    case Ident(n) => IdentStep(n, k, atomic);
    case Unary(u, x) =>
      ReparseOperand(x, k, atomic);
      UnaryStep(u, Print(x, OPERAND, k), x, k, atomic);
    case Call(_, _) => ReparseNamed(e, p, k, atomic);
    case Index(_, _) => ReparseIndex(e, p, k, atomic);
    case StructLit(_, _) => ReparseNamed(e, p, k, atomic);
  }

  lemma {:induction false} ReparseNamed(e: Expr, p: nat, k: Stream, atomic: bool)
    requires Printable(e, atomic) && (e.Call? || e.StructLit?)
    ensures var s := Print(e, p, k);
            s.More? && s.head.Identifier? && ParseNamed(s.head.name, s.tail, atomic) == Ok(e, k)
    decreases e, 0
  {
    hide ParseBp, ParseLoop, ParsePrimary, ParseArgs, ParseFields, ParseType, PrintArgs, PrintFields, Bare, OpensWithParen;
    if e.Call? {
      ReparseArgs(e.args, k, atomic);
    } else {
      ReparseFields(e.fields, k, atomic);
    }
  }

  lemma {:induction false} ReparseIndex(e: Expr, p: nat, k: Stream, atomic: bool)
    requires Printable(e, atomic) && e.Index?
    ensures var s := Print(e, p, k);
            s.More? && s.head.Identifier? && ParseNamed(s.head.name, s.tail, atomic) == Ok(e, k)
    decreases e, 0
  {
    hide ParseBp, ParseNamed, ParseType, PrintArgs, PrintFields, Bare, OpensWithParen;
    ReparseWhole(e.index, More(RightBracket, k), atomic);
    PrintedHead(e.index, 0, More(RightBracket, k), atomic);
    IndexStep(e.base, Print(e.index, 0, More(RightBracket, k)), e.index, k, atomic);
  }

  lemma IndexStep(name: string, ts: Stream, e: Expr, k: Stream, atomic: bool)
    requires !ts.At(LeftParen) && ParseBp(ts, 0, atomic) == Ok(e, More(RightBracket, k))
    ensures ParseNamed(name, More(LeftBracket, ts), atomic) == Ok(Index(name, e), k)
  {
    hide ParseBp, ParseArgs, ParseFields;
  }

  lemma {:induction false} ReparseOperand(e: Expr, k: Stream, atomic: bool)
    requires Printable(e, atomic) && Quiet(k)
    ensures ParsePrimary(Print(e, OPERAND, k), atomic) == Ok(e, k)
    decreases e, 2
  {
    hide ParseBp, ParseLoop, ParsePrimary, Bare, Printable;
    if e.Binary? || e.Cast? {
      ReparseBare(e, 0, More(RightParen, k), atomic);
      LoopStops(e, More(RightParen, k), 0, atomic);
      ParenStep(Bare(e, More(RightParen, k)), e, k, atomic);
    } else {
      ReparseAtom(e, OPERAND, k, atomic);
    }
  }

  /** Reading a printed expression puts the parser in its loop with that expression as left operand. */
  lemma {:induction false} ReparseBp(e: Expr, p: nat, min: nat, k: Stream, atomic: bool)
    requires Printable(e, atomic) && min <= p <= OPERAND && AtMost(k, p)
    ensures ParseBp(Print(e, p, k), min, atomic) == ParseLoop(e, k, min, atomic)
    decreases e, 3
  {
    hide ParseBp, ParseLoop, ParsePrimary, Bare, Printable;
    if !e.Binary? && !e.Cast? {
      ReparseAtom(e, p, k, atomic);
      BpStep(Print(e, p, k), e, k, min, atomic);
    } else if Level(e) >= p {
      ReparseBare(e, min, k, atomic);
    } else {
      ReparseBare(e, 0, More(RightParen, k), atomic);
      LoopStops(e, More(RightParen, k), 0, atomic);
      ParenStep(Bare(e, More(RightParen, k)), e, k, atomic);
      BpStep(Print(e, p, k), e, k, min, atomic);
    }
  }

  lemma {:induction false} ReparseWhole(e: Expr, k: Stream, atomic: bool)
    requires Printable(e, atomic) && AtMost(k, 0)
    ensures ParseBp(Print(e, 0, k), 0, atomic) == Ok(e, k)
    decreases e, 4
  {
    hide ParseBp, ParseLoop, Print, Printable;
    ReparseBp(e, 0, 0, k, atomic);
    LoopStops(e, k, 0, atomic);
  }

  lemma {:induction false} ReparseBare(e: Expr, min: nat, k: Stream, atomic: bool)
    requires Printable(e, atomic) && (e.Binary? || e.Cast?)
    requires min <= Level(e) && AtMost(k, Level(e))
    ensures ParseBp(Bare(e, k), min, atomic) == ParseLoop(e, k, min, atomic)
    decreases e, 0
  {
    hide ParseBp, ParseLoop, ParsePrimary, ParseType, Print, PrintType;
    if e.Binary? {
      var q := Precedence(e.op);
      ReparseBp(e.left, q, min, More(Op(e.op), Print(e.right, q + 1, k)), atomic);
      ReparseBp(e.right, q + 1, q + 1, k, atomic);
      LoopStops(e.right, k, q + 1, atomic);
      LoopStep(e.left, e.op, Print(e.right, q + 1, k), e.right, k, min, atomic);
    } else {
      ReparseCast(e, min, k, atomic);
    }
  }

  lemma {:induction false} ReparseCast(e: Expr, min: nat, k: Stream, atomic: bool)
    requires Printable(e, atomic) && e.Cast? && min == 0 && AtMost(k, 0)
    ensures ParseBp(Bare(e, k), min, atomic) == ParseLoop(e, k, min, atomic)
    decreases e, 0, 0
  {
    hide ParseBp, ParseLoop, ParsePrimary, ParseType, Print, PrintType, Precedence;
    var ts := PrintType(e.ty, k);
    ReparseOperand(e.inner, More(As, ts), atomic);
    BpStep(Print(e.inner, OPERAND, More(As, ts)), e.inner, More(As, ts), min, atomic);
    ReparseType(e.ty, k, atomic);
    CastStep(e.inner, ts, e.ty, k, min, atomic);
    LoopStops(e, k, 0, atomic);
  }

  lemma ArgsStep(ts: Stream, e: Expr, after: Stream, more: seq<Expr>, k: Stream, atomic: bool)
    requires ts.More? && !ts.At(RightParen) && !(ts.head.Identifier? && ts.tail.At(Colon))
    requires ParseBp(ts, 0, atomic) == Ok(e, after) && ParseArgs(after.SkipComma(), atomic) == Ok(more, k)
    ensures ParseArgs(ts, atomic) == Ok([e] + more, k)
  {
    hide ParseBp;
  }

  lemma {:induction false} ReparseArgs(args: seq<Expr>, k: Stream, atomic: bool)
    requires AllPrintable(args, atomic)
    ensures ParseArgs(PrintArgs(args, More(RightParen, k)), atomic) == Ok(args, k)
    decreases args, 5
  {
    hide ParseBp, ParseFields, ParseType, Print, PrintFields, Printable;
    if args == [] {
      assert ParseArgs(More(RightParen, k), atomic) == Ok([], k);
    } else {
      hide ParseArgs;
      var k' := More(RightParen, k);
      var after := if |args| == 1 then k' else More(Comma, PrintArgs(args[1..], k'));
      assert PrintArgs(args, k') == Print(args[0], 0, after);
      ArgReads(args[0], after, atomic);
      ReparseArgs(args[1..], k, atomic);
      assert after.SkipComma() == PrintArgs(args[1..], k');
      hide PrintArgs;
      assert [args[0]] + args[1..] == args;
      ArgsStep(Print(args[0], 0, after), args[0], after, args[1..], k, atomic);
    }
  }

  /** An argument reads back before a comma or a closing parenthesis. */
  lemma {:induction false} ArgReads(e: Expr, after: Stream, atomic: bool)
    requires Printable(e, atomic) && after.More? && (after.head == Comma || after.head == RightParen)
    ensures var ts := Print(e, 0, after);
            && ts.More? && !ts.At(RightParen) && !(ts.head.Identifier? && ts.tail.At(Colon))
            && ParseBp(ts, 0, atomic) == Ok(e, after)
    decreases e, 5
  {
    hide ParseBp, Print, Printable, OpensWithParen;
    ReparseWhole(e, after, atomic);
    PrintedHead(e, 0, after, atomic);
  }

  lemma FieldsStep(ts: Stream, f: Field, after: Stream, more: seq<Field>, k: Stream, atomic: bool)
    requires ParseBp(ts, 0, atomic) == Ok(f.value, after) && ParseFields(after.SkipComma(), atomic) == Ok(more, k)
    ensures ParseFields(More(Identifier(f.name), More(Equals, ts)), atomic) == Ok([f] + more, k)
  {
    hide ParseBp;
  }

  /** A field's value reads back before a comma or a closing brace. */
  lemma {:induction false} FieldReads(e: Expr, after: Stream, atomic: bool)
    requires Printable(e, atomic) && after.More? && (after.head == Comma || after.head == RightBrace)
    ensures ParseBp(Print(e, 0, after), 0, atomic) == Ok(e, after)
    decreases e, 5
  {
    hide ParseBp, Print, Printable;
    ReparseWhole(e, after, atomic);
  }

  /** What stands after the first field. */
  function AfterField(fs: seq<Field>, k: Stream): Stream
    requires fs != []
  {
    if |fs| == 1 then k else More(Comma, PrintFields(fs[1..], k))
  }

  lemma FieldsPrinted(fs: seq<Field>, k: Stream)
    requires fs != [] && !k.At(Comma)
    ensures PrintFields(fs, k) == More(Identifier(fs[0].name), More(Equals, Print(fs[0].value, 0, AfterField(fs, k))))
    ensures AfterField(fs, k).SkipComma() == PrintFields(fs[1..], k)
  {
    hide Print;
  }

  lemma {:induction false} ReparseFields(fs: seq<Field>, k: Stream, atomic: bool)
    requires FieldsPrintable(fs, atomic)
    ensures ParseFields(PrintFields(fs, More(RightBrace, k)), atomic) == Ok(fs, k)
    decreases fs, 5
  {
    hide ParseBp, ParseArgs, ParseType, ParsePrimary, Print, PrintArgs, Printable;
    if fs == [] {
      assert PrintFields(fs, More(RightBrace, k)) == More(RightBrace, k);
    } else {
      hide ParseFields, PrintFields;
      var after := AfterField(fs, More(RightBrace, k));
      FieldsPrinted(fs, More(RightBrace, k));
      FieldReads(fs[0].value, after, atomic);
      ReparseFields(fs[1..], k, atomic);
      assert [fs[0]] + fs[1..] == fs;
      FieldsStep(Print(fs[0].value, 0, after), fs[0], after, fs[1..], k, atomic);
    }
  }

  /** Printing and reparsing an expression is the identity, whatever follows it, as long
      as that does not continue the expression. */
  lemma ExprRoundTrip(e: Expr, k: Stream, atomic: bool)
    requires Printable(e, atomic) && AtMost(k, 0)
    ensures ParseBp(Print(e, 0, k), 0, atomic) == Ok(e, k)
  {
    ReparseWhole(e, k, atomic);
  }

  /** An index that opens with a parenthesis is read as a call instead: `x[(a + b) * c]`
      parses as `x(a + b) * c`, with the closing bracket left over. */
  lemma ParenthesisedIndexIsMisread(x: string, a: string, b: string, c: string)
    ensures var (sum, close) := (Binary(Plus, Ident(a), Ident(b)), More(RightBracket, End));
            var e := Index(x, Binary(Star, sum, Ident(c)));
            ParseBp(Print(e, 0, End), 0, false) == Ok(Binary(Star, Call(x, [sum]), Ident(c)), close)
  {
    hide Print, ParseArgs, ParseLoop, ParsePrimary;
    var sum := Binary(Plus, Ident(a), Ident(b));
    var close := More(RightBracket, End);
    var afterSum := More(Op(Star), More(Identifier(c), close));
    var argument := Print(sum, 0, More(RightParen, afterSum));
    IndexOfProduct(x, sum, c);
    assert Printable(Ident(a), false) && Printable(Ident(b), false) && Printable(sum, false);
    BracketReadsAsCall(x, sum, afterSum);
    BpStep(More(Identifier(x), More(LeftBracket, More(LeftParen, argument))), Call(x, [sum]), afterSum, 0, false);
    MultiplyBy(Call(x, [sum]), c, close);
  }

  lemma BracketReadsAsCall(x: string, e: Expr, k: Stream)
    requires Printable(e, false)
    ensures var ts := More(LeftBracket, More(LeftParen, Print(e, 0, More(RightParen, k))));
            ParsePrimary(More(Identifier(x), ts), false) == Ok(Call(x, [e]), k)
  {
    hide Print, ParseArgs, ParseBp, ParseLoop, Printable;
    var argument := Print(e, 0, More(RightParen, k));
    var ts := More(LeftBracket, More(LeftParen, argument));
    assert [e][1..] == [];
    assert AllPrintable([e], false);
    ReparseArgs([e], k, false);
    assert PrintArgs([e], More(RightParen, k)) == argument;
    assert ParseNamed(x, ts, false) == Ok(Call(x, [e]), k);
  }

  lemma IndexOfProduct(x: string, sum: Expr, c: string)
    requires sum.Binary? && sum.op == Plus
    ensures var afterSum := More(Op(Star), More(Identifier(c), More(RightBracket, End)));
            var argument := Print(sum, 0, More(RightParen, afterSum));
            Print(Index(x, Binary(Star, sum, Ident(c))), 0, End) == More(Identifier(x), More(LeftBracket, More(LeftParen, argument)))
  {
    var close := More(RightBracket, End);
    var afterSum := More(Op(Star), More(Identifier(c), close));
    assert Print(Ident(c), 11, close) == More(Identifier(c), close);
    assert Print(sum, 10, afterSum) == More(LeftParen, Bare(sum, More(RightParen, afterSum)));
    assert Print(Binary(Star, sum, Ident(c)), 0, close) == Bare(Binary(Star, sum, Ident(c)), close);
  }

  lemma MultiplyBy(left: Expr, c: string, k: Stream)
    requires AtMost(k, 0)
    ensures ParseLoop(left, More(Op(Star), More(Identifier(c), k)), 0, false) == Ok(Binary(Star, left, Ident(c)), k)
  {
    hide ParseBp, ParseLoop, ParsePrimary;
    IdentStep(c, k, false);
    BpStep(More(Identifier(c), k), Ident(c), k, 11, false);
    LoopStops(Ident(c), k, 11, false);
    LoopStep(left, Star, More(Identifier(c), k), Ident(c), k, 0, false);
    LoopStops(Binary(Star, left, Ident(c)), k, 0, false);
  }

  // ----- Flat operator sequences -----

  predicate IsOperand(t: Token) {
    t.Identifier? || IsLiteral(t)
  }

  /** Operands separated by binary operators. */
  predicate Flat(ts: Stream) {
    ts.More? && IsOperand(ts.head) && FlatRest(ts.tail)
  }

  predicate FlatRest(ts: Stream) {
    ts.End? || (ts.head.Op? && Flat(ts.tail))
  }

  /** A tree of operators over operands. */
  predicate OperatorTree(e: Expr) {
    match e
    case Literal(t) => IsLiteral(t)
    case Ident(_) => true
    case Binary(_, l, r) => OperatorTree(l) && OperatorTree(r)
    case _ => false
  }

  /** The in-order yield of a tree, in front of `k`. */
  function Yield(e: Expr, k: Stream): Stream
    requires OperatorTree(e)
  {
    match e
    case Literal(t) => More(t, k)
    case Ident(n) => More(Identifier(n), k)
    case Binary(op, l, r) => Yield(l, More(Op(op), Yield(r, k)))
  }

  /** Left children bind at least as tightly as their parent, right children strictly tighter. */
  predicate BindsTightly(e: Expr) {
    e.Binary? ==>
      && Level(e.left) >= Precedence(e.op) && Level(e.right) > Precedence(e.op)
      && BindsTightly(e.left) && BindsTightly(e.right)
  }

  /** Such a tree is printed without parentheses. */
  lemma {:induction false} TightPrintsBare(e: Expr, p: nat, k: Stream)
    requires OperatorTree(e) && BindsTightly(e) && p <= Level(e)
    ensures Print(e, p, k) == Yield(e, k)
  {
    if e.Binary? {
      var q := Precedence(e.op);
      TightPrintsBare(e.right, q + 1, k);
      TightPrintsBare(e.left, q, More(Op(e.op), Yield(e.right, k)));
    }
  }

  lemma {:induction false} TreePrintable(e: Expr)
    requires OperatorTree(e)
    ensures Printable(e, false)
  {
    if e.Binary? {
      TreePrintable(e.left);
      TreePrintable(e.right);
    }
  }

  lemma {:induction false} FlatBp(ts: Stream, min: nat) returns (e: Expr, rest: Stream)
    requires Flat(ts) && min <= OPERAND
    ensures ParseBp(ts, min, false) == Ok(e, rest)
    ensures OperatorTree(e) && BindsTightly(e) && Level(e) >= min && Yield(e, rest) == ts
    ensures FlatRest(rest) && (rest.More? ==> Precedence(rest.head.op) < min)
    decreases ts.Length(), 1
  {
    var operand := if ts.head.Identifier? then Ident(ts.head.name) else Literal(ts.head);
    assert ParsePrimary(ts, false) == Ok(operand, ts.tail);
    e, rest := FlatLoop(operand, ts.tail, min);
  }

  lemma {:induction false} FlatLoop(left: Expr, ts: Stream, min: nat) returns (e: Expr, rest: Stream)
    requires OperatorTree(left) && BindsTightly(left) && Level(left) >= min
    requires FlatRest(ts) && (ts.More? ==> Precedence(ts.head.op) <= Level(left))
    ensures ParseLoop(left, ts, min, false) == Ok(e, rest)
    ensures OperatorTree(e) && BindsTightly(e) && Level(e) >= min && Yield(e, rest) == Yield(left, ts)
    ensures FlatRest(rest) && (rest.More? ==> Precedence(rest.head.op) < min)
    ensures rest.Length() <= ts.Length()
    decreases ts.Length(), 0
  {
    if ts.More? && Precedence(ts.head.op) >= min {
      hide ParseBp, ParseLoop;
      var op := ts.head.op;
      var right, after := FlatBp(ts.tail, Precedence(op) + 1);
      LoopStep(left, op, ts.tail, right, after, min, false);
      e, rest := FlatLoop(Binary(op, left, right), after, min);
    } else {
      e, rest := left, ts;
    }
  }

  /** On a flat sequence the parser returns a tree whose yield is the sequence and whose
      operators bind as their precedences say, and it is the only such tree. */
  lemma FlatSequenceParses(ts: Stream)
    requires Flat(ts)
    ensures exists e ::
              && ParseBp(ts, 0, false) == Ok(e, End)
              && OperatorTree(e) && BindsTightly(e) && Yield(e, End) == ts
              && forall e' :: OperatorTree(e') && BindsTightly(e') && Yield(e', End) == ts ==> e' == e
  {
    var e, rest := FlatBp(ts, 0);
    assert rest == End;
    forall e' | OperatorTree(e') && BindsTightly(e') && Yield(e', End) == ts
      ensures e' == e
    {
      TightPrintsBare(e', 0, End);
      TreePrintable(e');
      ExprRoundTrip(e', End, false);
    }
  }
}

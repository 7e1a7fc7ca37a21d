/** The tables of the expression and type parsers, spelled out: which operators bind tighter
    than which, what the prefix operators, literals and type words are, and what may be left
    out. */
module OperatorTable {
  import opened Options
  import opened Tokens
  import opened TypeParser
  import opened ExprParser
  import opened ExprPrinting

  // ----- Binary operators -----

  /** The binary operators from the loosest to the tightest. */
  const LEVELS: seq<set<BinOp>> := [
    {Or}, {And}, {Pipe}, {Caret}, {Ampersand}, {EqEq, NotEq}, {Less, Greater, LessEq, GreaterEq},
    {ShiftLeft, ShiftRight}, {Plus, Minus}, {Star, Slash, Percent}
  ]

  function TwoOperators(a: string, p: BinOp, b: string, q: BinOp, c: string): Stream {
    More(Identifier(a), More(Op(p), More(Identifier(b), More(Op(q), More(Identifier(c), End)))))
  }

  lemma EveryOperatorHasALevel(op: BinOp)
    ensures exists i :: 0 <= i < |LEVELS| && op in LEVELS[i]
  {
    match op
    case Or => assert op in LEVELS[0];
    case And => assert op in LEVELS[1];
    case Pipe => assert op in LEVELS[2];
    case Caret => assert op in LEVELS[3];
    case Ampersand => assert op in LEVELS[4];
    case EqEq => assert op in LEVELS[5];
    case NotEq => assert op in LEVELS[5];
    case Less => assert op in LEVELS[6];
    case Greater => assert op in LEVELS[6];
    case LessEq => assert op in LEVELS[6];
    case GreaterEq => assert op in LEVELS[6];
    case ShiftLeft => assert op in LEVELS[7];
    case ShiftRight => assert op in LEVELS[7];
    case Plus => assert op in LEVELS[8];
    case Minus => assert op in LEVELS[8];
    case Star => assert op in LEVELS[9];
    case Slash => assert op in LEVELS[9];
    case Percent => assert op in LEVELS[9];
  }

  lemma LevelIsPrecedence(op: BinOp, i: nat)
    requires i < |LEVELS| && op in LEVELS[i]
    ensures Precedence(op) == i + 1
  {
  }

  /** `a p b q c` groups to the left unless `q` is on a tighter level than `p`. */
  lemma TwoOperatorsParse(a: string, p: BinOp, b: string, q: BinOp, c: string, i: nat, j: nat)
    requires i < |LEVELS| && p in LEVELS[i] && j < |LEVELS| && q in LEVELS[j]
    ensures ParseBp(TwoOperators(a, p, b, q, c), 0, false) ==
            Ok(if i >= j then Binary(q, Binary(p, Ident(a), Ident(b)), Ident(c)) else Binary(p, Ident(a), Binary(q, Ident(b), Ident(c))), End)
  {
    LevelIsPrecedence(p, i);
    LevelIsPrecedence(q, j);
    hide ParseBp, ParseLoop, ParsePrimary, Precedence;
    var last := More(Identifier(c), End);
    var middle := More(Identifier(b), More(Op(q), last));
    IdentStep(a, More(Op(p), middle), false);
    BpStep(TwoOperators(a, p, b, q, c), Ident(a), More(Op(p), middle), 0, false);
    OneOperand(c, j + 2);
    IdentStep(b, More(Op(q), last), false);
    BpStep(middle, Ident(b), More(Op(q), last), i + 2, false);
    if i >= j {
      LoopStops(Ident(b), More(Op(q), last), i + 2, false);
      LoopStep(Ident(a), p, middle, Ident(b), More(Op(q), last), 0, false);
      LoopStep(Binary(p, Ident(a), Ident(b)), q, last, Ident(c), End, 0, false);
      LoopStops(Binary(q, Binary(p, Ident(a), Ident(b)), Ident(c)), End, 0, false);
    } else {
      LoopStep(Ident(b), q, last, Ident(c), End, i + 2, false);
      LoopStops(Binary(q, Ident(b), Ident(c)), End, i + 2, false);
      LoopStep(Ident(a), p, middle, Binary(q, Ident(b), Ident(c)), End, 0, false);
      LoopStops(Binary(p, Ident(a), Binary(q, Ident(b), Ident(c))), End, 0, false);
    }
  }

  lemma OneOperand(c: string, min: nat)
    ensures ParseBp(More(Identifier(c), End), min, false) == Ok(Ident(c), End)
  {
    hide ParseBp, ParseLoop, ParsePrimary;
    IdentStep(c, End, false);
    BpStep(More(Identifier(c), End), Ident(c), End, min, false);
    LoopStops(Ident(c), End, min, false);
  }

  // ----- Operands -----

  const PREFIXES: seq<(Token, UnOp)> := [(Op(Minus), Negate), (Not, LogicalNot), (Tilde, BitNot), (Op(Ampersand), AddrOf)]

  /** A prefix operator takes the operand after it and no more: `-a * b` multiplies `-a`. */
  lemma PrefixParses(k: nat, a: string, op: BinOp, b: string)
    requires k < |PREFIXES|
    ensures ParseBp(More(PREFIXES[k].0, More(Identifier(a), More(Op(op), More(Identifier(b), End)))), 0, false) ==
            Ok(Binary(op, Unary(PREFIXES[k].1, Ident(a)), Ident(b)), End)
  {
    var (t, u) := PREFIXES[k];
    assert PrefixOp(t) == Some(u);
    var last := More(Identifier(b), End);
    var ts := More(t, More(Identifier(a), More(Op(op), last)));
    IdentStep(a, More(Op(op), last), false);
    PrefixTakes(t, u, More(Identifier(a), More(Op(op), last)), Ident(a), More(Op(op), last));
    hide ParseBp, ParseLoop, ParsePrimary;
    BpStep(ts, Unary(u, Ident(a)), More(Op(op), last), 0, false);
    OneOperand(b, Precedence(op) + 1);
    LoopStep(Unary(u, Ident(a)), op, last, Ident(b), End, 0, false);
    LoopStops(Binary(op, Unary(u, Ident(a)), Ident(b)), End, 0, false);
  }

  lemma PrefixTakes(t: Token, u: UnOp, ts: Stream, e: Expr, rest: Stream)
    requires PrefixOp(t) == Some(u) && ParsePrimary(ts, false) == Ok(e, rest)
    ensures ParsePrimary(More(t, ts), false) == Ok(Unary(u, e), rest)
  {
  }

  /** What can stand alone as an operand: numbers, strings, characters, `true`, `false`, `null`
      and names; of the other tokens none can. */
  lemma OperandTokens(t: Token)
    ensures ParseBp(More(t, End), 0, false) ==
      match t
      case Ints(_, _, _) => Ok(Literal(t), End)
      case Floats(_, _) => Ok(Literal(t), End)
      case Strings(_) => Ok(Literal(t), End)
      case Chars(_) => Ok(Literal(t), End)
      case Trues => Ok(Literal(t), End)
      case Falses => Ok(Literal(t), End)
      case Nulls => Ok(Literal(t), End)
      case Identifier(n) => Ok(Ident(n), End)
      case _ => Fail
  {
    var ts := More(t, End);
    NothingStandsAlone();
    if t.Ints? || t.Floats? || t.Strings? || t.Chars? || t.Trues? || t.Falses? || t.Nulls? {
      assert ParsePrimary(ts, false) == Ok(Literal(t), End);
      Alone(t, Literal(t));
    } else if t.Identifier? {
      assert ParsePrimary(ts, false) == Ok(Ident(t.name), End);
      Alone(t, Ident(t.name));
    } else {
      assert ParsePrimary(ts, false) == Fail;
      hide ParsePrimary, ParseLoop;
    }
  }

  lemma NothingStandsAlone()
    ensures ParsePrimary(End, false) == Fail && ParseBp(End, 0, false) == Fail
  {
  }

  lemma Alone(t: Token, e: Expr)
    requires ParsePrimary(More(t, End), false) == Ok(e, End)
    ensures ParseBp(More(t, End), 0, false) == Ok(e, End)
  {
    hide ParseBp, ParseLoop, ParsePrimary;
    BpStep(More(t, End), e, End, 0, false);
    LoopStops(e, End, 0, false);
  }

  /** The shapes of operands and casts. */
  lemma Shapes(n: string, a: string, f: string, k: Stream)
    requires k.More? && k.head == RightParen
    ensures ParsePrimary(More(LeftParen, More(Identifier(a), k)), false) == Ok(Ident(a), k.tail)
    ensures ParsePrimary(More(Identifier(n), More(LeftParen, More(Identifier(a), k))), false) == Ok(Call(n, [Ident(a)]), k.tail)
    ensures ParsePrimary(More(Identifier(n), More(LeftBracket, More(Identifier(a), More(RightBracket, k)))), false) == Ok(Index(n, Ident(a)), k)
    ensures ParsePrimary(More(Identifier(n), More(LeftBrace, More(Identifier(f), More(Equals, More(Identifier(a), More(RightBrace, k)))))), false)
         == Ok(StructLit(n, [Field(f, Ident(a))]), k)
    ensures ParseBp(More(Identifier(a), More(As, More(Identifier(n), k))), 0, false) == Ok(Cast(Ident(a), TCustom(n)), k)
  {
    ParenShape(a, k);
    CallShape(n, a, k);
    IndexShape(n, a, k);
    StructShape(n, f, a, k);
    CastShape(n, a, k);
    hide *;
  }

  lemma ParenShape(a: string, k: Stream)
    requires k.More? && k.head == RightParen
    ensures ParsePrimary(More(LeftParen, More(Identifier(a), k)), false) == Ok(Ident(a), k.tail)
  {
    NameReads(a, k);
    hide ParseBp;
    ParenStep(More(Identifier(a), k), Ident(a), k.tail, false);
  }

  lemma CallShape(n: string, a: string, k: Stream)
    requires k.More? && k.head == RightParen
    ensures ParsePrimary(More(Identifier(n), More(LeftParen, More(Identifier(a), k))), false) == Ok(Call(n, [Ident(a)]), k.tail)
  {
    OneListed(a, k);
    hide *;
    ArgumentCommasOptional([a], [false], k.tail);
    assert k == More(RightParen, k.tail);
    CallReads(n, More(Identifier(a), k), [Ident(a)], k.tail);
  }

  lemma OneListed(a: string, k: Stream)
    ensures Names([a]) == [Ident(a)] && Listed([a], [false], k) == More(Identifier(a), k)
  {
    assert [a][1..] == [] && [false][1..] == [];
    assert Names([]) == [] && Listed([], [], k) == k;
    hide ParseBp, ParseArgs, ParsePrimary;
  }

  lemma CallReads(n: string, ts: Stream, args: seq<Expr>, k: Stream)
    requires ParseArgs(ts, false) == Ok(args, k)
    ensures ParsePrimary(More(Identifier(n), More(LeftParen, ts)), false) == Ok(Call(n, args), k)
  {
    hide ParseArgs, ParseBp, ParseFields;
    assert ParseNamed(n, More(LeftParen, ts), false) == Ok(Call(n, args), k);
  }

  lemma IndexShape(n: string, a: string, k: Stream)
    ensures ParsePrimary(More(Identifier(n), More(LeftBracket, More(Identifier(a), More(RightBracket, k)))), false) == Ok(Index(n, Ident(a)), k)
  {
    var ts := More(Identifier(a), More(RightBracket, k));
    hide *;
    NameReads(a, More(RightBracket, k));
    NameIsNoParenthesis(a, More(RightBracket, k));
    IndexStep(n, ts, Ident(a), k, false);
    NamedIsPrimary(n, More(LeftBracket, ts), Index(n, Ident(a)), k);
  }

  lemma NameIsNoParenthesis(a: string, k: Stream)
    ensures !More(Identifier(a), k).At(LeftParen)
  {
  }

  lemma NamedIsPrimary(n: string, ts: Stream, e: Expr, k: Stream)
    requires ParseNamed(n, ts, false) == Ok(e, k)
    ensures ParsePrimary(More(Identifier(n), ts), false) == Ok(e, k)
  {
    hide ParseNamed, ParseBp;
  }

  lemma StructShape(n: string, f: string, a: string, k: Stream)
    ensures ParsePrimary(More(Identifier(n), More(LeftBrace, More(Identifier(f), More(Equals, More(Identifier(a), More(RightBrace, k)))))), false)
         == Ok(StructLit(n, [Field(f, Ident(a))]), k)
  {
    var ts := More(Identifier(f), More(Equals, More(Identifier(a), More(RightBrace, k))));
    FieldCommasOptional([f], [a], [false], k);
    assert FieldsListed([f], [a], [false], More(RightBrace, k)) == ts;
    assert FieldsOf([f], [a]) == [Field(f, Ident(a))];
    hide ParseFields, ParseBp;
    assert ParseNamed(n, More(LeftBrace, ts), false) == Ok(StructLit(n, [Field(f, Ident(a))]), k);
  }

  lemma CastShape(n: string, a: string, k: Stream)
    ensures ParseBp(More(Identifier(a), More(As, More(Identifier(n), k))), 0, false) == Ok(Cast(Ident(a), TCustom(n)), k)
  {
    var ts := More(Identifier(n), k);
    assert ParseType(ts, false) == Ok(TCustom(n), k);
    hide ParseBp, ParseLoop, ParsePrimary, ParseType;
    IdentStep(a, More(As, ts), false);
    BpStep(More(Identifier(a), More(As, ts)), Ident(a), More(As, ts), 0, false);
    CastStep(Ident(a), ts, TCustom(n), k, 0, false);
  }

  // ----- What may be left out of lists -----

  /** Names, each with a comma after it or not. */
  function Listed(names: seq<string>, commas: seq<bool>, k: Stream): Stream
    requires |names| == |commas|
  {
    if names == [] then k else
      var rest := Listed(names[1..], commas[1..], k);
      More(Identifier(names[0]), if commas[0] then More(Comma, rest) else rest)
  }

  function Names(names: seq<string>): seq<Expr> {
    if names == [] then [] else [Ident(names[0])] + Names(names[1..])
  }

  /** Between arguments, and after the last one, commas may stand or not. */
  lemma {:induction false} ArgumentCommasOptional(names: seq<string>, commas: seq<bool>, k: Stream)
    requires |names| == |commas|
    ensures ParseArgs(Listed(names, commas, More(RightParen, k)), false) == Ok(Names(names), k)
    decreases names
  {
    var close := More(RightParen, k);
    if names == [] {
      assert ParseArgs(close, false) == Ok([], k);
    } else {
      var rest := Listed(names[1..], commas[1..], close);
      var after := if commas[0] then More(Comma, rest) else rest;
      ListedHead(names[1..], commas[1..], k);
      NameReads(names[0], after);
      ArgumentCommasOptional(names[1..], commas[1..], k);
      ArgsStep(More(Identifier(names[0]), after), Ident(names[0]), after, Names(names[1..]), k, false);
    }
  }

  /** A list goes on with a name or ends with its closing parenthesis. */
  lemma ListedHead(names: seq<string>, commas: seq<bool>, k: Stream)
    requires |names| == |commas|
    ensures var s := Listed(names, commas, More(RightParen, k));
            s.More? && (s.head.Identifier? || s.head == RightParen)
  {
  }

  lemma NameReads(n: string, after: Stream)
    requires after.More? && (after.head in {Comma, RightParen, RightBracket, RightBrace} || after.head.Identifier?)
    ensures ParseBp(More(Identifier(n), after), 0, false) == Ok(Ident(n), after)
  {
    hide ParseBp, ParseLoop, ParsePrimary;
    IdentStep(n, after, false);
    BpStep(More(Identifier(n), after), Ident(n), after, 0, false);
    LoopStops(Ident(n), after, 0, false);
  }

  /** `f = a` for names, each with a comma after it or not. */
  function FieldsListed(fs: seq<string>, names: seq<string>, commas: seq<bool>, k: Stream): Stream
    requires |fs| == |names| == |commas|
  {
    if fs == [] then k else
      var rest := FieldsListed(fs[1..], names[1..], commas[1..], k);
      More(Identifier(fs[0]), More(Equals, More(Identifier(names[0]), if commas[0] then More(Comma, rest) else rest)))
  }

  function FieldsOf(fs: seq<string>, names: seq<string>): seq<Field>
    requires |fs| == |names|
  {
    if fs == [] then [] else [Field(fs[0], Ident(names[0]))] + FieldsOf(fs[1..], names[1..])
  }

  lemma {:induction false} FieldCommasOptional(fs: seq<string>, names: seq<string>, commas: seq<bool>, k: Stream)
    requires |fs| == |names| == |commas|
    ensures ParseFields(FieldsListed(fs, names, commas, More(RightBrace, k)), false) == Ok(FieldsOf(fs, names), k)
    decreases fs
  {
    var close := More(RightBrace, k);
    if fs == [] {
      assert ParseFields(close, false) == Ok([], k);
    } else {
      var rest := FieldsListed(fs[1..], names[1..], commas[1..], close);
      var after := if commas[0] then More(Comma, rest) else rest;
      FieldsListedHead(fs[1..], names[1..], commas[1..], k);
      NameReads(names[0], after);
      FieldCommasOptional(fs[1..], names[1..], commas[1..], k);
      FieldsStep(More(Identifier(names[0]), after), Field(fs[0], Ident(names[0])), after, FieldsOf(fs[1..], names[1..]), k, false);
    }
  }

  lemma FieldsListedHead(fs: seq<string>, names: seq<string>, commas: seq<bool>, k: Stream)
    requires |fs| == |names| == |commas|
    ensures var s := FieldsListed(fs, names, commas, More(RightBrace, k));
            s.More? && (s.head.Identifier? || s.head == RightBrace)
  {
  }

  // ----- Types -----

  /** The types of one word. */
  lemma TypeWords(b: nat, u: bool, text: string, n: string, k: Stream, atomic: bool)
    ensures ParseType(More(Ints(b, u, text), k), atomic) == Ok(TInt(b, u), k)
    ensures ParseType(More(Floats(b, text), k), atomic) == Ok(TFloat(b), k)
    ensures ParseType(More(Strings(text), k), atomic) == Ok(TStr, k)
    ensures ParseType(More(Chars(text), k), atomic) == Ok(TChar, k)
    ensures ParseType(More(Voids, k), atomic) == Ok(TVoid, k)
    ensures ParseType(More(Bools, k), atomic) == Ok(TBool, k)
    ensures ParseType(More(Identifier(n), k), atomic) == Ok(TCustom(n), k)
  {
  }

  /** One star makes a plain pointer, two a raw one, and a third belongs to what it points to. */
  lemma Stars(n: string, k: Stream, atomic: bool)
    ensures var one := More(Op(Star), More(Identifier(n), k));
            && ParseType(one, atomic) == Ok(TPtr(TCustom(n)), k)
            && ParseType(More(Op(Star), one), atomic) == Ok(TRawPtr(TCustom(n)), k)
            && ParseType(More(Op(Star), More(Op(Star), one)), atomic) == Ok(TRawPtr(TPtr(TCustom(n))), k)
  {
    var one := More(Op(Star), More(Identifier(n), k));
    assert ParseType(More(Identifier(n), k), atomic) == Ok(TCustom(n), k);
    assert ParsePointer(More(Identifier(n), k), atomic) == Ok(TPtr(TCustom(n)), k);
    assert ParsePointer(one, atomic) == Ok(TRawPtr(TCustom(n)), k);
    assert ParsePointer(More(Op(Star), one), atomic) == Ok(TRawPtr(TPtr(TCustom(n))), k);
  }

  /** `func` with parameters and no colon after them returns nothing, and so does `func` alone. */
  lemma FunctionTypesMayBeShort(ps: seq<Type>, k: Stream, atomic: bool)
    requires AllReadable(ps, atomic) && !k.At(Colon)
    ensures ParseType(More(Functions, More(LeftParen, PrintTypes(ps, More(RightParen, k)))), atomic) == Ok(TFnPtr(ps, TVoid), k)
    ensures !k.At(LeftParen) ==> ParseType(More(Functions, k), atomic) == Ok(TFnPtr([], TVoid), k)
  {
    hide ParseTypes, PrintTypes;
    ReparseTypes(ps, k, atomic);
  }

  /** `func: t` has no parameters. */
  lemma FunctionTypeWithoutParameters(t: Type, k: Stream, atomic: bool)
    requires Readable(t, atomic)
    ensures ParseType(More(Functions, More(Colon, PrintType(t, k))), atomic) == Ok(TFnPtr([], t), k)
  {
    hide ParseTypes, PrintType;
    ReparseType(t, k, atomic);
  }

  function TypeNames(names: seq<string>): seq<Type> {
    if names == [] then [] else [TCustom(names[0])] + TypeNames(names[1..])
  }

  /** Between the types of a list, and after the last one, commas may stand or not. */
  lemma {:induction false} TypeCommasOptional(names: seq<string>, commas: seq<bool>, k: Stream, atomic: bool)
    requires |names| == |commas|
    ensures ParseTypes(Listed(names, commas, More(RightParen, k)), atomic) == Ok(TypeNames(names), k)
    decreases names
  {
    if names != [] {
      ListedHead(names[1..], commas[1..], k);
      TypeCommasOptional(names[1..], commas[1..], k, atomic);
    }
  }

  /** Tuples in parentheses, function types with a result after a colon, and atomic types in
      brackets, which are read only where atomics are imported. */
  lemma TypeShapes(names: seq<string>, commas: seq<bool>, n: string, k: Stream, atomic: bool)
    requires |names| == |commas|
    ensures ParseType(More(LeftParen, Listed(names, commas, More(RightParen, k))), atomic) == Ok(TTuple(TypeNames(names)), k)
    ensures ParseType(More(Functions, More(LeftParen, Listed(names, commas, More(RightParen, More(Colon, More(Identifier(n), k)))))), atomic)
         == Ok(TFnPtr(TypeNames(names), TCustom(n)), k)
    ensures ParseType(More(Atomics, More(LeftBracket, More(Identifier(n), More(RightBracket, k)))), atomic)
         == if atomic then Ok(TAtomic(TCustom(n)), k) else Fail
  {
    hide *;
    TypeCommasOptional(names, commas, k, atomic);
    TupleReads(Listed(names, commas, More(RightParen, k)), TypeNames(names), k, atomic);
    var result := More(Colon, More(Identifier(n), k));
    TypeCommasOptional(names, commas, result, atomic);
    TypeWords(0, false, "", n, k, atomic);
    FunctionReads(Listed(names, commas, More(RightParen, result)), TypeNames(names), More(Identifier(n), k), TCustom(n), k, atomic);
    TypeWords(0, false, "", n, More(RightBracket, k), atomic);
    AtomicReads(More(Identifier(n), More(RightBracket, k)), TCustom(n), k, atomic);
  }

  lemma TupleReads(ts: Stream, es: seq<Type>, k: Stream, atomic: bool)
    requires ParseTypes(ts, atomic) == Ok(es, k)
    ensures ParseType(More(LeftParen, ts), atomic) == Ok(TTuple(es), k)
  {
    hide ParseTypes;
  }

  lemma FunctionReads(ts: Stream, ps: seq<Type>, rest: Stream, t: Type, k: Stream, atomic: bool)
    requires ParseTypes(ts, atomic) == Ok(ps, More(Colon, rest)) && ParseType(rest, atomic) == Ok(t, k)
    ensures ParseType(More(Functions, More(LeftParen, ts)), atomic) == Ok(TFnPtr(ps, t), k)
  {
    hide ParseTypes;
    assert ParseFnPtr(More(LeftParen, ts), atomic) == Ok(TFnPtr(ps, t), k);
  }

  lemma AtomicReads(ts: Stream, t: Type, k: Stream, atomic: bool)
    requires ParseType(ts, atomic) == Ok(t, More(RightBracket, k))
    ensures ParseType(More(Atomics, More(LeftBracket, ts)), atomic) == if atomic then Ok(TAtomic(t), k) else Fail
  {
    hide ParseTypes, ParseFnPtr;
  }
}

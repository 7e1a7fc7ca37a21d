/** Exactly which expressions survive printing and reparsing.  A parse that succeeds consumes
    as many closing brackets as opening ones, except that an index opened by a parenthesis
    is read as a call and leaves its closing bracket behind; counting them shows that no
    expression with such an index comes back. */
module ExprExactness {
  import opened Tokens
  import opened TypeParser
  import opened ExprParser
  import opened ExprPrinting

  // ----- Counting brackets -----

  /** Opening less closing brackets, where an opening bracket before a parenthesis does not
      count unless it follows `atomic`. */
  function Surplus(ts: Stream, afterAtomic: bool): int {
    if ts.End? then 0 else
      Surplus(ts.tail, ts.head == Atomics) +
      (if ts.head == LeftBracket then (if ts.tail.At(LeftParen) && !afterAtomic then 0 else 1)
       else if ts.head == RightBracket then -1
       else 0)
  }

  lemma PlainToken(t: Token, k: Stream, afterAtomic: bool)
    requires t != LeftBracket && t != RightBracket && t != Atomics
    ensures Surplus(More(t, k), afterAtomic) == Surplus(k, false)
  {
  }

  lemma BracketTokens(k: Stream, afterAtomic: bool)
    ensures Surplus(More(LeftBracket, k), afterAtomic) == Surplus(k, false) + if k.At(LeftParen) && !afterAtomic then 0 else 1
    ensures Surplus(More(RightBracket, k), afterAtomic) == Surplus(k, false) - 1
    ensures Surplus(More(Atomics, k), afterAtomic) == Surplus(k, true)
  {
  }

  lemma {:induction false} TypeSurplus(ts: Stream, atomic: bool)
    ensures var r := ParseType(ts, atomic); r.Ok? ==> Surplus(r.rest, false) == Surplus(ts, false)
    decreases ts.Length(), 0
  {
    if ts.More? {
      var rest := ts.tail;
      assert rest.More? ==> rest.tail.Length() < rest.Length() < ts.Length();
      match ts.head
      case Atomics =>
        if rest.At(LeftBracket) {
          TypeSurplus(rest.tail, atomic);
        }
      case LeftParen => TypesSurplus(rest, atomic);
      case Op(Star) =>
        TypeSurplus(rest, atomic);
        if rest.At(Op(Star)) {
          TypeSurplus(rest.tail, atomic);
        }
      case Functions => FnPtrSurplus(rest, atomic);
      case _ =>
    }
  }

  lemma {:induction false} FnPtrSurplus(ts: Stream, atomic: bool)
    ensures var r := ParseFnPtr(ts, atomic); r.Ok? ==> Surplus(r.rest, false) == Surplus(ts, false)
    decreases ts.Length(), 2
  {
    var ps := Ok([], ts);
    if ts.At(LeftParen) {
      TypesSurplus(ts.tail, atomic);
      ps := ParseTypes(ts.tail, atomic);
    }
    if ps.Ok? && ps.rest.At(Colon) {
      TypeSurplus(ps.rest.tail, atomic);
    }
  }

  lemma {:induction false} TypesSurplus(ts: Stream, atomic: bool)
    ensures var r := ParseTypes(ts, atomic); r.Ok? ==> Surplus(r.rest, false) == Surplus(ts, false)
    decreases ts.Length(), 1
  {
    if ts.More? && !ts.At(RightParen) {
      TypeSurplus(ts, atomic);
      var r := ParseType(ts, atomic);
      if r.Ok? {
        TypesSurplus(r.rest.SkipComma(), atomic);
      }
    }
  }

  lemma {:induction false} BpSurplus(ts: Stream, min: nat, atomic: bool)
    ensures var r := ParseBp(ts, min, atomic); r.Ok? ==> Surplus(r.rest, false) == Surplus(ts, false)
    decreases ts.Length(), 2
  {
    PrimarySurplus(ts, atomic);
    var r := ParsePrimary(ts, atomic);
    if r.Ok? {
      LoopSurplus(r.value, r.rest, min, atomic);
    }
  }

  lemma {:induction false} LoopSurplus(left: Expr, ts: Stream, min: nat, atomic: bool)
    ensures var r := ParseLoop(left, ts, min, atomic); r.Ok? ==> Surplus(r.rest, false) == Surplus(ts, false)
    decreases ts.Length(), 3
  {
    hide Surplus, ParseBp, ParseType;
    if ts.More? && (ts.head.Op? || ts.head == As) {
      PlainToken(ts.head, ts.tail, false);
    }
    if ts.More? && ts.head.Op? && Precedence(ts.head.op) >= min {
      BpSurplus(ts.tail, Precedence(ts.head.op) + 1, atomic);
      var r := ParseBp(ts.tail, Precedence(ts.head.op) + 1, atomic);
      if r.Ok? {
        LoopSurplus(Binary(ts.head.op, left, r.value), r.rest, min, atomic);
      }
    } else if ts.At(As) {
      TypeSurplus(ts.tail, atomic);
    }
  }

  lemma {:induction false} PrimarySurplus(ts: Stream, atomic: bool)
    ensures var r := ParsePrimary(ts, atomic); r.Ok? ==> Surplus(r.rest, false) == Surplus(ts, false)
    decreases ts.Length(), 1
  {
    if ts.More? {
      if PrefixOp(ts.head).Some? {
        PrimarySurplus(ts.tail, atomic);
      } else if ts.head == LeftParen {
        BpSurplus(ts.tail, 0, atomic);
      } else if ts.head.Identifier? {
        NamedSurplus(ts.head.name, ts.tail, atomic);
      }
    }
  }

  lemma {:induction false} NamedSurplus(name: string, ts: Stream, atomic: bool)
    ensures var r := ParseNamed(name, ts, atomic); r.Ok? ==> Surplus(r.rest, false) == Surplus(ts, false)
    decreases ts.Length(), 0
  {
    hide ParseBp, ParseArgs, ParseFields;
    if ts.At(LeftBrace) {
      FieldsSurplus(ts.tail, atomic);
    } else if ts.At(LeftParen) {
      ArgsSurplus(ts.tail, atomic);
    } else if ts.At(LeftBracket) && ts.tail.At(LeftParen) {
      assert ts.tail.tail.Length() < ts.tail.Length() < ts.Length();
      PlainToken(LeftParen, ts.tail.tail, false);
      ArgsSurplus(ts.tail.tail, atomic);
    } else if ts.At(LeftBracket) {
      BpSurplus(ts.tail, 0, atomic);
    }
  }

  lemma {:induction false} ArgsSurplus(ts: Stream, atomic: bool)
    ensures var r := ParseArgs(ts, atomic); r.Ok? ==> Surplus(r.rest, false) == Surplus(ts, false)
    decreases ts.Length(), 4
  {
    if ts.More? && !ts.At(RightParen) && !(ts.head.Identifier? && ts.tail.At(Colon)) {
      BpSurplus(ts, 0, atomic);
      var r := ParseBp(ts, 0, atomic);
      if r.Ok? {
        ArgsSurplus(r.rest.SkipComma(), atomic);
      }
    }
  }

  lemma {:induction false} FieldsSurplus(ts: Stream, atomic: bool)
    ensures var r := ParseFields(ts, atomic); r.Ok? ==> Surplus(r.rest, false) == Surplus(ts, false)
    decreases ts.Length(), 4
  {
    if ts.More? && ts.head.Identifier? && ts.tail.At(Equals) {
      assert ts.Length() == 2 + ts.tail.tail.Length();
      PlainToken(Equals, ts.tail.tail, false);
      BpSurplus(ts.tail.tail, 0, atomic);
      var r := ParseBp(ts.tail.tail, 0, atomic);
      if r.Ok? {
        FieldsSurplus(r.rest.SkipComma(), atomic);
      }
    }
  }

  // ----- What printing opens -----

  /** Literals are literal tokens and cast types are readable; the rest of `Printable`. */
  predicate Sound(e: Expr, atomic: bool) {
    match e
    case Literal(t) => IsLiteral(t)
    case Ident(_) => true
    case Unary(_, x) => Sound(x, atomic)
    case Binary(_, l, r) => Sound(l, atomic) && Sound(r, atomic)
    case Cast(x, ty) => Sound(x, atomic) && Readable(ty, atomic)
    case Call(_, args) => AllSound(args, atomic)
    case Index(_, i) => Sound(i, atomic)
    case StructLit(_, fs) => FieldsSound(fs, atomic)
  }

  predicate AllSound(es: seq<Expr>, atomic: bool) {
    es == [] || (Sound(es[0], atomic) && AllSound(es[1..], atomic))
  }

  predicate FieldsSound(fs: seq<Field>, atomic: bool) {
    fs == [] || (Sound(fs[0].value, atomic) && FieldsSound(fs[1..], atomic))
  }

  /** The number of indexes that open with a parenthesis. */
  function Misread(e: Expr): nat {
    match e
    case Literal(_) => 0
    case Ident(_) => 0
    case Unary(_, x) => Misread(x)
    case Binary(_, l, r) => Misread(l) + Misread(r)
    case Cast(x, _) => Misread(x)
    case Call(_, args) => MisreadAll(args)
    case Index(_, i) => Misread(i) + if OpensWithParen(i, 0) then 1 else 0
    case StructLit(_, fs) => MisreadFields(fs)
  }

  function MisreadAll(es: seq<Expr>): nat {
    if es == [] then 0 else Misread(es[0]) + MisreadAll(es[1..])
  }

  function MisreadFields(fs: seq<Field>): nat {
    if fs == [] then 0 else Misread(fs[0].value) + MisreadFields(fs[1..])
  }

  lemma {:induction false} PrintableIffNoneMisread(e: Expr, atomic: bool)
    ensures Printable(e, atomic) <==> Sound(e, atomic) && Misread(e) == 0
  {
    match e
    case Unary(_, x) => PrintableIffNoneMisread(x, atomic);
    case Binary(_, l, r) =>
      PrintableIffNoneMisread(l, atomic);
      PrintableIffNoneMisread(r, atomic);
    case Cast(x, _) => PrintableIffNoneMisread(x, atomic);
    case Call(_, args) => AllPrintableIffNoneMisread(args, atomic);
    case Index(_, i) => PrintableIffNoneMisread(i, atomic);
    case StructLit(_, fs) => FieldsPrintableIffNoneMisread(fs, atomic);
    case _ =>
  }

  lemma {:induction false} AllPrintableIffNoneMisread(es: seq<Expr>, atomic: bool)
    ensures AllPrintable(es, atomic) <==> AllSound(es, atomic) && MisreadAll(es) == 0
  {
    if es != [] {
      PrintableIffNoneMisread(es[0], atomic);
      AllPrintableIffNoneMisread(es[1..], atomic);
    }
  }

  lemma {:induction false} FieldsPrintableIffNoneMisread(fs: seq<Field>, atomic: bool)
    ensures FieldsPrintable(fs, atomic) <==> FieldsSound(fs, atomic) && MisreadFields(fs) == 0
  {
    if fs != [] {
      PrintableIffNoneMisread(fs[0].value, atomic);
      FieldsPrintableIffNoneMisread(fs[1..], atomic);
    }
  }

  lemma {:induction false} PrintedTypeSurplus(t: Type, k: Stream)
    ensures Surplus(PrintType(t, k), false) == Surplus(k, false)
    decreases t, 1
  {
    hide Surplus;
    match t
    case TAtomic(i) =>
      var inner := PrintType(i, More(RightBracket, k));
      PrintedTypeSurplus(i, More(RightBracket, k));
      BracketTokens(k, false);
      BracketTokens(inner, true);
      BracketTokens(More(LeftBracket, inner), false);
    case TTuple(es) =>
      PrintedTypesSurplus(es, More(RightParen, k));
      PlainToken(RightParen, k, false);
      PlainToken(LeftParen, PrintTypes(es, More(RightParen, k)), false);
    case TPtr(i) =>
      PrintedTypeSurplus(i, k);
      PlainToken(Op(Star), PrintType(i, k), false);
    case TRawPtr(i) =>
      PrintedTypeSurplus(i, k);
      PlainToken(Op(Star), PrintType(i, k), false);
      PlainToken(Op(Star), More(Op(Star), PrintType(i, k)), false);
    case TFnPtr(ps, r) => PrintedFnPtrSurplus(t, k);
    case _ => PlainToken(PrintType(t, k).head, k, false);
  }

  lemma {:induction false} PrintedFnPtrSurplus(t: Type, k: Stream)
    requires t.TFnPtr?
    ensures Surplus(PrintType(t, k), false) == Surplus(k, false)
    decreases t, 0
  {
    hide Surplus;
    var result := PrintType(t.ret, k);
    var rest := More(RightParen, More(Colon, result));
    PrintedTypeSurplus(t.ret, k);
    PlainToken(Colon, result, false);
    PlainToken(RightParen, More(Colon, result), false);
    PrintedTypesSurplus(t.params, rest);
    PlainToken(LeftParen, PrintTypes(t.params, rest), false);
    PlainToken(Functions, More(LeftParen, PrintTypes(t.params, rest)), false);
  }

  lemma {:induction false} PrintedTypesSurplus(es: seq<Type>, k: Stream)
    ensures Surplus(PrintTypes(es, k), false) == Surplus(k, false)
    decreases es, 2
  {
    hide Surplus;
    if |es| == 1 {
      PrintedTypeSurplus(es[0], k);
    } else if es != [] {
      PrintedTypesSurplus(es[1..], k);
      PlainToken(Comma, PrintTypes(es[1..], k), false);
      PrintedTypeSurplus(es[0], More(Comma, PrintTypes(es[1..], k)));
    }
  }

  /** The first token printed is a parenthesis exactly when `OpensWithParen` says so. */
  lemma {:induction false} OpeningToken(e: Expr, p: nat, k: Stream, atomic: bool)
    requires Sound(e, atomic)
    ensures Print(e, p, k).At(LeftParen) <==> OpensWithParen(e, p)
  {
    if (e.Binary? || e.Cast?) && Level(e) >= p {
      if e.Binary? {
        OpeningToken(e.left, Precedence(e.op), More(Op(e.op), Print(e.right, Precedence(e.op) + 1, k)), atomic);
      } else {
        OpeningToken(e.inner, OPERAND, More(As, PrintType(e.ty, k)), atomic);
      }
    }
  }

  lemma {:induction false} PrintedSurplus(e: Expr, p: nat, k: Stream, atomic: bool)
    requires Sound(e, atomic)
    ensures Surplus(Print(e, p, k), false) == Surplus(k, false) - Misread(e)
    decreases e, 1
  {
    hide Surplus;
    match e
    case Literal(t) => PlainToken(t, k, false);
    case Ident(n) => PlainToken(Identifier(n), k, false);
    case Unary(u, x) =>
      PrintedSurplus(x, OPERAND, k, atomic);
      PlainToken(PrefixToken(u), Print(x, OPERAND, k), false);
    case Call(f, args) =>
      PrintedArgsSurplus(args, More(RightParen, k), atomic);
      Enclosed(f, LeftParen, RightParen, PrintArgs(args, More(RightParen, k)), k);
    case Index(b, i) => PrintedIndexSurplus(b, i, k, atomic);
    case StructLit(n, fs) =>
      PrintedFieldsSurplus(fs, More(RightBrace, k), atomic);
      Enclosed(n, LeftBrace, RightBrace, PrintFields(fs, More(RightBrace, k)), k);
    case Binary(_, _, _) => PrintedWithParens(e, p, k, atomic);
    case Cast(_, _) => PrintedWithParens(e, p, k, atomic);
  }

  lemma Enclosed(name: string, open: Token, close: Token, inner: Stream, k: Stream)
    requires (open == LeftParen && close == RightParen) || (open == LeftBrace && close == RightBrace)
    ensures Surplus(More(Identifier(name), More(open, inner)), false) == Surplus(inner, false)
    ensures Surplus(More(close, k), false) == Surplus(k, false)
  {
    hide Surplus;
    PlainToken(open, inner, false);
    PlainToken(close, k, false);
    PlainToken(Identifier(name), More(open, inner), false);
  }

  lemma {:induction false} PrintedIndexSurplus(b: string, i: Expr, k: Stream, atomic: bool)
    requires Sound(i, atomic)
    ensures Surplus(Print(Index(b, i), 0, k), false) == Surplus(k, false) - Misread(Index(b, i))
    decreases i, 2
  {
    hide Surplus;
    var rest := More(RightBracket, k);
    var inner := Print(i, 0, rest);
    PrintedSurplus(i, 0, rest, atomic);
    OpeningToken(i, 0, rest, atomic);
    BracketTokens(k, false);
    BracketTokens(inner, false);
    PlainToken(Identifier(b), More(LeftBracket, inner), false);
  }

  lemma {:induction false} PrintedWithParens(e: Expr, p: nat, k: Stream, atomic: bool)
    requires Sound(e, atomic) && (e.Binary? || e.Cast?)
    ensures Surplus(Print(e, p, k), false) == Surplus(k, false) - Misread(e)
    decreases e, 0, 1
  {
    hide Surplus, Bare;
    if Level(e) >= p {
      PrintedBareSurplus(e, k, atomic);
    } else {
      PrintedBareSurplus(e, More(RightParen, k), atomic);
      PlainToken(RightParen, k, false);
      PlainToken(LeftParen, Bare(e, More(RightParen, k)), false);
    }
  }

  lemma {:induction false} PrintedBareSurplus(e: Expr, k: Stream, atomic: bool)
    requires Sound(e, atomic) && (e.Binary? || e.Cast?)
    ensures Surplus(Bare(e, k), false) == Surplus(k, false) - Misread(e)
    decreases e, 0, 0
  {
    hide Surplus;
    match e
    case Binary(op, l, r) =>
      var right := Print(r, Precedence(op) + 1, k);
      PlainToken(Op(op), right, false);
      PrintedSurplus(r, Precedence(op) + 1, k, atomic);
      PrintedSurplus(l, Precedence(op), More(Op(op), right), atomic);
    case Cast(x, ty) =>
      PlainToken(As, PrintType(ty, k), false);
      PrintedTypeSurplus(ty, k);
      PrintedSurplus(x, OPERAND, More(As, PrintType(ty, k)), atomic);
  }

  lemma {:induction false} PrintedArgsSurplus(args: seq<Expr>, k: Stream, atomic: bool)
    requires AllSound(args, atomic)
    ensures Surplus(PrintArgs(args, k), false) == Surplus(k, false) - MisreadAll(args)
    decreases args, 2
  {
    hide Surplus, Print;
    if args != [] {
      var after := if |args| == 1 then k else More(Comma, PrintArgs(args[1..], k));
      PlainToken(Comma, PrintArgs(args[1..], k), false);
      PrintedArgsSurplus(args[1..], k, atomic);
      PrintedSurplus(args[0], 0, after, atomic);
    }
  }

  lemma {:induction false} PrintedFieldsSurplus(fs: seq<Field>, k: Stream, atomic: bool)
    requires FieldsSound(fs, atomic)
    ensures Surplus(PrintFields(fs, k), false) == Surplus(k, false) - MisreadFields(fs)
    decreases fs, 2
  {
    hide Surplus, Print;
    if fs != [] {
      var after := if |fs| == 1 then k else More(Comma, PrintFields(fs[1..], k));
      PlainToken(Comma, PrintFields(fs[1..], k), false);
      PrintedFieldsSurplus(fs[1..], k, atomic);
      PrintedSurplus(fs[0].value, 0, after, atomic);
      PlainToken(Equals, Print(fs[0].value, 0, after), false);
      PlainToken(Identifier(fs[0].name), More(Equals, Print(fs[0].value, 0, after)), false);
    }
  }

  // ----- What parsing returns -----

  lemma {:induction false} BpSound(ts: Stream, min: nat, atomic: bool)
    ensures var r := ParseBp(ts, min, atomic); r.Ok? ==> Sound(r.value, atomic)
    decreases ts.Length(), 2
  {
    PrimarySound(ts, atomic);
    var r := ParsePrimary(ts, atomic);
    if r.Ok? {
      LoopSound(r.value, r.rest, min, atomic);
    }
  }

  lemma {:induction false} LoopSound(left: Expr, ts: Stream, min: nat, atomic: bool)
    requires Sound(left, atomic)
    ensures var r := ParseLoop(left, ts, min, atomic); r.Ok? ==> Sound(r.value, atomic)
    decreases ts.Length(), 3
  {
    if ts.More? && ts.head.Op? && Precedence(ts.head.op) >= min {
      BpSound(ts.tail, Precedence(ts.head.op) + 1, atomic);
      var r := ParseBp(ts.tail, Precedence(ts.head.op) + 1, atomic);
      if r.Ok? {
        LoopSound(Binary(ts.head.op, left, r.value), r.rest, min, atomic);
      }
    } else if ts.At(As) {
      ParsedTypeReadable(ts.tail, atomic);
    }
  }

  lemma {:induction false} PrimarySound(ts: Stream, atomic: bool)
    ensures var r := ParsePrimary(ts, atomic); r.Ok? ==> Sound(r.value, atomic)
    decreases ts.Length(), 1
  {
    if ts.More? {
      if PrefixOp(ts.head).Some? {
        PrimarySound(ts.tail, atomic);
      } else if ts.head == LeftParen {
        BpSound(ts.tail, 0, atomic);
      } else if ts.head.Identifier? {
        NamedSound(ts.head.name, ts.tail, atomic);
      }
    }
  }

  lemma {:induction false} NamedSound(name: string, ts: Stream, atomic: bool)
    ensures var r := ParseNamed(name, ts, atomic); r.Ok? ==> Sound(r.value, atomic)
    decreases ts.Length(), 0
  {
    if ts.At(LeftBrace) {
      FieldsParseSound(ts.tail, atomic);
    } else if ts.At(LeftParen) {
      ArgsParseSound(ts.tail, atomic);
    } else if ts.At(LeftBracket) && ts.tail.At(LeftParen) {
      assert ts.tail.tail.Length() < ts.tail.Length() < ts.Length();
      ArgsParseSound(ts.tail.tail, atomic);
    } else if ts.At(LeftBracket) {
      BpSound(ts.tail, 0, atomic);
    }
  }

  lemma {:induction false} ArgsParseSound(ts: Stream, atomic: bool)
    ensures var r := ParseArgs(ts, atomic); r.Ok? ==> AllSound(r.value, atomic)
    decreases ts.Length(), 4
  {
    if ts.More? && !ts.At(RightParen) && !(ts.head.Identifier? && ts.tail.At(Colon)) {
      BpSound(ts, 0, atomic);
      var r := ParseBp(ts, 0, atomic);
      if r.Ok? {
        ArgsParseSound(r.rest.SkipComma(), atomic);
        var more := ParseArgs(r.rest.SkipComma(), atomic);
        assert more.Ok? ==> ([r.value] + more.value)[1..] == more.value;
      }
    }
  }

  lemma {:induction false} FieldsParseSound(ts: Stream, atomic: bool)
    ensures var r := ParseFields(ts, atomic); r.Ok? ==> FieldsSound(r.value, atomic)
    decreases ts.Length(), 4
  {
    if ts.More? && ts.head.Identifier? && ts.tail.At(Equals) {
      assert ts.Length() == 2 + ts.tail.tail.Length();
      BpSound(ts.tail.tail, 0, atomic);
      var r := ParseBp(ts.tail.tail, 0, atomic);
      if r.Ok? {
        FieldsParseSound(r.rest.SkipComma(), atomic);
        var more := ParseFields(r.rest.SkipComma(), atomic);
        var field := Field(ts.head.name, r.value);
        assert more.Ok? ==> ([field] + more.value)[1..] == more.value;
      }
    }
  }

  // ----- The exact condition -----

  /** Printing and reparsing an expression gives it back exactly when it is printable. */
  lemma RoundTripIffPrintable(e: Expr, k: Stream, atomic: bool)
    requires AtMost(k, 0)
    ensures ParseBp(Print(e, 0, k), 0, atomic) == Ok(e, k) <==> Printable(e, atomic)
  {
    hide *;
    var ts := Print(e, 0, k);
    if Printable(e, atomic) {
      ExprRoundTrip(e, k, atomic);
    } else if ParseBp(ts, 0, atomic) == Ok(e, k) {
      BpSound(ts, 0, atomic);
      BpSurplus(ts, 0, atomic);
      PrintedSurplus(e, 0, k, atomic);
      PrintableIffNoneMisread(e, atomic);
    }
  }
}

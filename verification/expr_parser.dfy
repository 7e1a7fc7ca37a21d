/** The expression parser: precedence climbing over a token stream, up to the first
    reported error. */
module ExprParser {
  import opened Options
  import opened Tokens
  import opened TypeParser

  datatype UnOp = Negate | LogicalNot | BitNot | AddrOf

  datatype Expr =
    | Literal(tok: Token)
    | Ident(name: string)
    | Unary(uop: UnOp, operand: Expr)
    | Binary(op: BinOp, left: Expr, right: Expr)
    | Cast(inner: Expr, ty: Type)
    | Call(fn: string, args: seq<Expr>)
    | Index(base: string, index: Expr)
    | StructLit(struct_: string, fields: seq<Field>)

  datatype Field = Field(name: string, value: Expr)

  function Precedence(op: BinOp): (p: nat)
    ensures 1 <= p <= 10
  {
    match op
    case Or => 1
    case And => 2
    case Pipe => 3
    case Caret => 4
    case Ampersand => 5
    case EqEq => 6
    case NotEq => 6
    case Less => 7
    case Greater => 7
    case LessEq => 7
    case GreaterEq => 7
    case ShiftLeft => 8
    case ShiftRight => 8
    case Plus => 9
    case Minus => 9
    case Star => 10
    case Slash => 10
    case Percent => 10
  }

  predicate IsLiteral(t: Token) {
    t.Strings? || t.Ints? || t.Floats? || t.Chars? || t.Trues? || t.Falses? || t.Nulls?
  }

  /** The prefix operator a token stands for, where an operand is expected. */
  function PrefixOp(t: Token): Option<UnOp> {
    match t
    case Op(Ampersand) => Some(AddrOf)
    case Op(Minus) => Some(Negate)
    case Not => Some(LogicalNot)
    case Tilde => Some(BitNot)
    case _ => None
  }

  /** `parser_expr_bp`: an operand, then operators that bind at least as tightly as `min`. */
  function ParseBp(ts: Stream, min: nat, atomic: bool): (r: Parse<Expr>)
    ensures r.Ok? ==> r.rest.Length() < ts.Length()
    decreases ts.Length(), 2
  {
    var (left, rest) :- ParsePrimary(ts, atomic);
    ParseLoop(left, rest, min, atomic)
  }

  function ParseLoop(left: Expr, ts: Stream, min: nat, atomic: bool): (r: Parse<Expr>)
    ensures r.Ok? ==> r.rest.Length() <= ts.Length()
    decreases ts.Length(), 3
  {
    if ts.More? && ts.head.Op? && Precedence(ts.head.op) >= min then
      var (right, rest) :- ParseBp(ts.tail, Precedence(ts.head.op) + 1, atomic);
      ParseLoop(Binary(ts.head.op, left, right), rest, min, atomic)
    else if ts.At(As) then
      var (ty, rest) :- ParseType(ts.tail, atomic);
      Ok(Cast(left, ty), rest)
    else Ok(left, ts)
  }

  function ParsePrimary(ts: Stream, atomic: bool): (r: Parse<Expr>)
    ensures r.Ok? ==> r.rest.Length() < ts.Length()
    decreases ts.Length(), 1
  {
    if ts.End? then Fail
    else if PrefixOp(ts.head).Some? then
      var (e, rest) :- ParsePrimary(ts.tail, atomic);
      Ok(Unary(PrefixOp(ts.head).value, e), rest)
    else if ts.head == LeftParen then
      var (e, ts1) :- ParseBp(ts.tail, 0, atomic);
      var (_, ts2) :- Expect(ts1, RightParen);
      Ok(e, ts2)
    else if IsLiteral(ts.head) then Ok(Literal(ts.head), ts.tail)
    else if ts.head.Identifier? then ParseNamed(ts.head.name, ts.tail, atomic)
    else Fail
  }

  /** After an identifier: a struct literal, a call, an index, or just the identifier.
      `x[(` is read as a call whose parenthesis is that one. */
  function ParseNamed(name: string, ts: Stream, atomic: bool): (r: Parse<Expr>)
    ensures r.Ok? ==> r.rest.Length() <= ts.Length()
    decreases ts.Length(), 0
  {
    if ts.At(LeftBrace) then
      var (fields, rest) :- ParseFields(ts.tail, atomic);
      Ok(StructLit(name, fields), rest)
    else if ts.At(LeftParen) then
      var (args, rest) :- ParseArgs(ts.tail, atomic);
      Ok(Call(name, args), rest)
    else if ts.At(Dot) then Fail  // member access is not part of this model
    else if ts.At(LeftBracket) && ts.tail.At(LeftParen) then
      var (args, rest) :- ParseArgs(ts.tail.tail, atomic);
      Ok(Call(name, args), rest)
    else if ts.At(LeftBracket) then
      var (e, ts1) :- ParseBp(ts.tail, 0, atomic);
      var (_, ts2) :- Expect(ts1, RightBracket);
      Ok(Index(name, e), ts2)
    else Ok(Ident(name), ts)
  }

  /** Arguments up to and including the closing parenthesis; commas are optional. */
  function ParseArgs(ts: Stream, atomic: bool): (r: Parse<seq<Expr>>)
    ensures r.Ok? ==> r.rest.Length() < ts.Length()
    decreases ts.Length(), 4
  {
    if ts.End? then Fail
    else if ts.At(RightParen) then Ok([], ts.tail)
    else if ts.head.Identifier? && ts.tail.At(Colon) then Fail  // named arguments are not part of this model
    else
      var (e, rest) :- ParseBp(ts, 0, atomic);
      Prepend([e], ParseArgs(rest.SkipComma(), atomic))
  }

  /** `name = value` fields up to and including the closing brace. */
  function ParseFields(ts: Stream, atomic: bool): (r: Parse<seq<Field>>)
    ensures r.Ok? ==> r.rest.Length() < ts.Length()
    decreases ts.Length(), 4
  {
    if ts.End? then Fail
    else if ts.At(RightBrace) then Ok([], ts.tail)
    else if !ts.head.Identifier? || !ts.tail.At(Equals) then Fail
    else
      assert ts.Length() == 2 + ts.tail.tail.Length();
      var (e, rest) :- ParseBp(ts.tail.tail, 0, atomic);
      Prepend([Field(ts.head.name, e)], ParseFields(rest.SkipComma(), atomic))
  }

  // ----- The parser object -----

  class ExprReader {
    const atomicImported: bool
    var left: Stream

    constructor (ts: Stream, atomicImported: bool)
      ensures left == ts && this.atomicImported == atomicImported
    {
      left, this.atomicImported := ts, atomicImported;
    }

    method Advance()
      requires left.More?
      modifies this
      ensures left == old(left).tail
    {
      left := left.tail;
    }

    method ReadBp(min: nat) returns (r: Option<Expr>)
      modifies this
      ensures Agrees(ParseBp(old(left), min, atomicImported), r, left)
      decreases left.Length(), 2
    {
      r := ReadPrimary();
      if r == None {
        return;
      }
      var l := r.value;
      ghost var whole := ParseLoop(l, left, min, atomicImported);
      while left.More? && left.head.Op? && Precedence(left.head.op) >= min
        invariant left.Length() < old(left.Length())
        invariant whole == ParseLoop(l, left, min, atomicImported)
        decreases left.Length()
      {
        var op := left.head.op;
        Advance();
        r := ReadBp(Precedence(op) + 1);
        if r == None {
          return;
        }
        l := Binary(op, l, r.value);
      }
      if left.At(As) {
        Advance();
        var types := new TypeReader(left, atomicImported);
        var ty := types.ReadType();
        left := types.left;
        return if ty == None then None else Some(Cast(l, ty.value));
      }
      return Some(l);
    }

    method ReadPrimary() returns (r: Option<Expr>)
      modifies this
      ensures Agrees(ParsePrimary(old(left), atomicImported), r, left)
      decreases left.Length(), 1
    {
      if left.End? {
        return None;
      }
      var tok := left.head;
      if PrefixOp(tok).Some? {
        Advance();
        r := ReadPrimary();
        return if r == None then None else Some(Unary(PrefixOp(tok).value, r.value));
      }
      if tok == LeftParen {
        Advance();
        r := ReadBp(0);
        if r == None || !left.At(RightParen) {
          return None;
        }
        Advance();
        return;
      }
      if IsLiteral(tok) {
        Advance();
        return Some(Literal(tok));
      }
      if tok.Identifier? {
        Advance();
        r := ReadNamed(tok.name);
        return;
      }
      return None;
    }

    method ReadNamed(name: string) returns (r: Option<Expr>)
      modifies this
      ensures Agrees(ParseNamed(name, old(left), atomicImported), r, left)
      decreases left.Length(), 0
    {
      hide ParseBp, ParseArgs, ParseFields;
      if left.At(LeftBrace) {
        Advance();
        var fields := ReadFields();
        return if fields == None then None else Some(StructLit(name, fields.value));
      }
      if left.At(Dot) {
        return None;
      }
      var bracket := left.At(LeftBracket);
      if bracket && !left.tail.At(LeftParen) {
        Advance();
        r := ReadBp(0);
        if r == None || !left.At(RightBracket) {
          return None;
        }
        Advance();
        return Some(Index(name, r.value));
      }
      if bracket {
        Advance();
      }
      if left.At(LeftParen) {
        Advance();
        var args := ReadArgs();
        return if args == None then None else Some(Call(name, args.value));
      }
      return Some(Ident(name));
    }

    method ReadArgs() returns (r: Option<seq<Expr>>)
      modifies this
      ensures Agrees(ParseArgs(old(left), atomicImported), r, left)
      decreases left.Length(), 4
    {
      var args := [];
      ghost var whole := ParseArgs(left, atomicImported);
      PrependStep([], Ident(""), whole);
      while left.More? && !left.At(RightParen)
        invariant left.Length() <= old(left.Length())
        invariant whole == Prepend(args, ParseArgs(left, atomicImported))
        decreases left.Length()
      {
        if left.head.Identifier? && left.tail.At(Colon) {
          return None;
        }
        var e := ReadBp(0);
        if e == None {
          return None;
        }
        if left.At(Comma) {
          Advance();
        }
        PrependStep(args, e.value, ParseArgs(left, atomicImported));
        args := args + [e.value];
      }
      if left.End? {
        return None;
      }
      Advance();
      assert args + [] == args;
      return Some(args);
    }

    method ReadFields() returns (r: Option<seq<Field>>)
      modifies this
      ensures Agrees(ParseFields(old(left), atomicImported), r, left)
      decreases left.Length(), 4
    {
      var fields := [];
      ghost var whole := ParseFields(left, atomicImported);
      PrependStep([], Field("", Ident("")), whole);
      while left.More? && !left.At(RightBrace)
        invariant left.Length() <= old(left.Length())
        invariant whole == Prepend(fields, ParseFields(left, atomicImported))
        decreases left.Length()
      {
        if !left.head.Identifier? || !left.tail.At(Equals) {
          return None;
        }
        var name := left.head.name;
        Advance();
        Advance();
        var e := ReadBp(0);
        if e == None {
          return None;
        }
        if left.At(Comma) {
          Advance();
        }
        PrependStep(fields, Field(name, e.value), ParseFields(left, atomicImported));
        fields := fields + [Field(name, e.value)];
      }
      if left.End? {
        return None;
      }
      Advance();
      assert fields + [] == fields;
      return Some(fields);
    }
  }
}

/** The tokens the expression and type parsers look at, and the stream they are read from. */
module Tokens {
  import opened Options

  datatype BinOp =
    | Or | And | Pipe | Caret | Ampersand | EqEq | NotEq | Less | Greater | LessEq | GreaterEq
    | ShiftLeft | ShiftRight | Plus | Minus | Star | Slash | Percent

  datatype Token =
    | Identifier(name: string)
    | Ints(bits: nat, unsigned: bool, text: string)  // a number, or an integer type name
    | Floats(bits: nat, text: string)                // a number, or a float type name
    | Strings(text: string)                          // a string literal, or `str`
    | Chars(text: string)                            // a character literal, or `char`
    | Trues | Falses | Nulls
    | Voids | Bools | Functions | Atomics
    | LeftParen | RightParen | LeftBracket | RightBracket | LeftBrace | RightBrace
    | Comma | Colon | Dot | Equals | As | Not | Tilde
    | Op(op: BinOp)
    | Other(tag: nat)                                // every other token

  /** What the lexer still has to deliver; `End` delivers end-of-file for ever. */
  datatype Stream = End | More(head: Token, tail: Stream) {
    predicate At(t: Token) {
      More? && head == t
    }

    function Length(): nat {
      if End? then 0 else 1 + tail.Length()
    }

    /** After a list element a comma is skipped if there is one. */
    function SkipComma(): (r: Stream)
      ensures r.Length() <= Length()
    {
      if At(Comma) then tail else this
    }
  }

  /** A parse up to its first reported error: the value and the tokens left, or failure. */
  datatype Parse<+T> = Ok(value: T, rest: Stream) | Fail {
    predicate IsFailure() {
      Fail?
    }

    function PropagateFailure<U>(): Parse<U>
      requires Fail?
    {
      Fail
    }

    function Extract(): (T, Stream)
      requires Ok?
    {
      (value, rest)
    }
  }

  /** Consumes `t`, or fails. */
  function Expect(ts: Stream, t: Token): (r: Parse<()>)
    ensures r.Ok? ==> r.rest.Length() < ts.Length()
  {
    if ts.At(t) then Ok((), ts.tail) else Fail
  }

  /** What a parser object whose stream is now `left` returns. */
  predicate Agrees<T(==)>(spec: Parse<T>, r: Option<T>, left: Stream) {
    match spec
    case Ok(v, rest) => r == Some(v) && left == rest
    case Fail => r == None
  }

  /** The result of a list parse with elements already read in front. */
  function Prepend<T>(front: seq<T>, p: Parse<seq<T>>): Parse<seq<T>> {
    match p
    case Ok(more, rest) => Ok(front + more, rest)
    case Fail => Fail
  }

  lemma PrependStep<T>(front: seq<T>, t: T, p: Parse<seq<T>>)
    ensures Prepend(front + [t], p) == Prepend(front, Prepend([t], p))
    ensures Prepend([], p) == p
  {
    if p.Ok? {
      assert front + [t] + p.value == front + ([t] + p.value);
      assert [] + p.value == p.value;
    }
  }
}

/** The type parser, and printing and reparsing types. */
module TypeParser {
  import opened Options
  import opened Tokens

  datatype Type =
    | TInt(bits: nat, unsigned: bool)
    | TFloat(bits: nat)
    | TStr | TChar | TVoid | TBool
    | TCustom(name: string)
    | TAtomic(inner: Type)
    | TTuple(elems: seq<Type>)
    | TPtr(inner: Type)
    | TRawPtr(inner: Type)
    | TFnPtr(params: seq<Type>, ret: Type)

  /** `atomic` says whether the atomic module has been imported. */
  function ParseType(ts: Stream, atomic: bool): (r: Parse<Type>)
    ensures r.Ok? ==> r.rest.Length() < ts.Length()
    decreases ts.Length(), 0
  {
    if ts.End? then Fail else
      var rest := ts.tail;
      match ts.head
      case Ints(b, u, _) => Ok(TInt(b, u), rest)
      case Floats(b, _) => Ok(TFloat(b), rest)
      case Strings(_) => Ok(TStr, rest)
      case Chars(_) => Ok(TChar, rest)
      case Voids => Ok(TVoid, rest)
      case Bools => Ok(TBool, rest)
      case Identifier(n) => Ok(TCustom(n), rest)
      case Atomics => if atomic then ParseAtomic(rest, atomic) else Fail
      case LeftParen =>
        var (elems, rest') :- ParseTypes(rest, atomic);
        Ok(TTuple(elems), rest')
      case Op(Star) => ParsePointer(rest, atomic)
      case Functions => ParseFnPtr(rest, atomic)
      case _ => Fail
  }

  function ParseAtomic(ts: Stream, atomic: bool): (r: Parse<Type>)
    ensures r.Ok? ==> r.rest.Length() < ts.Length()
    decreases ts.Length(), 1
  {
    var (_, ts1) :- Expect(ts, LeftBracket);
    var (t, ts2) :- ParseType(ts1, atomic);
    var (_, ts3) :- Expect(ts2, RightBracket);
    Ok(TAtomic(t), ts3)
  }

  /** After one star: a second star makes it a raw pointer. */
  function ParsePointer(ts: Stream, atomic: bool): (r: Parse<Type>)
    ensures r.Ok? ==> r.rest.Length() < ts.Length()
    decreases ts.Length(), 1
  {
    if ts.At(Op(Star)) then
      var (t, rest) :- ParseType(ts.tail, atomic);
      Ok(TRawPtr(t), rest)
    else
      var (t, rest) :- ParseType(ts, atomic);
      Ok(TPtr(t), rest)
  }

  /** After `func`: the parameter list and the result type are both optional. */
  function ParseFnPtr(ts: Stream, atomic: bool): (r: Parse<Type>)
    ensures r.Ok? ==> r.rest.Length() <= ts.Length()
    decreases ts.Length(), 1
  {
    var (params, ts1) :- if ts.At(LeftParen) then ParseTypes(ts.tail, atomic) else Ok([], ts);
    if ts1.At(Colon) then
      var (ret, ts2) :- ParseType(ts1.tail, atomic);
      Ok(TFnPtr(params, ret), ts2)
    else Ok(TFnPtr(params, TVoid), ts1)
  }

  /** Types up to and including the closing parenthesis; commas are optional. */
  function ParseTypes(ts: Stream, atomic: bool): (r: Parse<seq<Type>>)
    ensures r.Ok? ==> r.rest.Length() < ts.Length()
    decreases ts.Length(), 2
  {
    if ts.End? then Fail
    else if ts.At(RightParen) then Ok([], ts.tail)
    else
      var (t, rest) :- ParseType(ts, atomic);
      Prepend([t], ParseTypes(rest.SkipComma(), atomic))
  }

  // ----- Printing, in front of what follows -----

  function PrintType(t: Type, k: Stream): Stream {
    match t
    case TInt(b, u) => More(Ints(b, u, ""), k)
    case TFloat(b) => More(Floats(b, ""), k)
    case TStr => More(Strings(""), k)
    case TChar => More(Chars(""), k)
    case TVoid => More(Voids, k)
    case TBool => More(Bools, k)
    case TCustom(n) => More(Identifier(n), k)
    case TAtomic(i) => More(Atomics, More(LeftBracket, PrintType(i, More(RightBracket, k))))
    case TTuple(es) => More(LeftParen, PrintTypes(es, More(RightParen, k)))
    case TPtr(i) => More(Op(Star), PrintType(i, k))
    case TRawPtr(i) => More(Op(Star), More(Op(Star), PrintType(i, k)))
    case TFnPtr(ps, r) =>
      More(Functions, More(LeftParen, PrintTypes(ps, More(RightParen, More(Colon, PrintType(r, k))))))
  }

  function PrintTypes(es: seq<Type>, k: Stream): Stream {
    if es == [] then k
    else if |es| == 1 then PrintType(es[0], k)
    else PrintType(es[0], More(Comma, PrintTypes(es[1..], k)))
  }

  predicate IsPointer(t: Type) {
    t.TPtr? || t.TRawPtr?
  }

  /** A plain pointer never directly wraps another pointer, and atomic types occur only
      when they are imported. */
  predicate Readable(t: Type, atomic: bool) {
    match t
    case TAtomic(i) => atomic && Readable(i, atomic)
    case TTuple(es) => AllReadable(es, atomic)
    case TPtr(i) => !IsPointer(i) && Readable(i, atomic)
    case TRawPtr(i) => Readable(i, atomic)
    case TFnPtr(ps, r) => AllReadable(ps, atomic) && Readable(r, atomic)
    case _ => true
  }

  predicate AllReadable(es: seq<Type>, atomic: bool) {
    es == [] || (Readable(es[0], atomic) && AllReadable(es[1..], atomic))
  }

  // ----- Reparsing -----

  lemma {:induction false} ReparseType(t: Type, k: Stream, atomic: bool)
    requires Readable(t, atomic)
    ensures ParseType(PrintType(t, k), atomic) == Ok(t, k)
    decreases t, 2
  {
    HeadDecides(t, k, atomic);
    hide ParseType, PrintType, ParseAtomic, ParsePointer, ParseFnPtr, ParseTypes, PrintTypes;
    match t
    case TAtomic(_) => ReparseAtomic(t, k, atomic);
    case TTuple(es) => ReparseTypes(es, k, atomic);
    case TPtr(_) => ReparsePointer(t, k, atomic);
    case TRawPtr(_) => ReparsePointer(t, k, atomic);
    case TFnPtr(_, _) => ReparseFnPtr(t, k, atomic);
    case _ => ReparseBase(t, k, atomic);
  }

  /** The first token decides how a type is read on. */
  lemma HeadDecides(t: Type, k: Stream, atomic: bool)
    requires t.TAtomic? ==> atomic
    ensures PrintType(t, k).More?
    ensures t.TAtomic? ==> ParseType(PrintType(t, k), atomic) == ParseAtomic(PrintType(t, k).tail, atomic)
    ensures IsPointer(t) ==> ParseType(PrintType(t, k), atomic) == ParsePointer(PrintType(t, k).tail, atomic)
    ensures t.TFnPtr? ==> ParseType(PrintType(t, k), atomic) == ParseFnPtr(PrintType(t, k).tail, atomic)
    ensures t.TTuple? ==>
              && PrintType(t, k).tail == PrintTypes(t.elems, More(RightParen, k))
              && var r := ParseTypes(PrintType(t, k).tail, atomic);
                 ParseType(PrintType(t, k), atomic) == if r.Ok? then Ok(TTuple(r.value), r.rest) else Fail
  {
    hide ParseAtomic, ParsePointer, ParseFnPtr, ParseTypes, PrintTypes;
  }

  /** The types of one token. */
  lemma ReparseBase(t: Type, k: Stream, atomic: bool)
    requires !t.TAtomic? && !t.TTuple? && !IsPointer(t) && !t.TFnPtr?
    ensures ParseType(PrintType(t, k), atomic) == Ok(t, k)
  {
    hide ParseAtomic, ParsePointer, ParseFnPtr, ParseTypes, PrintTypes;
  }

  lemma {:induction false} ReparseAtomic(t: Type, k: Stream, atomic: bool)
    requires t.TAtomic? && Readable(t, atomic)
    ensures ParseAtomic(PrintType(t, k).tail, atomic) == Ok(t, k)
    decreases t, 0
  {
    ReparseType(t.inner, More(RightBracket, k), atomic);
  }

  lemma {:induction false} ReparsePointer(t: Type, k: Stream, atomic: bool)
    requires IsPointer(t) && Readable(t, atomic)
    ensures ParsePointer(PrintType(t, k).tail, atomic) == Ok(t, k)
    decreases t, 0
  {
    ReparseType(t.inner, k, atomic);
    PrintedTypeHead(t.inner, k);
  }

  lemma {:induction false} ReparseFnPtr(t: Type, k: Stream, atomic: bool)
    requires t.TFnPtr? && Readable(t, atomic)
    ensures ParseFnPtr(PrintType(t, k).tail, atomic) == Ok(t, k)
    decreases t, 0
  {
    var result := PrintType(t.ret, k);
    assert PrintType(t, k).tail == More(LeftParen, PrintTypes(t.params, More(RightParen, More(Colon, result))));
    hide PrintType, PrintTypes, ParseType, ParseTypes;
    ReparseTypes(t.params, More(Colon, result), atomic);
    ReparseType(t.ret, k, atomic);
  }

  lemma PrintedTypeHead(t: Type, k: Stream)
    ensures PrintType(t, k).More? && !PrintType(t, k).At(RightParen)
    ensures PrintType(t, k).At(Op(Star)) <==> IsPointer(t)
  {
  }

  lemma {:induction false} ReparseTypes(es: seq<Type>, k: Stream, atomic: bool)
    requires AllReadable(es, atomic)
    ensures ParseTypes(PrintTypes(es, More(RightParen, k)), atomic) == Ok(es, k)
    decreases es, 1
  {
    if es != [] {
      var k' := More(RightParen, k);
      var after := if |es| == 1 then k' else More(Comma, PrintTypes(es[1..], k'));
      ReparseType(es[0], after, atomic);
      PrintedTypeHead(es[0], after);
      ReparseTypes(es[1..], k, atomic);
      assert [es[0]] + es[1..] == es;
    }
  }

  /** Every type the parser returns is readable: two stars always read as a raw pointer. */
  lemma {:induction false} ParsedTypeReadable(ts: Stream, atomic: bool)
    ensures var r := ParseType(ts, atomic); r.Ok? ==> Readable(r.value, atomic)
    decreases ts.Length(), 0
  {
    if ts.More? {
      var rest := ts.tail;
      assert rest.More? ==> rest.tail.Length() < rest.Length() < ts.Length();
      match ts.head
      case Atomics =>
        if rest.At(LeftBracket) {
          ParsedTypeReadable(rest.tail, atomic);
        }
      case LeftParen => ParsedTypesReadable(rest, atomic);
      case Op(Star) => ParsedPointerReadable(rest, atomic);
      case Functions => ParsedFnPtrReadable(rest, atomic);
      case _ =>
    }
  }

  /** A pointer read after one star never points to a pointer. */
  lemma {:induction false} ParsedPointerReadable(ts: Stream, atomic: bool)
    ensures var r := ParsePointer(ts, atomic); r.Ok? ==> IsPointer(r.value) && Readable(r.value, atomic)
    decreases ts.Length(), 1
  {
    if ts.At(Op(Star)) {
      ParsedTypeReadable(ts.tail, atomic);
    } else {
      ParsedTypeReadable(ts, atomic);
      PointersStartWithStar(ts, atomic);
    }
  }

  lemma {:induction false} PointersStartWithStar(ts: Stream, atomic: bool)
    ensures var r := ParseType(ts, atomic); r.Ok? && IsPointer(r.value) ==> ts.At(Op(Star))
  {
  }

  lemma {:induction false} ParsedFnPtrReadable(ts: Stream, atomic: bool)
    ensures var r := ParseFnPtr(ts, atomic); r.Ok? ==> Readable(r.value, atomic)
    decreases ts.Length(), 2
  {
    var ps := Ok([], ts);
    if ts.At(LeftParen) {
      ParsedTypesReadable(ts.tail, atomic);
      ps := ParseTypes(ts.tail, atomic);
    }
    if ps.Ok? && ps.rest.At(Colon) {
      ParsedTypeReadable(ps.rest.tail, atomic);
    }
  }

  lemma {:induction false} ParsedTypesReadable(ts: Stream, atomic: bool)
    ensures var r := ParseTypes(ts, atomic); r.Ok? ==> AllReadable(r.value, atomic)
    decreases ts.Length(), 1
  {
    if ts.More? && !ts.At(RightParen) {
      ParsedTypeReadable(ts, atomic);
      var r := ParseType(ts, atomic);
      if r.Ok? {
        ParsedTypesReadable(r.rest.SkipComma(), atomic);
        var more := ParseTypes(r.rest.SkipComma(), atomic);
        assert more.Ok? ==> ([r.value] + more.value)[1..] == more.value;
      }
    }
  }

  /** Printing and reparsing is the identity exactly on the readable types. */
  lemma TypeRoundTrip(t: Type, k: Stream, atomic: bool)
    ensures ParseType(PrintType(t, k), atomic) == Ok(t, k) <==> Readable(t, atomic)
  {
    if Readable(t, atomic) {
      ReparseType(t, k, atomic);
    } else {
      ParsedTypeReadable(PrintType(t, k), atomic);
    }
  }

  // ----- The parser object -----

  class TypeReader {
    const atomicImported: bool
    var left: Stream

    constructor (ts: Stream, atomicImported: bool)
      ensures left == ts && this.atomicImported == atomicImported
    {
      left, this.atomicImported := ts, atomicImported;
    }

    method Advance()
      requires left.More?
      modifies this
      ensures left == old(left).tail
    {
      left := left.tail;
    }

    method ReadType() returns (r: Option<Type>)
      modifies this
      ensures Agrees(ParseType(old(left), atomicImported), r, left)
      decreases left.Length(), 0
    {
      if left.End? {
        return None;
      }
      var tok := left.head;
      Advance();
      match tok {
        case Ints(b, u, _) => r := Some(TInt(b, u));
        case Floats(b, _) => r := Some(TFloat(b));
        case Strings(_) => r := Some(TStr);
        case Chars(_) => r := Some(TChar);
        case Voids => r := Some(TVoid);
        case Bools => r := Some(TBool);
        case Identifier(n) => r := Some(TCustom(n));
        case Atomics =>
          r := None;
          if atomicImported {
            r := ReadAtomic();
          }
        case LeftParen =>
          var elems := ReadTypes();
          r := if elems == None then None else Some(TTuple(elems.value));
        case Op(Star) => r := ReadPointer();
        case Functions => r := ReadFnPtr();
        case _ => r := None;
      }
    }

    method ReadAtomic() returns (r: Option<Type>)
      modifies this
      ensures Agrees(ParseAtomic(old(left), atomicImported), r, left)
      decreases left.Length(), 1
    {
      if !left.At(LeftBracket) {
        return None;
      }
      Advance();
      var inner := ReadType();
      if inner == None || !left.At(RightBracket) {
        return None;
      }
      Advance();
      return Some(TAtomic(inner.value));
    }

    method ReadPointer() returns (r: Option<Type>)
      modifies this
      ensures Agrees(ParsePointer(old(left), atomicImported), r, left)
      decreases left.Length(), 1
    {
      if left.At(Op(Star)) {
        Advance();
        var inner := ReadType();
        r := if inner == None then None else Some(TRawPtr(inner.value));
      } else {
        var inner := ReadType();
        r := if inner == None then None else Some(TPtr(inner.value));
      }
    }

    method ReadFnPtr() returns (r: Option<Type>)
      modifies this
      ensures Agrees(ParseFnPtr(old(left), atomicImported), r, left)
      decreases left.Length(), 1
    {
      var params := Some([]);
      if left.At(LeftParen) {
        Advance();
        params := ReadTypes();
      }
      if params == None {
        return None;
      }
      if left.At(Colon) {
        Advance();
        var ret := ReadType();
        r := if ret == None then None else Some(TFnPtr(params.value, ret.value));
      } else {
        r := Some(TFnPtr(params.value, TVoid));
      }
    }

    method ReadTypes() returns (r: Option<seq<Type>>)
      modifies this
      ensures Agrees(ParseTypes(old(left), atomicImported), r, left)
      decreases left.Length(), 2
    {
      var elems := [];
      ghost var whole := ParseTypes(left, atomicImported);
      PrependStep([], TVoid, whole);
      while left.More? && !left.At(RightParen)
        invariant left.Length() <= old(left.Length())
        invariant whole == Prepend(elems, ParseTypes(left, atomicImported))
        decreases left.Length()
      {
        var t := ReadType();
        if t == None {
          return None;
        }
        if left.At(Comma) {
          Advance();
        }
        PrependStep(elems, t.value, ParseTypes(left, atomicImported));
        elems := elems + [t.value];
      }
      if left.End? {
        return None;
      }
      Advance();
      assert elems + [] == elems;
      return Some(elems);
    }
  }
}

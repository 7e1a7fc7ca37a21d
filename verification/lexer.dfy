/** The lexer's scanning: where blanks, comments and tokens end, and the table of line
    starts it keeps while it moves.  What kind of token a word is, and its value, are not
    part of this model. */
module Lexing {
  import opened Options
  import opened Decimals
  import opened Lines

  const NUL: char := '\0'

  /** The character at `i`; a C string ends in a zero. */
  function CharAt(s: string, i: nat): char {
    if i < |s| then s[i] else NUL
  }

  predicate IsSpace(c: char) { c == ' ' || '\t' <= c <= '\r' }
  predicate IsBinary(c: char) { c == '0' || c == '1' }
  predicate IsOctal(c: char) { '0' <= c <= '7' }
  predicate IsAlpha(c: char) { 'a' <= c <= 'z' || 'A' <= c <= 'Z' }
  predicate IsHex(c: char) { IsDigit(c) || 'a' <= c <= 'f' || 'A' <= c <= 'F' }
  predicate IsWord(c: char) { IsAlpha(c) || IsDigit(c) || c == '_' }

  // ----- Where things end -----

  /** The first position from `i` on whose character is not of the class. */
  function Span(s: string, i: nat, p: char -> bool): (j: nat)
    requires i <= |s|
    ensures i <= j <= |s| && (forall k | i <= k < j :: p(s[k])) && (j < |s| ==> !p(s[j]))
    decreases |s| - i
  {
    if i < |s| && p(s[i]) then Span(s, i + 1, p) else i
  }

  /** After the first newline from `i` on. */
  function AfterNewline(s: string, i: nat): (r: Option<nat>)
    requires i <= |s|
    ensures r.Some? ==> i < r.value <= |s| && s[r.value - 1] == '\n' && forall k | i <= k < r.value - 1 :: s[k] != '\n'
    ensures r.None? <==> forall k | i <= k < |s| :: s[k] != '\n'
    decreases |s| - i
  {
    if i == |s| then None else if s[i] == '\n' then Some(i + 1) else AfterNewline(s, i + 1)
  }

  /** After the first star and slash from `i` on. */
  function AfterBlock(s: string, i: nat): (r: Option<nat>)
    requires i <= |s|
    ensures r.Some? ==> i < r.value <= |s|
    decreases |s| - i
  {
    if i + 1 >= |s| then None
    else if s[i] == '*' && s[i + 1] == '/' then Some(i + 2)
    else AfterBlock(s, i + 1)
  }

  predicate ClosesAt(s: string, k: nat) {
    k + 1 < |s| && s[k] == '*' && s[k + 1] == '/'
  }

  lemma {:induction false} AfterBlockIsFirst(s: string, i: nat)
    requires i <= |s|
    ensures AfterBlock(s, i).None? <==> forall k: nat | i <= k :: !ClosesAt(s, k)
    ensures AfterBlock(s, i).Some? ==>
              var j := AfterBlock(s, i).value - 2; i <= j && ClosesAt(s, j) && forall k: nat | i <= k < j :: !ClosesAt(s, k)
    decreases |s| - i
  {
    if i + 1 < |s| && !ClosesAt(s, i) {
      AfterBlockIsFirst(s, i + 1);
    }
  }

  /** After blanks and line comments; nothing if a line comment never ends. */
  function AfterBlanks(s: string, i: nat): (r: Option<nat>)
    requires i <= |s|
    ensures r.Some? ==> i <= r.value <= |s| && !IsSpace(CharAt(s, r.value))
    decreases |s| - i
  {
    var j := Span(s, i, IsSpace);
    if CharAt(s, j) == '/' && CharAt(s, j + 1) == '/' then
      match AfterNewline(s, j)
      case None => None
      case Some(k) => AfterBlanks(s, k)
    else Some(j)
  }

  predicate IsRadixMark(x: char) { x == 'x' || x == 'X' || x == 'b' || x == 'B' || x == 'o' || x == 'O' }

  /** The digits that may follow `0x`, `0b` and `0o`. */
  function RadixDigit(x: char): (p: char -> bool)
    ensures !p(NUL)
  {
    if x == 'x' || x == 'X' then IsHex else if x == 'b' || x == 'B' then IsBinary else IsOctal
  }

  function NumberEnd(s: string, i: nat): (j: nat)
    requires i < |s| && IsDigit(s[i])
    ensures i < j <= |s|
  {
    var x := CharAt(s, i + 1);
    if s[i] == '0' && IsRadixMark(x) then Span(s, i + 2, RadixDigit(x)) else
      var j := Span(s, i + 1, IsDigit);
      if CharAt(s, j) == '.' && IsDigit(CharAt(s, j + 1)) then Span(s, j + 1, IsDigit) else j
  }

  /** After the closing quote, or at the end of the text. */
  function StringEnd(s: string, i: nat): (j: nat)
    requires i <= |s|
    ensures i <= j <= |s|
    decreases |s| - i
  {
    if i == |s| then i
    else if s[i] == '"' then i + 1
    else if s[i] == '\\' && i + 1 < |s| then StringEnd(s, i + 2)
    else StringEnd(s, i + 1)
  }

  function CharEnd(s: string, i: nat): (j: nat)
    requires i <= |s|
    ensures i <= j <= |s|
  {
    var i1 := if CharAt(s, i) == '\\' then i + 1 else i;
    var i2 := if i1 < |s| then i1 + 1 else i1;
    if CharAt(s, i2) == '\'' then i2 + 1 else i2
  }

  /** The longest operator that starts with these three characters. */
  function OperatorWidth(a: char, b: char, c: char): nat {
    if a == '<' || a == '>' then (if b == '=' then 2 else if b == a then (if c == '=' then 3 else 2) else 1)
    else if a == '.' then (if b == '.' then (if c == '.' then 3 else 2) else 1)
    else if a == '&' || a == '|' then (if b == a || b == '=' then 2 else 1)
    else if a in "+-*%=!^/" && b == '=' then 2
    else 1
  }

  datatype Token = Token(start: nat, end: nat)

  /** The next token from `i` on; nothing if a comment never ends. */
  function NextToken(s: string, i: nat): (r: Option<Token>)
    requires i <= |s|
    ensures r.Some? ==> i <= r.value.start <= r.value.end <= |s|
    ensures r.Some? ==> (r.value.start == r.value.end <==> r.value.start == |s|)
    decreases |s| - i
  {
    match AfterBlanks(s, i)
    case None => None
    case Some(j) =>
      if j == |s| then Some(Token(j, j))
      else if s[j] == '/' && CharAt(s, j + 1) == '*' then
        match AfterBlock(s, j + 2)
        case None => None
        case Some(k) => NextToken(s, k)
      else Some(Token(j, TokenEnd(s, j)))
  }

  lemma NextTokenCases(s: string, i: nat)
    requires i <= |s|
    ensures AfterBlanks(s, i).None? ==> NextToken(s, i) == None
    ensures AfterBlanks(s, i).Some? ==>
      var j := AfterBlanks(s, i).value;
      && (j == |s| ==> NextToken(s, i) == Some(Token(j, j)))
      && (j < |s| && s[j] == '/' && CharAt(s, j + 1) == '*' ==>
            NextToken(s, i) == if AfterBlock(s, j + 2).None? then None else NextToken(s, AfterBlock(s, j + 2).value))
      && (j < |s| && !(s[j] == '/' && CharAt(s, j + 1) == '*') ==> NextToken(s, i) == Some(Token(j, TokenEnd(s, j))))
  {
    hide AfterBlanks, AfterBlock, TokenEnd;
  }

  function TokenEnd(s: string, j: nat): (e: nat)
    requires j < |s|
    ensures j < e <= |s|
  {
    var c := s[j];
    if IsAlpha(c) || c == '_' then Span(s, j + 1, IsWord)
    else if IsDigit(c) then NumberEnd(s, j)
    else if c == '"' then StringEnd(s, j + 1)
    else if c == '\'' then CharEnd(s, j + 1)
    else j + OperatorWidth(c, CharAt(s, j + 1), CharAt(s, j + 2))
  }

  // ----- The lexer -----

  class Lexer {
    const source: string
    var cur: nat
    var lineStarts: seq<nat>

    /** The table holds 0 and the position after every newline passed so far. */
    ghost predicate Valid()
      reads this
    {
      && cur <= |source| && lineStarts == LineTable(source, cur)
      && forall i | 0 <= i < |source| :: source[i] != NUL
    }

    constructor (text: string)
      requires forall i | 0 <= i < |text| :: text[i] != NUL
      ensures Valid() && source == text && cur == 0
    {
      source, cur, lineStarts := text, 0, [0];
    }

    function Peek(k: nat): char
      reads this
    {
      CharAt(source, cur + k)
    }

    method AdvanceChar() returns (c: char)
      requires Valid()
      modifies this
      ensures Valid() && c == old(Peek(0)) && cur == if old(cur) < |source| then old(cur) + 1 else old(cur)
    {
      c := Peek(0);
      if c == '\n' {
        lineStarts := lineStarts + [cur + 1];
      }
      if c != NUL {
        cur := cur + 1;
      }
    }

    method AdvanceWhile(p: char -> bool)
      requires Valid() && !p(NUL)
      modifies this
      ensures Valid() && cur == Span(source, old(cur), p)
    {
      while p(Peek(0))
        invariant Valid() && Span(source, cur, p) == Span(source, old(cur), p)
        decreases |source| - cur
      {
        var _ := AdvanceChar();
      }
    }

    /** `skip_comments`; `stuck` stands for the loop that waits for a newline after the end. */
    method SkipComments() returns (stuck: bool)
      requires Valid()
      modifies this
      ensures Valid()
      ensures match AfterBlanks(source, old(cur))
              case None => stuck
              case Some(j) => !stuck && cur == j
      decreases |source| - cur
    {
      AdvanceWhile(IsSpace);
      if Peek(0) == '/' && Peek(1) == '/' {
        stuck := SkipLine();
        if !stuck {
          stuck := SkipComments();
        }
      } else {
        stuck := false;
      }
    }

    method SkipLine() returns (stuck: bool)
      requires Valid()
      modifies this
      ensures Valid()
      ensures match AfterNewline(source, old(cur))
              case None => stuck
              case Some(j) => !stuck && cur == j
    {
      while cur < |source|
        invariant Valid() && AfterNewline(source, cur) == AfterNewline(source, old(cur))
        decreases |source| - cur
      {
        var c := AdvanceChar();
        if c == '\n' {
          return false;
        }
      }
      return true;
    }

    method SkipBlock() returns (stuck: bool)
      requires Valid() && Peek(0) == '/' && Peek(1) == '*'
      modifies this
      ensures Valid()
      ensures match AfterBlock(source, old(cur) + 2)
              case None => stuck
              case Some(j) => !stuck && cur == j
    {
      var _ := AdvanceChar();
      var _ := AdvanceChar();
      while !(Peek(0) == '*' && Peek(1) == '/')
        invariant Valid() && AfterBlock(source, cur) == AfterBlock(source, old(cur) + 2)
        decreases |source| - cur
      {
        if cur == |source| {
          return true;
        }
        var _ := AdvanceChar();
      }
      var _ := AdvanceChar();
      var _ := AdvanceChar();
      return false;
    }

    /** `compue_top` */
    method ComputeTop() returns (r: Option<Token>)
      requires Valid()
      modifies this
      ensures Valid() && r == NextToken(source, old(cur)) && (r.Some? ==> cur == r.value.end)
      decreases |source| - cur
    {
      assert cur <= |source|;
      ghost var i := cur;
      NextTokenCases(source, i);
      hide LineTable, AfterBlanks, AfterBlock, TokenEnd, NextToken, IsSpace;
      var stuck := SkipComments();
      if stuck {
        return None;
      }
      var start := cur;
      if Peek(0) == '/' && Peek(1) == '*' {
        stuck := SkipBlock();
        if stuck {
          return None;
        }
        r := ComputeTop();
      } else {
        ReadTop();
        r := Some(Token(start, cur));
      }
    }

    /** The token that starts here, or nothing at the end of the text. */
    method ReadTop()
      requires Valid()
      modifies this
      ensures Valid() && cur == if old(cur) < |source| then TokenEnd(source, old(cur)) else old(cur)
    {
      if Peek(0) != NUL {
        ReadToken();
      }
    }

    method ReadToken()
      requires Valid() && cur < |source|
      modifies this
      ensures Valid() && cur == TokenEnd(source, old(cur))
    {
      var c := Peek(0);
      if IsAlpha(c) || c == '_' {
        AdvanceWhile(IsWord);
      } else if IsDigit(c) {
        ReadNumber();
      } else if c == '"' {
        ReadString();
      } else if c == '\'' {
        ReadChar();
      } else {
        ReadOperator();
      }
    }

    method ReadNumber()
      requires Valid() && IsDigit(Peek(0))
      modifies this
      ensures Valid() && cur == NumberEnd(source, old(cur))
    {
      hide Lexer.Valid, Span, RadixDigit;
      var x := Peek(1);
      if Peek(0) == '0' && IsRadixMark(x) {
        var _ := AdvanceChar();
        var _ := AdvanceChar();
        AdvanceWhile(RadixDigit(x));
        return;
      }
      AdvanceWhile(IsDigit);
      if Peek(0) == '.' && IsDigit(Peek(1)) {
        var _ := AdvanceChar();
        AdvanceWhile(IsDigit);
      }
    }

    method ReadString()
      requires Valid() && Peek(0) == '"'
      modifies this
      ensures Valid() && cur == StringEnd(source, old(cur) + 1)
    {
      var _ := AdvanceChar();
      while Peek(0) != '"' && Peek(0) != NUL
        invariant Valid() && StringEnd(source, cur) == StringEnd(source, old(cur) + 1)
        decreases |source| - cur
      {
        if Peek(0) == '\\' && Peek(1) != NUL {
          var _ := AdvanceChar();
        }
        var _ := AdvanceChar();
      }
      if Peek(0) == '"' {
        var _ := AdvanceChar();
      }
    }

    method ReadChar()
      requires Valid() && Peek(0) == '\''
      modifies this
      ensures Valid() && cur == CharEnd(source, old(cur) + 1)
    {
      var _ := AdvanceChar();
      if Peek(0) == '\\' {
        var _ := AdvanceChar();
      }
      if Peek(0) != NUL {
        var _ := AdvanceChar();
      }
      if Peek(0) == '\'' {
        var _ := AdvanceChar();
      }
    }

    method ReadOperator()
      requires Valid() && cur < |source|
      modifies this
      ensures Valid() && cur == old(cur) + OperatorWidth(old(Peek(0)), old(Peek(1)), old(Peek(2)))
    {
      var c := AdvanceChar();
      if c == '<' || c == '>' {
        if Peek(0) == '=' {
          var _ := AdvanceChar();
        } else if Peek(0) == c {
          var _ := AdvanceChar();
          if Peek(0) == '=' {
            var _ := AdvanceChar();
          }
        }
      } else if c == '.' {
        if Peek(0) == '.' {
          var _ := AdvanceChar();
          if Peek(0) == '.' {
            var _ := AdvanceChar();
          }
        }
      } else if c == '&' || c == '|' {
        if Peek(0) == c || Peek(0) == '=' {
          var _ := AdvanceChar();
        }
      } else if c in "+-*%=!^/" {
        if Peek(0) == '=' {
          var _ := AdvanceChar();
        }
      }
    }

    /** Every token to the end of the text, as the parser asks for them. */
    method LexAll() returns (tokens: seq<Token>, stuck: bool)
      requires Valid()
      modifies this
      ensures Valid()
      ensures (tokens, stuck) == TokensFrom(source, old(cur))
      ensures !stuck ==> cur == |source| && lineStarts == LineTable(source, |source|)
    {
      hide LineTable, NextToken;
      ghost var all := TokensFrom(source, cur);
      tokens := [];
      assert [] + all.0 == all.0;
      while true
        invariant Valid() && tokens + TokensFrom(source, cur).0 == all.0 && TokensFrom(source, cur).1 == all.1
        decreases |source| - cur
      {
        assert cur <= |source|;
        ghost var rest := TokensFrom(source, cur).0;
        var t := ComputeTop();
        assert tokens + [] == tokens;
        if t.None? {
          return tokens, true;
        }
        if t.value.start == |source| {
          return tokens, false;
        }
        assert tokens + rest == tokens + [t.value] + rest[1..];
        tokens := tokens + [t.value];
      }
    }
  }

  /** The tokens from `i` to the end of the text, and whether a comment that never ends cuts
      them short. */
  function TokensFrom(s: string, i: nat): (seq<Token>, bool)
    requires i <= |s|
    decreases |s| - i
  {
    match NextToken(s, i)
    case None => ([], true)
    case Some(t) =>
      if t.start == |s| then ([], false) else
        var (more, stuck) := TokensFrom(s, t.end);
        ([t] + more, stuck)
  }

  /** Blanks and comments. */
  predicate Skipped(s: string, i: nat, j: nat)
    requires i <= |s|
    decreases |s| - i
  {
    i == j ||
    (i < |s| &&
     ((IsSpace(s[i]) && Skipped(s, i + 1, j))
      || (s[i] == '/' && CharAt(s, i + 1) == '/' && AfterNewline(s, i).Some? && Skipped(s, AfterNewline(s, i).value, j))
      || (s[i] == '/' && CharAt(s, i + 1) == '*' && AfterBlock(s, i + 2).Some? && Skipped(s, AfterBlock(s, i + 2).value, j))))
  }

  lemma {:induction false} SpacesSkipped(s: string, i: nat, j: nat, k: nat)
    requires i <= j <= |s| && (forall x | i <= x < j :: IsSpace(s[x])) && Skipped(s, j, k)
    ensures Skipped(s, i, k)
    decreases j - i
  {
    if i < j {
      SpacesSkipped(s, i + 1, j, k);
    }
  }

  lemma {:induction false} BlanksSkipped(s: string, i: nat, k: nat)
    requires i <= |s| && AfterBlanks(s, i).Some? && Skipped(s, AfterBlanks(s, i).value, k)
    ensures Skipped(s, i, k)
    decreases |s| - i
  {
    var j := Span(s, i, IsSpace);
    if CharAt(s, j) == '/' && CharAt(s, j + 1) == '/' {
      BlanksSkipped(s, AfterNewline(s, j).value, k);
    }
    SpacesSkipped(s, i, j, k);
  }

  /** Only blanks and comments stand before a token. */
  lemma {:induction false} GapIsSkipped(s: string, i: nat)
    requires i <= |s| && NextToken(s, i).Some?
    ensures Skipped(s, i, NextToken(s, i).value.start)
    decreases |s| - i
  {
    hide AfterBlanks, TokenEnd;
    NextTokenCases(s, i);
    var j := AfterBlanks(s, i).value;
    if j < |s| && s[j] == '/' && CharAt(s, j + 1) == '*' {
      GapIsSkipped(s, AfterBlock(s, j + 2).value);
    }
    BlanksSkipped(s, i, NextToken(s, i).value.start);
  }

  /** In a run of tokens between `i` and the end, what is before token `k`, or after the last. */
  predicate GapSkipped(s: string, i: nat, ts: seq<Token>, k: nat)
    requires k <= |ts|
  {
    var from, to := if k == 0 then i else ts[k - 1].end, if k == |ts| then |s| else ts[k].start;
    from <= to && from <= |s| && Skipped(s, from, to)
  }

  lemma GapLater(s: string, i: nat, t: Token, more: seq<Token>, k: nat)
    requires k <= |more| && GapSkipped(s, t.end, more, k)
    ensures GapSkipped(s, i, [t] + more, k + 1)
  {
    hide Skipped;
  }

  /** The tokens of a text that is read to its end cover it: in order and without overlap,
      they leave out only blanks and comments. */
  lemma {:induction false} TokensCover(s: string, i: nat)
    requires i <= |s| && !TokensFrom(s, i).1
    ensures var ts := TokensFrom(s, i).0;
            (forall k | 0 <= k < |ts| :: ts[k].start < ts[k].end) && forall k | 0 <= k <= |ts| :: GapSkipped(s, i, ts, k)
    decreases |s| - i
  {
    hide Skipped, NextToken;
    GapIsSkipped(s, i);
    var t := NextToken(s, i).value;
    if t.start < |s| {
      TokensCover(s, t.end);
      var more := TokensFrom(s, t.end).0;
      assert TokensFrom(s, i).0 == [t] + more;
      assert GapSkipped(s, i, [t] + more, 0);
      forall k | 0 <= k <= |more| + 1
        ensures GapSkipped(s, i, [t] + more, k)
      {
        if k > 0 {
          GapLater(s, i, t, more, k - 1);
        }
      }
    }
  }
}

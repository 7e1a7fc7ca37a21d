/** What the tokens of a text are, by their spelling: strings with escapes, words, numbers,
    characters and operators, each between any text before it and any text after it that
    does not prolong it; and what separates them. */
module LexerShapes {
  import opened Options
  import opened Decimals
  import opened Lexing

  /** In `before + t + after` the token sought from the start of `t` is `t`. */
  predicate IsToken(before: string, t: string, after: string) {
    NextToken(before + t + after, |before|) == Some(Token(|before|, |before + t|))
  }

  /** What is sought from the start of `t` is found from its end. */
  predicate IsGap(before: string, t: string, after: string) {
    NextToken(before + t + after, |before|) == NextToken(before + t + after, |before + t|)
  }

  lemma Within(before: string, t: string, after: string, j: nat)
    ensures j < |t| ==> CharAt(before + t + after, |before| + j) == t[j]
    ensures j == |t| ==> CharAt(before + t + after, |before| + j) == if after == "" then NUL else after[0]
    ensures j == |t| + 1 ==> CharAt(before + t + after, |before| + j) == if |after| < 2 then NUL else after[1]
  {
  }

  predicate StartsComment(c: char, d: char) {
    c == '/' && (d == '/' || d == '*')
  }

  lemma TokenHere(s: string, i: nat)
    requires i < |s| && !IsSpace(s[i]) && !StartsComment(s[i], CharAt(s, i + 1))
    ensures NextToken(s, i) == Some(Token(i, TokenEnd(s, i)))
  {
    NextTokenCases(s, i);
    hide NextToken, TokenEnd;
    assert Span(s, i, IsSpace) == i;
  }

  lemma TokenIs(before: string, t: string, after: string)
    requires t != "" && !IsSpace(t[0]) && !StartsComment(t[0], CharAt(t + after, 1))
    requires TokenEnd(before + t + after, |before|) == |before + t|
    ensures IsToken(before, t, after)
  {
    hide TokenEnd, IsSpace;
    Ahead(before, t, after, 0);
    Ahead(before, t, after, 1);
    TokenHere(before + t + after, |before|);
  }

  lemma Ahead(before: string, t: string, after: string, j: nat)
    ensures CharAt(before + t + after, |before| + j) == CharAt(t + after, j)
  {
  }

  lemma SpanTo(s: string, i: nat, j: nat, p: char -> bool)
    requires i <= j <= |s| && (forall k | i <= k < j :: p(s[k])) && (j < |s| ==> !p(s[j]))
    ensures Span(s, i, p) == j
  {
  }

  // ----- Strings -----

  /** The inside of a string: characters other than quote and backslash, and pairs of a
      backslash and any character. */
  predicate Inside(t: string) {
    t == "" || (t[0] != '"' && t[0] != '\\' && Inside(t[1..])) || (|t| >= 2 && t[0] == '\\' && Inside(t[2..]))
  }

  lemma {:induction false} InsideRead(s: string, i: nat, t: string)
    requires i + |t| <= |s| && s[i..i + |t|] == t && Inside(t)
    ensures StringEnd(s, i) == StringEnd(s, i + |t|)
    decreases |t|
  {
    if t != "" {
      var n := if t[0] == '\\' then 2 else 1;
      assert s[i] == s[i..i + |t|][0] && (n == 2 ==> s[i + 1] == s[i..i + |t|][1]);
      assert s[i + n..i + n + |t[n..]|] == t[n..];
      InsideRead(s, i + n, t[n..]);
    }
  }

  /** A closed string ends at its first quote that no backslash escapes. */
  lemma ClosedString(before: string, t: string, after: string)
    requires Inside(t)
    ensures IsToken(before, "\"" + t + "\"", after)
  {
    var lit, i := "\"" + t + "\"", |before|;
    var s := before + lit + after;
    assert s[i + 1..i + 1 + |t|] == t && s[i] == '"' && s[i + 1 + |t|] == '"';
    InsideRead(s, i + 1, t);
    TokenHere(s, i);
  }

  /** A string that is not closed runs to the end of the text. */
  lemma OpenString(before: string, t: string)
    requires Inside(t)
    ensures IsToken(before, "\"" + t, "") && IsToken(before, "\"" + t + "\\", "")
  {
    OpenStringEnds(before, t, "");
    OpenStringEnds(before, t, "\\");
    assert "\"" + t + "" == "\"" + t;
  }

  lemma OpenStringEnds(before: string, t: string, last: string)
    requires Inside(t) && (last == "" || last == "\\")
    ensures IsToken(before, "\"" + t + last, "")
  {
    var lit, i := "\"" + t + last, |before|;
    var s := before + lit + "";
    assert s[i + 1..i + 1 + |t|] == t && s[i] == '"' && (last != "" ==> s[i + 1 + |t|] == '\\');
    InsideRead(s, i + 1, t);
    assert StringEnd(s, |s|) == |s|;
    TokenHere(s, i);
  }

  /** There are no other texts after a quote. */
  lemma {:induction false} EveryString(r: string) returns (t: string, after: string)
    ensures Inside(t) && (r == t || r == t + "\\" || r == t + "\"" + after)
    decreases |r|
  {
    if r == "" || r == "\\" {
      t, after := "", "";
    } else if r[0] == '"' {
      t, after := "", r[1..];
    } else {
      var n := if r[0] == '\\' then 2 else 1;
      t, after := EveryString(r[n..]);
      assert r == r[..n] + r[n..];
      assert (r[..n] + t)[n..] == t;
      t := r[..n] + t;
    }
  }

  /** `t` with a backslash before each quote and each backslash. */
  function Escaped(t: string): string {
    if t == "" then "" else (if t[0] == '"' || t[0] == '\\' then ['\\', t[0]] else [t[0]]) + Escaped(t[1..])
  }

  lemma {:induction false} EscapedIsInside(t: string)
    ensures Inside(Escaped(t))
  {
    if t != "" {
      EscapedIsInside(t[1..]);
      var n := if t[0] == '"' || t[0] == '\\' then 2 else 1;
      assert Escaped(t)[n..] == Escaped(t[1..]);
    }
  }

  /** Every text can be written as one string. */
  lemma EscapedString(before: string, t: string, after: string)
    ensures IsToken(before, "\"" + Escaped(t) + "\"", after)
  {
    EscapedIsInside(t);
    ClosedString(before, Escaped(t), after);
  }

  // ----- Characters -----

  lemma CharLiterals(before: string, c: char, after: string)
    ensures c != '\\' ==> IsToken(before, ['\'', c, '\''], after)
    ensures IsToken(before, ['\'', '\\', c, '\''], after)
    ensures c != '\\' && c != '\'' && (after == "" || after[0] != '\'') ==> IsToken(before, ['\'', c], after)
  {
    if c != '\\' {
      CharRead(before, ['\'', c, '\''], after);
    }
    CharRead(before, ['\'', '\\', c, '\''], after);
    if c != '\\' && c != '\'' && (after == "" || after[0] != '\'') {
      CharRead(before, ['\'', c], after);
    }
  }

  lemma CharRead(before: string, t: string, after: string)
    requires |t| >= 2 && t[0] == '\''
    requires if t[1] == '\\' then |t| == 4 && t[3] == '\'' else |t| == 3 ==> t[2] == '\''
    requires |t| <= 4 && (|t| == 4 ==> t[1] == '\\') && (|t| == 2 ==> after == "" || after[0] != '\'')
    ensures IsToken(before, t, after)
  {
    var s, i := before + t + after, |before|;
    Within(before, t, after, 0);
    Within(before, t, after, 1);
    Within(before, t, after, 2);
    Within(before, t, after, 3);
    TokenHere(s, i);
  }

  // ----- Words -----

  /** Letters, digits and underscores after a letter or an underscore. */
  lemma Words(before: string, t: string, after: string)
    requires t != "" && !('0' <= t[0] <= '9')
    requires forall c | c in t :: 'a' <= c <= 'z' || 'A' <= c <= 'Z' || '0' <= c <= '9' || c == '_'
    requires after == "" || !('a' <= after[0] <= 'z' || 'A' <= after[0] <= 'Z' || '0' <= after[0] <= '9' || after[0] == '_')
    ensures IsToken(before, t, after)
  {
    var s, i := before + t + after, |before|;
    Within(before, t, after, 0);
    assert t[0] in t;
    TokenHere(s, i);
    forall k | i + 1 <= k < i + |t|
      ensures IsWord(s[k])
    {
      assert s[k] == t[k - i] && t[k - i] in t;
    }
    SpanTo(s, i + 1, i + |t|, IsWord);
    hide NextToken, Span;
  }

  // ----- Numbers -----

  predicate Digits(t: string) {
    t != "" && forall c | c in t :: '0' <= c <= '9'
  }

  predicate NoDigitNext(after: string) {
    after == "" || !('0' <= after[0] <= '9')
  }

  lemma DigitsAt(before: string, t: string, after: string, from: nat, d: string)
    requires from + |d| <= |t| && t[from..from + |d|] == d && Digits(d)
    requires if from + |d| < |t| then !('0' <= t[from + |d|] <= '9') else NoDigitNext(after)
    ensures var s, i := before + t + after, |before| + from;
            IsDigit(s[i]) && Span(s, i, IsDigit) == Span(s, i + 1, IsDigit) == i + |d|
  {
    var s, i := before + t + after, |before| + from;
    forall k | i <= k < i + |d|
      ensures IsDigit(s[k])
    {
      assert s[k] == t[from..from + |d|][k - i] && d[k - i] in d;
    }
    Within(before, t, after, from + |d|);
    SpanTo(s, i, i + |d|, IsDigit);
    SpanTo(s, i + 1, i + |d|, IsDigit);
  }

  lemma NumberHere(before: string, t: string, after: string)
    requires t != "" && IsDigit(t[0]) && NumberEnd(before + t + after, |before|) == |before + t|
    ensures IsToken(before, t, after)
  {
    hide NumberEnd, Span, IsToken;
    Within(before, t, after, 0);
    TokenIs(before, t, after);
  }

  /** Digits make an integer unless a fraction follows or they are the zero of a prefix. */
  lemma Integers(before: string, d: string, after: string)
    requires Digits(d) && NoDigitNext(after)
    requires !(|after| >= 2 && after[0] == '.' && '0' <= after[1] <= '9')
    requires d == "0" && after != "" ==> after[0] !in "xXbBoO"
    ensures IsToken(before, d, after)
  {
    hide Span, IsToken;
    assert d[0..|d|] == d;
    DigitsAt(before, d, after, 0, d);
    Within(before, d, after, 0);
    Within(before, d, after, 1);
    Within(before, d, after, |d|);
    Within(before, d, after, |d| + 1);
    assert d[0] in d && (|d| >= 2 ==> d[1] in d);
    assert |d| == 1 && d[0] == '0' ==> d == "0";
    NumberHere(before, d, after);
  }

  lemma Fractions(before: string, d: string, f: string, after: string)
    requires Digits(d) && Digits(f) && NoDigitNext(after)
    ensures IsToken(before, d + "." + f, after)
  {
    hide Span, IsToken, IsDigit;
    var t := d + "." + f;
    var i := |before|;
    FractionText(d, f);
    DigitsAt(before, t, after, 0, d);
    DigitsAt(before, t, after, |d| + 1, f);
    Within(before, t, after, 1);
    Within(before, t, after, |d|);
    assert d[0] in d && (|d| >= 2 ==> d[1] in d);
    FractionEnd(before + t + after, i, |d|, |f|);
    NumberHere(before, t, after);
  }

  lemma FractionText(d: string, f: string)
    ensures var t := d + "." + f; t[0..|d|] == d && t[|d|] == '.' && t[|d| + 1..|d| + 1 + |f|] == f
  {
  }

  lemma FractionEnd(s: string, i: nat, m: nat, n: nat)
    requires m > 0 && n > 0 && i + m + 1 + n <= |s|
    requires IsDigit(s[i]) && !IsRadixMark(s[i + 1]) && s[i + m] == '.' && IsDigit(s[i + m + 1])
    requires Span(s, i + 1, IsDigit) == i + m && Span(s, i + m + 1, IsDigit) == i + m + 1 + n
    ensures NumberEnd(s, i) == i + m + 1 + n
  {
    hide Span, IsDigit, IsRadixMark;
  }

  predicate DigitOf(x: char, c: char) {
    match x
    case 'x' | 'X' => '0' <= c <= '9' || 'a' <= c <= 'f' || 'A' <= c <= 'F'
    case 'b' | 'B' => c == '0' || c == '1'
    case _ => '0' <= c <= '7'
  }

  /** `0x`, `0b` and `0o` and the digits of that base, of which there may be none. */
  lemma Radixes(before: string, x: char, h: string, after: string)
    requires x in "xXbBoO" && (forall c | c in h :: DigitOf(x, c)) && (after == "" || !DigitOf(x, after[0]))
    ensures IsToken(before, ['0', x] + h, after)
  {
    var t := ['0', x] + h;
    var s, i := before + t + after, |before|;
    Within(before, t, after, 0);
    Within(before, t, after, 1);
    Within(before, t, after, |t|);
    TokenHere(s, i);
    forall k | i + 2 <= k < i + |t|
      ensures RadixDigit(x)(s[k])
    {
      assert s[k] == h[k - i - 2] && h[k - i - 2] in h;
    }
    SpanTo(s, i + 2, i + |t|, RadixDigit(x));
    hide NextToken, Span;
  }

  // ----- Operators -----

  const TWO := ["+=", "-=", "*=", "/=", "%=", "==", "!=", "^=", "&&", "&=", "||", "|=", "<=", "<<", ">=", ">>", ".."]
  const THREE := ["<<=", ">>=", "..."]

  /** A character that starts no token of another kind. */
  predicate IsPunctuation(c: char) {
    !('a' <= c <= 'z' || 'A' <= c <= 'Z' || '0' <= c <= '9' || c in "_\"' \t\n\U{000B}\U{000C}\r")
  }

  lemma TwoIs(a: char, b: char)
    ensures [a, b] in TWO <==> (b == '=' && a in "+-*/%=!^&|<>") || (a == b && a in "&|<>.")
  {
    assert TWO[0] == ['+', '='] && TWO[1] == ['-', '='] && TWO[2] == ['*', '='] && TWO[3] == ['/', '='];
    assert TWO[4] == ['%', '='] && TWO[5] == ['=', '='] && TWO[6] == ['!', '='] && TWO[7] == ['^', '='];
    assert TWO[8] == ['&', '&'] && TWO[9] == ['&', '='] && TWO[10] == ['|', '|'] && TWO[11] == ['|', '='];
    assert TWO[12] == ['<', '='] && TWO[13] == ['<', '<'] && TWO[14] == ['>', '='] && TWO[15] == ['>', '>'];
    assert TWO[16] == ['.', '.'];
  }

  lemma ThreeIs(a: char, b: char, c: char)
    ensures [a, b, c] in THREE <==> a == b && ((a in "<>" && c == '=') || (a == '.' && c == '.'))
  {
    assert THREE[0] == ['<', '<', '='] && THREE[1] == ['>', '>', '='] && THREE[2] == ['.', '.', '.'];
  }

  lemma WidthIs(a: char, b: char, c: char)
    ensures OperatorWidth(a, b, c) == if [a, b, c] in THREE then 3 else if [a, b] in TWO then 2 else 1
  {
    TwoIs(a, b);
    ThreeIs(a, b, c);
    hide TWO, THREE;
  }

  /** An operator, or one character of no other kind, is one token unless a longer operator
      starts here. */
  lemma Operators(before: string, t: string, after: string)
    requires t in THREE || t in TWO || (|t| == 1 && IsPunctuation(t[0]))
    requires !StartsComment((t + after)[0], CharAt(t + after, 1))
    requires forall o | o in TWO + THREE && |o| > |t| :: !(o <= t + after)
    ensures IsToken(before, t, after)
  {
    hide TWO, THREE, OperatorWidth, IsToken, TokenEnd, IsPunctuation, IsSpace;
    OperatorRead(t, after);
    Ahead(before, t, after, 0);
    Ahead(before, t, after, 1);
    Ahead(before, t, after, 2);
    PunctuationEnd(before + t + after, |before|);
    TokenIs(before, t, after);
  }

  lemma PunctuationEnd(s: string, i: nat)
    requires i < |s| && IsPunctuation(s[i])
    ensures TokenEnd(s, i) == i + OperatorWidth(s[i], CharAt(s, i + 1), CharAt(s, i + 2)) && !IsSpace(s[i])
  {
    hide OperatorWidth, Span;
  }

  lemma OperatorRead(t: string, after: string)
    requires t in THREE || t in TWO || (|t| == 1 && IsPunctuation(t[0]))
    requires forall o | o in TWO + THREE && |o| > |t| :: !(o <= t + after)
    ensures 1 <= |t| <= 3 && IsPunctuation(t[0])
    ensures OperatorWidth(t[0], CharAt(t + after, 1), CharAt(t + after, 2)) == |t|
  {
    var r := t + after;
    Lengths(t);
    hide TWO, THREE, OperatorWidth, IsPunctuation;
    var a, b, c := r[0], CharAt(r, 1), CharAt(r, 2);
    WidthIs(a, b, c);
    OpenerIsPunctuation(a, b, c);
    NoZero(a, b, c);
    if |t| == 3 {
      assert t == [a, b, c];
    } else if |t| == 2 {
      assert t == [a, b];
      assert [a, b, c] in THREE ==> [a, b, c] <= r;
    } else {
      assert [a, b, c] in THREE ==> [a, b, c] <= r;
      assert [a, b] in TWO ==> [a, b] <= r;
    }
  }

  lemma OpenerIsPunctuation(a: char, b: char, c: char)
    ensures [a, b, c] in THREE || [a, b] in TWO ==> IsPunctuation(a)
  {
    TwoIs(a, b);
    ThreeIs(a, b, c);
    hide TWO, THREE;
  }

  lemma NoZero(a: char, b: char, c: char)
    ensures [a, b, c] in THREE ==> b != NUL && c != NUL
    ensures [a, b] in TWO ==> b != NUL
  {
    TwoIs(a, b);
    ThreeIs(a, b, c);
    hide TWO, THREE;
  }

  lemma Lengths(t: string)
    ensures t in TWO ==> |t| == 2
    ensures t in THREE ==> |t| == 3
  {
  }

  // ----- What separates tokens -----

  lemma Blanks(before: string, c: char, after: string)
    requires c in " \t\n\U{000B}\U{000C}\r"
    ensures IsGap(before, [c], after)
  {
    Within(before, [c], after, 0);
    BlankAt(before + [c] + after, |before|);
    hide NextToken;
  }

  lemma BlankAt(s: string, i: nat)
    requires i < |s| && IsSpace(s[i])
    ensures NextToken(s, i) == NextToken(s, i + 1)
  {
    assert Span(s, i, IsSpace) == Span(s, i + 1, IsSpace);
    hide IsSpace, NextToken, AfterNewline;
    assert AfterBlanks(s, i) == AfterBlanks(s, i + 1);
    SameBlanks(s, i, i + 1);
  }

  lemma SameBlanks(s: string, i: nat, j: nat)
    requires i <= |s| && j <= |s| && AfterBlanks(s, i) == AfterBlanks(s, j)
    ensures NextToken(s, i) == NextToken(s, j)
  {
    hide *;
    NextTokenCases(s, i);
    NextTokenCases(s, j);
  }

  /** A line comment ends with its line. */
  lemma LineComments(before: string, t: string, after: string)
    requires '\n' !in t
    ensures IsGap(before, "//" + t + "\n", after)
  {
    var lit := "//" + t + "\n";
    var s, i, n := before + lit + after, |before|, |before + lit|;
    Within(before, lit, after, 0);
    Within(before, lit, after, 1);
    forall k | i <= k < n - 1
      ensures s[k] != '\n'
    {
      assert s[k] == lit[k - i] && (k - i >= 2 ==> lit[k - i] == t[k - i - 2]);
    }
    assert s[n - 1] == '\n';
    hide NextToken, AfterBlanks;
    LineCommentAt(s, i, n);
  }

  lemma LineCommentAt(s: string, i: nat, n: nat)
    requires i + 2 <= n <= |s| && s[i] == '/' && s[i + 1] == '/' && s[n - 1] == '\n' && forall k | i <= k < n - 1 :: s[k] != '\n'
    ensures NextToken(s, i) == NextToken(s, n)
  {
    assert AfterNewline(s, i) == Some(n) by {
      hide AfterNewline;
    }
    assert Span(s, i, IsSpace) == i;
    hide AfterNewline, NextToken;
    assert AfterBlanks(s, i) == AfterBlanks(s, n);
    SameBlanks(s, i, n);
  }

  /** A block comment ends at the first star and slash. */
  lemma BlockComments(before: string, t: string, after: string)
    requires forall j | 0 <= j < |t| - 1 :: !(t[j] == '*' && t[j + 1] == '/')
    ensures IsGap(before, "/*" + t + "*/", after)
  {
    var lit := "/*" + t + "*/";
    var s, i, n := before + lit + after, |before|, |before + lit|;
    Within(before, lit, after, 0);
    Within(before, lit, after, 1);
    assert ClosesAt(s, n - 2);
    forall k: nat | i + 2 <= k < n - 2
      ensures !ClosesAt(s, k)
    {
      assert s[k] == lit[k - i] == t[k - i - 2];
      assert s[k + 1] == lit[k + 1 - i];
    }
    AfterBlockIsFirst(s, i + 2);
    assert AfterBlock(s, i + 2) == Some(n) by {
      hide AfterBlock;
    }
    hide NextToken, TokenEnd, AfterBlock;
    assert Span(s, i, IsSpace) == i;
    NextTokenCases(s, i);
  }

  /** Comments that never end leave no token. */
  lemma EndlessComments(before: string, t: string)
    ensures '\n' !in t ==> NextToken(before + "//" + t, |before|) == None
    ensures (forall j | 0 <= j < |t| - 1 :: !(t[j] == '*' && t[j + 1] == '/')) ==> NextToken(before + "/*" + t, |before|) == None
  {
    if '\n' !in t {
      EndlessLine(before, t);
    }
    if forall j | 0 <= j < |t| - 1 :: !(t[j] == '*' && t[j + 1] == '/') {
      EndlessBlock(before, t);
    }
  }

  lemma EndlessLine(before: string, t: string)
    requires '\n' !in t
    ensures NextToken(before + "//" + t, |before|) == None
  {
    hide *;
    var s, i := before + "//" + t, |before|;
    assert s[i] == s[i + 1] == '/';
    forall k | i <= k < |s|
      ensures s[k] != '\n'
    {
      assert k - i >= 2 ==> s[k] == t[k - i - 2];
    }
    EndlessLineAt(s, i);
  }

  lemma EndlessLineAt(s: string, i: nat)
    requires i + 2 <= |s| && s[i] == '/' && s[i + 1] == '/' && forall k | i <= k < |s| :: s[k] != '\n'
    ensures NextToken(s, i) == None
  {
    assert AfterNewline(s, i).None? by {
      hide AfterNewline;
    }
    hide NextToken, TokenEnd, AfterNewline;
    assert Span(s, i, IsSpace) == i;
    NextTokenCases(s, i);
  }

  lemma EndlessBlock(before: string, t: string)
    requires forall j | 0 <= j < |t| - 1 :: !(t[j] == '*' && t[j + 1] == '/')
    ensures NextToken(before + "/*" + t, |before|) == None
  {
    hide NextToken, TokenEnd, AfterBlock;
    var s, i := before + "/*" + t, |before|;
    assert s[i] == '/' && s[i + 1] == '*';
    forall k: nat | i + 2 <= k
      ensures !ClosesAt(s, k)
    {
      if k + 1 < |s| {
        assert s[k] == t[k - i - 2] && s[k + 1] == t[k + 1 - i - 2];
      }
    }
    AfterBlockIsFirst(s, i + 2);
    NothingFound(s, i);
  }

  lemma NothingFound(s: string, i: nat)
    requires i + 2 <= |s| && s[i] == '/' && s[i + 1] == '*' && AfterBlock(s, i + 2).None?
    ensures NextToken(s, i) == None
  {
    hide NextToken, TokenEnd, AfterBlock;
    assert Span(s, i, IsSpace) == i;
    NextTokenCases(s, i);
  }
}

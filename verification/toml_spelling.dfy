/** Every document can be written down, and what is written down is read back: the reader is
    not only deterministic but reaches every list of statements. */
module TomlSpelling {
  import opened Options
  import opened TomlSyntax
  import opened TomlBuild
  import opened TomlParser

  // ----- Writing -----

  function Key(k: string): Token {
    Str(k, Some(k))
  }

  /** The scanner accepts every token. */
  predicate Good(s: seq<Token>) {
    Bad !in s
  }

  function SpellValue(v: Value): (s: seq<Token>)
    ensures s != [] && s[0] != NewLine && !s[0].RBracket? && Good(s)
    decreases v, 0
  {
    match v
    case Text(text) => [Str(text, None)]
    case List(xs) => [LBracket(false)] + SpellItems(xs)
    case Inline(es) => [LBrace] + SpellEntries(es)
  }

  function SpellItems(xs: seq<Value>): (s: seq<Token>)
    ensures s != [] && Good(s)
    decreases xs, 1
  {
    if xs == [] then [RBracket(false)]
    else SpellValue(xs[0]) + if |xs| == 1 then [RBracket(false)] else [Comma] + SpellItems(xs[1..])
  }

  function SpellEntry(e: Entry): (s: seq<Token>)
    ensures s != [] && s[0].Str? && Good(s)
    decreases e, 0
  {
    match e
    case Under(k, rest) => [Key(k), Dot] + SpellEntry(rest)
    case Set(k, v) => [Key(k), Equal] + SpellValue(v)
  }

  function SpellEntries(es: seq<Entry>): (s: seq<Token>)
    ensures s != [] && Good(s)
    decreases es, 1
  {
    if es == [] then [RBrace]
    else SpellEntry(es[0]) + if |es| == 1 then [RBrace] else [Comma] + SpellEntries(es[1..])
  }

  function SpellPath(path: seq<string>): (s: seq<Token>)
    requires path != []
    ensures s != [] && Good(s)
  {
    if |path| == 1 then [Key(path[0])] else [Key(path[0]), Dot] + SpellPath(path[1..])
  }

  function Opening(doubled: bool): (s: seq<Token>)
    ensures s != [] && Good(s) && s[0].LBracket?
  {
    if doubled then [LBracket(true), LBracket(false)] else [LBracket(false)]
  }

  function Closing(doubled: bool): (s: seq<Token>)
    ensures s != [] && Good(s) && s[0].RBracket?
  {
    if doubled then [RBracket(true), RBracket(false), NewLine] else [RBracket(false), NewLine]
  }

  function SpellStatement(s: Statement): (r: seq<Token>)
    requires s.Header? ==> s.path != []
    ensures r != [] && Good(r)
  {
    match s
    case KeyVal(e) => SpellEntry(e) + [NewLine]
    case Header(doubled, path) => Opening(doubled) + (SpellPath(path) + Closing(doubled))
  }

  /** Headers name a table and are no deeper than the reader allows. */
  predicate Writable(ss: seq<Statement>) {
    forall s | s in ss && s.Header? :: 1 <= |s.path| <= 10
  }

  function SpellDocument(ss: seq<Statement>): (s: seq<Token>)
    requires Writable(ss)
    ensures Good(s)
  {
    if ss == [] then [] else SpellStatement(ss[0]) + SpellDocument(ss[1..])
  }

  // ----- Reading back -----

  /** These tokens stand at `p`, in a text the scanner accepts throughout. */
  ghost predicate Stands(toks: seq<Token>, p: nat, s: seq<Token>) {
    Good(toks) && p + |s| <= |toks| && toks[p..p + |s|] == s
  }

  lemma StandsApart(toks: seq<Token>, p: nat, a: seq<Token>, b: seq<Token>)
    requires Stands(toks, p, a + b)
    ensures Stands(toks, p, a) && Stands(toks, p + |a|, b)
  {
    assert toks[p..p + |a|] == (a + b)[..|a|];
    assert toks[p + |a|..p + |a| + |b|] == (a + b)[|a|..];
  }

  lemma StandsFirst(toks: seq<Token>, p: nat, s: seq<Token>)
    requires Stands(toks, p, s) && s != []
    ensures p < |toks| && At(toks, p) == toks[p] == s[0]
    ensures Advance(toks, p) == Read((), p + 1)
  {
    assert toks[p..p + |s|][0] == toks[p];
  }

  lemma {:induction false} ValueReadsBack(toks: seq<Token>, p: nat, v: Value)
    requires Stands(toks, p, SpellValue(v))
    ensures ReadValue(toks, p) == Read(v, p + |SpellValue(v)|)
    decreases v, 0
  {
    hide Good, Stands, Advance;
    StandsFirst(toks, p, SpellValue(v));
    match v
    case Text(_) =>
    case List(xs) =>
      StandsApart(toks, p, [LBracket(false)], SpellItems(xs));
      ItemsReadBack(toks, p + 1, xs);
    case Inline(es) =>
      StandsApart(toks, p, [LBrace], SpellEntries(es));
      EntriesReadBack(toks, p + 1, es);
  }

  lemma AfterItemReads(toks: seq<Token>, q: nat)
    requires q < |toks| && Advance(toks, q) == Read((), q + 1) && (toks[q] == Comma || toks[q].RBracket?)
    ensures AfterItem(toks, q) == Read(toks[q] == Comma, q + 1)
  {
  }

  lemma {:induction false} ItemsReadBack(toks: seq<Token>, p: nat, xs: seq<Value>)
    requires Stands(toks, p, SpellItems(xs))
    ensures ReadItems(toks, p) == Read(xs, p + |SpellItems(xs)|)
    decreases xs, 1
  {
    hide Good, Stands, Advance, AfterItem, ReadValue, SpellValue, ReadItems;
    if xs == [] {
      StandsFirst(toks, p, [RBracket(false)]);
      NoItemsRead(toks, p);
    } else {
      var first := SpellValue(xs[0]);
      var q := p + |first|;
      if |xs| == 1 {
        StandsApart(toks, p, first, [RBracket(false)]);
        StandsFirst(toks, q, [RBracket(false)]);
        AfterItemReads(toks, q);
        StandsFirst(toks, p, first);
        ValueReadsBack(toks, p, xs[0]);
        LastItemRead(toks, p, xs[0], q, q + 1);
        assert xs == [xs[0]];
      } else {
        var rest := SpellItems(xs[1..]);
        StandsApart(toks, p, first, [Comma] + rest);
        StandsApart(toks, q, [Comma], rest);
        StandsFirst(toks, q, [Comma]);
        AfterItemReads(toks, q);
        StandsFirst(toks, p, first);
        ValueReadsBack(toks, p, xs[0]);
        ItemsReadBack(toks, q + 1, xs[1..]);
        ItemRead(toks, p, xs[0], q, q + 1, xs[1..], q + 1 + |rest|);
        assert xs == [xs[0]] + xs[1..];
      }
    }
  }

  lemma NoItemsRead(toks: seq<Token>, p: nat)
    requires p < |toks| && toks[p].RBracket? && Advance(toks, p) == Read((), p + 1)
    ensures ReadItems(toks, p) == Read([], p + 1)
  {
  }

  lemma LastItemRead(toks: seq<Token>, p: nat, x: Value, q: nat, r: nat)
    requires p < |toks| && toks[p] != NewLine && !toks[p].RBracket? && q <= |toks|
    requires ReadValue(toks, p) == Read(x, q) && AfterItem(toks, q) == Read(false, r)
    ensures ReadItems(toks, p) == Read([x], r)
  {
    hide ReadValue, AfterItem;
  }

  lemma ItemRead(toks: seq<Token>, p: nat, x: Value, q: nat, r: nat, more: seq<Value>, end: nat)
    requires p < |toks| && toks[p] != NewLine && !toks[p].RBracket? && q <= |toks| && r <= |toks|
    requires ReadValue(toks, p) == Read(x, q) && AfterItem(toks, q) == Read(true, r) && ReadItems(toks, r) == Read(more, end)
    ensures ReadItems(toks, p) == Read([x] + more, end)
  {
    hide ReadValue, AfterItem;
  }

  lemma {:induction false} EntryReadsBack(toks: seq<Token>, p: nat, e: Entry)
    requires Stands(toks, p, SpellEntry(e))
    ensures ReadEntry(toks, p) == Read(e, p + |SpellEntry(e)|)
    decreases e, 0
  {
    hide Good, Stands, Advance, ReadEntry, ReadValue, SpellValue;
    match e
    case Under(k, rest) =>
      StandsApart(toks, p, [Key(k), Dot], SpellEntry(rest));
      EntryReadsBack(toks, p + 2, rest);
      MarkStands(toks, p, k, Dot);
      UnderReads(toks, p, k, rest, p + 2 + |SpellEntry(rest)|);
    case Set(k, v) =>
      StandsApart(toks, p, [Key(k), Equal], SpellValue(v));
      ValueReadsBack(toks, p + 2, v);
      MarkStands(toks, p, k, Equal);
      SetReads(toks, p, k, v, p + 2 + |SpellValue(v)|);
  }

  lemma MarkStands(toks: seq<Token>, p: nat, k: string, mark: Token)
    requires Stands(toks, p, [Key(k), mark])
    ensures p + 1 < |toks| && toks[p] == Key(k) && toks[p + 1] == mark
    ensures Advance(toks, p) == Read((), p + 1) && Advance(toks, p + 1) == Read((), p + 2)
  {
    hide Good, Stands, Advance;
    StandsFirst(toks, p, [Key(k), mark]);
    assert [Key(k), mark] == [Key(k)] + [mark];
    StandsApart(toks, p, [Key(k)], [mark]);
    StandsFirst(toks, p + 1, [mark]);
  }

  lemma UnderReads(toks: seq<Token>, p: nat, k: string, rest: Entry, q: nat)
    requires p + 1 < |toks| && toks[p] == Key(k) && toks[p + 1] == Dot
    requires Advance(toks, p) == Read((), p + 1) && Advance(toks, p + 1) == Read((), p + 2)
    requires ReadEntry(toks, p + 2) == Read(rest, q)
    ensures ReadEntry(toks, p) == Read(Under(k, rest), q)
  {
  }

  lemma SetReads(toks: seq<Token>, p: nat, k: string, v: Value, q: nat)
    requires p + 1 < |toks| && toks[p] == Key(k) && toks[p + 1] == Equal
    requires Advance(toks, p) == Read((), p + 1) && Advance(toks, p + 1) == Read((), p + 2)
    requires ReadValue(toks, p + 2) == Read(v, q)
    ensures ReadEntry(toks, p) == Read(Set(k, v), q)
  {
    hide ReadValue;
  }

  lemma {:induction false} EntriesReadBack(toks: seq<Token>, p: nat, es: seq<Entry>)
    requires Stands(toks, p, SpellEntries(es))
    ensures ReadEntries(toks, p) == Read(es, p + |SpellEntries(es)|)
    decreases es, 1
  {
    hide Good, Stands, Advance, ReadEntry, SpellEntry, ReadEntries;
    if es == [] {
      StandsFirst(toks, p, [RBrace]);
      NoEntriesRead(toks, p);
    } else {
      var first := SpellEntry(es[0]);
      var q := p + |first|;
      if |es| == 1 {
        StandsApart(toks, p, first, [RBrace]);
        StandsFirst(toks, q, [RBrace]);
        StandsFirst(toks, p, first);
        EntryReadsBack(toks, p, es[0]);
        LastEntryRead(toks, p, es[0], q);
        assert es == [es[0]];
      } else {
        var rest := SpellEntries(es[1..]);
        StandsApart(toks, p, first, [Comma] + rest);
        StandsApart(toks, q, [Comma], rest);
        StandsFirst(toks, q, [Comma]);
        StandsFirst(toks, p, first);
        EntryReadsBack(toks, p, es[0]);
        EntriesReadBack(toks, q + 1, es[1..]);
        NextEntryRead(toks, p, es[0], q, es[1..], q + 1 + |rest|);
        assert es == [es[0]] + es[1..];
      }
    }
  }

  lemma NoEntriesRead(toks: seq<Token>, p: nat)
    requires p < |toks| && toks[p] == RBrace && Advance(toks, p) == Read((), p + 1)
    ensures ReadEntries(toks, p) == Read([], p + 1)
  {
  }

  lemma LastEntryRead(toks: seq<Token>, p: nat, e: Entry, q: nat)
    requires p < |toks| && toks[p].Str? && ReadEntry(toks, p) == Read(e, q)
    requires q < |toks| && toks[q] == RBrace && Advance(toks, q) == Read((), q + 1)
    ensures ReadEntries(toks, p) == Read([e], q + 1)
  {
    hide ReadEntry;
  }

  lemma NextEntryRead(toks: seq<Token>, p: nat, e: Entry, q: nat, more: seq<Entry>, end: nat)
    requires p < |toks| && toks[p].Str? && ReadEntry(toks, p) == Read(e, q)
    requires q < |toks| && toks[q] == Comma && Advance(toks, q) == Read((), q + 1)
    requires ReadEntries(toks, q + 1) == Read(more, end)
    ensures ReadEntries(toks, p) == Read([e] + more, end)
  {
    hide ReadEntry;
  }

  lemma LastKeyReads(toks: seq<Token>, p: nat, path: seq<string>, n: nat)
    requires |path| == 1 && n < MAX_PATH && p + 1 < |toks|
    requires toks[p] == Key(path[0]) && Advance(toks, p) == Read((), p + 1) && toks[p + 1].RBracket?
    ensures ReadPath(toks, p, n) == Read(path, p + 1)
  {
    assert path == [path[0]];
  }

  lemma KeyReads(toks: seq<Token>, p: nat, path: seq<string>, n: nat, q: nat)
    requires |path| > 1 && n < MAX_PATH && p + 1 < |toks|
    requires toks[p] == Key(path[0]) && Advance(toks, p) == Read((), p + 1)
    requires toks[p + 1] == Dot && Advance(toks, p + 1) == Read((), p + 2)
    requires ReadPath(toks, p + 2, n + 1) == Read(path[1..], q)
    ensures ReadPath(toks, p, n) == Read(path, q)
  {
    assert path == [path[0]] + path[1..];
  }

  lemma {:induction false} PathReadsBack(toks: seq<Token>, p: nat, path: seq<string>, n: nat, after: seq<Token>)
    requires path != [] && n + |path| <= MAX_PATH && after != [] && after[0].RBracket?
    requires Stands(toks, p, SpellPath(path) + after)
    ensures ReadPath(toks, p, n) == Read(path, p + |SpellPath(path)|)
    decreases path
  {
    hide Good, Stands, Advance, ReadPath;
    StandsFirst(toks, p, SpellPath(path) + after);
    StandsApart(toks, p, SpellPath(path), after);
    if |path| == 1 {
      StandsFirst(toks, p + 1, after);
      LastKeyReads(toks, p, path, n);
    } else {
      var k, rest := path[0], SpellPath(path[1..]);
      assert SpellPath(path) + after == [Key(k), Dot] + (rest + after) == [Key(k)] + ([Dot] + (rest + after));
      StandsApart(toks, p, [Key(k)], [Dot] + (rest + after));
      StandsFirst(toks, p + 1, [Dot] + (rest + after));
      StandsApart(toks, p, [Key(k), Dot], rest + after);
      PathReadsBack(toks, p + 2, path[1..], n + 1, after);
      KeyReads(toks, p, path, n, p + 2 + |rest|);
    }
  }

  lemma OpeningReads(toks: seq<Token>, p: nat, doubled: bool)
    requires Stands(toks, p, Opening(doubled))
    ensures OpenHeader(toks, p) == Read(doubled, p + |Opening(doubled)|)
  {
    hide Good, Stands, Advance;
    StandsFirst(toks, p, Opening(doubled));
    if doubled {
      assert Opening(true) == [LBracket(true)] + [LBracket(false)];
      StandsApart(toks, p, [LBracket(true)], [LBracket(false)]);
      StandsFirst(toks, p + 1, [LBracket(false)]);
    }
  }

  lemma ClosingReads(toks: seq<Token>, p: nat, doubled: bool)
    requires Stands(toks, p, Closing(doubled))
    ensures var q := p + |Closing(doubled)| - 1;
            CloseHeader(toks, p, doubled) == Read((), q) && q < |toks| && toks[q] == NewLine
  {
    hide Good, Stands, Advance;
    var rest := if doubled then [RBracket(false), NewLine] else [NewLine];
    StandsFirst(toks, p, Closing(doubled));
    assert Closing(doubled) == [RBracket(doubled)] + rest;
    StandsApart(toks, p, [RBracket(doubled)], rest);
    StandsFirst(toks, p + 1, rest);
    if doubled {
      assert rest == [RBracket(false)] + [NewLine];
      StandsApart(toks, p + 1, [RBracket(false)], [NewLine]);
      StandsFirst(toks, p + 2, [NewLine]);
    }
  }

  lemma {:induction false} HeaderReadsBack(toks: seq<Token>, p: nat, path: seq<string>, doubled: bool)
    requires 1 <= |path| <= MAX_PATH && Stands(toks, p, SpellStatement(Header(doubled, path)))
    ensures var q := p + |SpellStatement(Header(doubled, path))| - 1;
            ReadHeader(toks, p) == Read(Header(doubled, path), q) && q < |toks| && toks[q] == NewLine
  {
    hide *;
    HeaderSpelled(path, doubled);
    var q := p + |Opening(doubled)|;
    StandsApart(toks, p, Opening(doubled), SpellPath(path) + Closing(doubled));
    StandsApart(toks, q, SpellPath(path), Closing(doubled));
    OpeningReads(toks, p, doubled);
    PathReadsBack(toks, q, path, 0, Closing(doubled));
    ClosingReads(toks, q + |SpellPath(path)|, doubled);
    StandsWithin(toks, p, SpellStatement(Header(doubled, path)));
    HeaderReads(toks, p, path, doubled, q, q + |SpellPath(path)|, q + |SpellPath(path)| + |Closing(doubled)| - 1);
  }

  lemma HeaderSpelled(path: seq<string>, doubled: bool)
    requires path != []
    ensures SpellStatement(Header(doubled, path)) == Opening(doubled) + (SpellPath(path) + Closing(doubled))
  {
  }

  lemma HeaderReads(toks: seq<Token>, p: nat, path: seq<string>, doubled: bool, q: nat, r: nat, end: nat)
    requires p <= |toks| && q <= |toks| && r <= |toks|
    requires OpenHeader(toks, p) == Read(doubled, q) && ReadPath(toks, q, 0) == Read(path, r) && CloseHeader(toks, r, doubled) == Read((), end)
    ensures ReadHeader(toks, p) == Read(Header(doubled, path), end)
  {
    hide OpenHeader, ReadPath, CloseHeader;
  }

  lemma {:induction false} LineReadsBack(toks: seq<Token>, p: nat, e: Entry)
    requires Stands(toks, p, SpellStatement(KeyVal(e)))
    ensures ReadLine(toks, p) == Read(KeyVal(e), p + |SpellStatement(KeyVal(e))|)
  {
    hide Good, Stands, Advance, SpellEntry, ReadEntry;
    StandsApart(toks, p, SpellEntry(e), [NewLine]);
    StandsFirst(toks, p + |SpellEntry(e)|, [NewLine]);
    EntryReadsBack(toks, p, e);
  }

  /** The reading of the rest, after this statement. */
  function Following(s: Statement, r: Reading<seq<Statement>>): Reading<seq<Statement>> {
    match r
    case Failed => Failed
    case Read(more, end) => Read([s] + more, end)
  }

  lemma LineTurn(toks: seq<Token>, p: nat, s: Statement, q: nat)
    requires p < q <= |toks| && toks[p].Str? && ReadLine(toks, p) == Read(s, q)
    ensures ReadDocument(toks, p) == Following(s, ReadDocument(toks, q))
  {
    hide ReadLine;
  }

  lemma HeaderLineTurn(toks: seq<Token>, p: nat, s: Statement, q: nat)
    requires p < q < |toks| && toks[p].LBracket? && ReadHeader(toks, p) == Read(s, q)
    ensures ReadDocument(toks, p) == Following(s, ReadDocument(toks, q))
  {
    hide ReadHeader;
  }

  lemma SpellingStarts(s: Statement)
    requires s.Header? ==> s.path != []
    ensures if s.KeyVal? then SpellStatement(s)[0].Str? else |SpellStatement(s)| > 1 && SpellStatement(s)[0].LBracket?
  {
  }

  lemma {:induction false} StatementReadsBack(toks: seq<Token>, p: nat, s: Statement)
    requires (s.Header? ==> 1 <= |s.path| <= MAX_PATH) && Stands(toks, p, SpellStatement(s))
    ensures p + |SpellStatement(s)| <= |toks|
    ensures ReadDocument(toks, p) == Following(s, ReadDocument(toks, p + |SpellStatement(s)|))
  {
    hide *;
    var q := p + |SpellStatement(s)|;
    SpellingStarts(s);
    StandsFirst(toks, p, SpellStatement(s));
    StandsWithin(toks, p, SpellStatement(s));
    match s {
      case KeyVal(e) =>
        LineReadsBack(toks, p, e);
        LineTurn(toks, p, s, q);
      case Header(doubled, path) =>
        HeaderReadsBack(toks, p, path, doubled);
        HeaderLineTurn(toks, p, s, q - 1);
        NewLineSkipped(toks, q - 1);
    }
  }

  lemma StandsWithin(toks: seq<Token>, p: nat, s: seq<Token>)
    requires Stands(toks, p, s)
    ensures Good(toks) && p + |s| <= |toks|
  {
  }

  lemma WritableApart(ss: seq<Statement>)
    requires Writable(ss) && ss != []
    ensures Writable(ss[1..]) && (ss[0].Header? ==> 1 <= |ss[0].path| <= MAX_PATH)
    ensures SpellDocument(ss) == SpellStatement(ss[0]) + SpellDocument(ss[1..])
  {
    assert ss[0] in ss;
  }

  lemma {:induction false} DocumentReadsBack(toks: seq<Token>, p: nat, ss: seq<Statement>)
    requires Writable(ss) && Stands(toks, p, SpellDocument(ss)) && p + |SpellDocument(ss)| == |toks|
    ensures ReadDocument(toks, p) == Read(ss, |toks|)
    decreases ss
  {
    if ss == [] {
      hide *;
      NothingLeft(toks);
      EmptySpelled();
    } else {
      hide *;
      var s, rest := ss[0], ss[1..];
      WritableApart(ss);
      StandsApart(toks, p, SpellStatement(s), SpellDocument(rest));
      StatementReadsBack(toks, p, s);
      DocumentReadsBack(toks, p + |SpellStatement(s)|, rest);
      assert ss == [s] + rest;
      FollowedBy(s, rest, |toks|);
    }
  }

  lemma FollowedBy(s: Statement, rest: seq<Statement>, end: nat)
    ensures Following(s, Read(rest, end)) == Read([s] + rest, end)
  {
  }

  lemma NothingLeft(toks: seq<Token>)
    ensures ReadDocument(toks, |toks|) == Read([], |toks|)
  {
  }

  lemma EmptySpelled()
    ensures Writable([]) && SpellDocument([]) == []
  {
  }

  lemma NewLineSkipped(toks: seq<Token>, p: nat)
    requires p < |toks| && Good(toks) && toks[p] == NewLine
    ensures ReadDocument(toks, p) == ReadDocument(toks, p + 1)
  {
  }

  // ----- Other layouts -----

  /** In an array newlines may stand before and after every element. */
  lemma NewLinesInArrays(toks: seq<Token>, p: nat)
    requires p + 1 < |toks| && Good(toks) && toks[p] == NewLine
    ensures ReadItems(toks, p) == ReadItems(toks, p + 1) && AfterItem(toks, p) == AfterItem(toks, p + 1)
  {
    hide ReadValue;
    assert SkipNewlines(toks, p) == SkipNewlines(toks, p + 1);
    hide SkipNewlines;
  }

  /** A comma may stand before the closing bracket, or brace, or not. */
  lemma TrailingCommas(toks: seq<Token>, p: nat, q: nat)
    requires p < q <= |toks| - 2 && Good(toks) && toks[q] == Comma
    ensures ReadValue(toks, p).Read? && ReadValue(toks, p).next == q && toks[q + 1].RBracket? && !toks[p].NewLine? && !toks[p].RBracket? ==>
              ReadItems(toks, p) == Read([ReadValue(toks, p).value], q + 2)
    ensures ReadEntry(toks, p).Read? && ReadEntry(toks, p).next == q && toks[q + 1].RBrace? && toks[p].Str? ==>
              ReadEntries(toks, p) == Read([ReadEntry(toks, p).value], q + 2)
  {
    hide ReadValue, ReadEntry;
    GoodAt(toks, q + 1);
    GoodAt(toks, q + 2);
    if toks[q + 1].RBracket? {
      assert ReadItems(toks, q + 1) == Read([], q + 2);
      assert AfterItem(toks, q) == Read(true, q + 1);
    }
    if toks[q + 1].RBrace? {
      assert ReadEntries(toks, q + 1) == Read([], q + 2);
      assert AfterEntry(toks, q) == Read(true, q + 1);
    }
    if ReadValue(toks, p).Read? {
      assert [ReadValue(toks, p).value] + [] == [ReadValue(toks, p).value];
    }
    if ReadEntry(toks, p).Read? {
      assert [ReadEntry(toks, p).value] + [] == [ReadEntry(toks, p).value];
    }
  }

  lemma GoodAt(toks: seq<Token>, p: nat)
    requires Good(toks)
    ensures At(toks, p) != Bad
  {
    assert p < |toks| ==> toks[p] in toks;
  }

  /** An inline table stands on one line. */
  lemma InlineOnOneLine(toks: seq<Token>, p: nat)
    requires p < |toks| && toks[p] == NewLine
    ensures ReadEntries(toks, p).Failed? && AfterEntry(toks, p).Failed?
  {
  }

  /** `[a.b]` and `[[a]]`, token by token. */
  lemma HeadersSpelled(a: string, b: string)
    ensures SpellStatement(Header(false, [a, b])) == [LBracket(false), Key(a), Dot, Key(b), RBracket(false), NewLine]
    ensures SpellStatement(Header(true, [a])) == [LBracket(true), LBracket(false), Key(a), RBracket(true), RBracket(false), NewLine]
  {
    hide SpellPath;
    PathSpelled(a, b);
  }

  /** `a.b = "1"` and `a = ["1", {b = "1"}]`, token by token. */
  lemma EntriesSpelled(a: string, b: string, one: string)
    ensures SpellStatement(KeyVal(Under(a, Set(b, Text(one))))) == [Key(a), Dot, Key(b), Equal, Str(one, None), NewLine]
    ensures SpellStatement(KeyVal(Set(a, List([Text(one), Inline([Set(b, Text(one))])]))))
         == [Key(a), Equal, LBracket(false), Str(one, None), Comma, LBrace, Key(b), Equal, Str(one, None), RBrace, RBracket(false), NewLine]
  {
    hide SpellEntry, SpellValue;
    EntrySpelled(a, b, one);
    ArraySpelled(b, one);
    SetSpelled(a, List([Text(one), Inline([Set(b, Text(one))])]));
  }

  lemma PathSpelled(a: string, b: string)
    ensures SpellPath([a]) == [Key(a)] && SpellPath([a, b]) == [Key(a), Dot, Key(b)]
  {
    assert [a, b][1..] == [b] && SpellPath([b]) == [Key(b)];
  }

  lemma SetSpelled(k: string, v: Value)
    ensures SpellEntry(Set(k, v)) == [Key(k), Equal] + SpellValue(v)
  {
    hide SpellValue;
  }

  lemma EntrySpelled(a: string, b: string, one: string)
    ensures SpellEntry(Set(b, Text(one))) == [Key(b), Equal, Str(one, None)]
    ensures SpellEntry(Under(a, Set(b, Text(one)))) == [Key(a), Dot, Key(b), Equal, Str(one, None)]
  {
    assert SpellValue(Text(one)) == [Str(one, None)];
    SetSpelled(b, Text(one));
    hide SpellValue;
  }

  lemma ArraySpelled(b: string, one: string)
    ensures SpellValue(List([Text(one), Inline([Set(b, Text(one))])]))
         == [LBracket(false), Str(one, None), Comma, LBrace, Key(b), Equal, Str(one, None), RBrace, RBracket(false)]
  {
    var e := Set(b, Text(one));
    var v := Inline([e]);
    assert SpellValue(Text(one)) == [Str(one, None)];
    EntrySpelled(b, b, one);
    assert SpellEntries([e]) == SpellEntry(e) + [RBrace];
    assert SpellValue(v) == [LBrace, Key(b), Equal, Str(one, None), RBrace];
    assert SpellItems([v]) == SpellValue(v) + [RBracket(false)];
    assert [Text(one), v][1..] == [v];
  }

  /** Parsing a written document, which starts with the parser's own newline, succeeds
      exactly when its statements can be built, and builds what they build. */
  lemma {:induction false} WrittenDocumentParses(ss: seq<Statement>)
    requires Writable(ss)
    ensures DocumentOutcome(EMPTY_DOCUMENT, [NewLine] + SpellDocument(ss), 0) == BuildDocument(EMPTY_DOCUMENT, ss)
  {
    var toks := [NewLine] + SpellDocument(ss);
    assert toks[1..1 + |SpellDocument(ss)|] == SpellDocument(ss);
    hide SpellDocument, ReadDocument, BuildDocument, Writable;
    DocumentReadsBack(toks, 1, ss);
    NewLineSkipped(toks, 0);
  }
}

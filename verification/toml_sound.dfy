/** Whatever the reader accepts is, but for newlines, trailing commas, the spelling of keys and
    the gaps between brackets, the spelling of what it returns. */
module TomlSound {
  import opened Options
  import opened TomlSyntax
  import opened TomlSpelling

  /** The same token, as far as it matters where it stands: a string has one text as a value
      and one key as a key, and brackets may stand apart. */
  predicate Alike(x: Token, y: Token) {
    match x
    case LBracket(_) => y.LBracket?
    case RBracket(_) => y.RBracket?
    case Str(text, key) => y.Str? && (y.text == text || (key.Some? && y.key == key))
    case _ => x == y
  }

  /** Only newlines stand between `p` and a closing bracket or brace. */
  predicate ClosesNext(toks: seq<Token>, p: nat)
    decreases |toks| - p
  {
    p < |toks| && (toks[p].RBracket? || toks[p].RBrace? || (toks[p] == NewLine && ClosesNext(toks, p + 1)))
  }

  /** The tokens from `p` to `q` are those of `s`, one by one, but for newlines on either side
      and for commas before a closing bracket or brace. */
  predicate Matches(toks: seq<Token>, p: nat, q: nat, s: seq<Token>)
    requires q <= |toks|
    decreases |toks| - p, |s|
  {
    || (p == q && s == [])
    || (s != [] && s[0] == NewLine && p <= q && Matches(toks, p, q, s[1..]))
    || (p < q && toks[p] == NewLine && Matches(toks, p + 1, q, s))
    || (p < q && toks[p] == Comma && ClosesNext(toks, p + 1) && Matches(toks, p + 1, q, s))
    || (p < q && s != [] && Alike(toks[p], s[0]) && Matches(toks, p + 1, q, s[1..]))
  }

  lemma {:induction false} MatchesOn(toks: seq<Token>, p: nat, q: nat, r: nat, s: seq<Token>, t: seq<Token>)
    requires q <= |toks| && r <= |toks| && Matches(toks, p, q, s) && Matches(toks, q, r, t)
    ensures Matches(toks, p, r, s + t)
    decreases |toks| - p, |s|
  {
    MatchesForward(toks, p, q, s);
    MatchesForward(toks, q, r, t);
    if p == q && s == [] {
      assert s + t == t;
    } else if s != [] && s[0] == NewLine && Matches(toks, p, q, s[1..]) {
      MatchesOn(toks, p, q, r, s[1..], t);
      assert (s + t)[1..] == s[1..] + t;
    } else if p < q && toks[p] == NewLine && Matches(toks, p + 1, q, s) {
      MatchesOn(toks, p + 1, q, r, s, t);
    } else if p < q && toks[p] == Comma && ClosesNext(toks, p + 1) && Matches(toks, p + 1, q, s) {
      MatchesOn(toks, p + 1, q, r, s, t);
    } else {
      MatchesOn(toks, p + 1, q, r, s[1..], t);
      assert (s + t)[1..] == s[1..] + t;
    }
  }

  lemma {:induction false} MatchesForward(toks: seq<Token>, p: nat, q: nat, s: seq<Token>)
    requires q <= |toks| && Matches(toks, p, q, s)
    ensures p <= q
  {
  }

  /** One token. */
  lemma MatchesOne(toks: seq<Token>, p: nat, y: Token)
    requires p < |toks| && Alike(toks[p], y)
    ensures Matches(toks, p, p + 1, [y])
  {
    assert [y][1..] == [];
    assert Matches(toks, p + 1, p + 1, []);
  }

  lemma {:induction false} NewlinesMatch(toks: seq<Token>, p: nat)
    requires p <= |toks| && SkipNewlines(toks, p).Read?
    ensures Matches(toks, p, SkipNewlines(toks, p).next, [])
    ensures ClosesNext(toks, SkipNewlines(toks, p).next) ==> ClosesNext(toks, p)
    decreases |toks| - p
  {
    var q := SkipNewlines(toks, p).next;
    if p < |toks| && toks[p] == NewLine {
      if p + 1 < |toks| {
        NewlinesMatch(toks, p + 1);
      } else {
        assert Matches(toks, p + 1, q, []);
      }
    }
  }

  lemma {:induction false} ValueMatches(toks: seq<Token>, p: nat)
    requires p <= |toks| && ReadValue(toks, p).Read?
    ensures Matches(toks, p, ReadValue(toks, p).next, SpellValue(ReadValue(toks, p).value))
    decreases |toks| - p, 1
  {
    hide Matches;
    match toks[p]
    case Str(text, _) => MatchesOne(toks, p, Str(text, None));
    case LBracket(_) => ArrayMatches(toks, p);
    case LBrace => InlineMatches(toks, p);
    case _ =>
  }

  lemma {:induction false} ArrayMatches(toks: seq<Token>, p: nat)
    requires p <= |toks| && ReadArray(toks, p).Read?
    ensures Matches(toks, p, ReadArray(toks, p).next, SpellValue(List(ReadArray(toks, p).value)))
    decreases |toks| - p, 0
  {
    hide Matches, ReadItems, SpellItems;
    var items := ReadItems(toks, p + 1);
    MatchesOne(toks, p, LBracket(false));
    ItemsMatch(toks, p + 1);
    MatchesOn(toks, p, p + 1, items.next, [LBracket(false)], SpellItems(items.value));
  }

  lemma {:induction false} InlineMatches(toks: seq<Token>, p: nat)
    requires p <= |toks| && ReadInline(toks, p).Read?
    ensures Matches(toks, p, ReadInline(toks, p).next, SpellValue(Inline(ReadInline(toks, p).value)))
    decreases |toks| - p, 0
  {
    hide Matches, ReadEntries, SpellEntries;
    var entries := ReadEntries(toks, p + 1);
    MatchesOne(toks, p, LBrace);
    EntriesMatch(toks, p + 1);
    MatchesOn(toks, p, p + 1, entries.next, [LBrace], SpellEntries(entries.value));
  }

  /** After an element: newlines, and the closing bracket. */
  lemma LastItem(toks: seq<Token>, p: nat)
    requires p <= |toks| && AfterItem(toks, p).Read? && !AfterItem(toks, p).value
    ensures Matches(toks, p, AfterItem(toks, p).next, [RBracket(false)])
  {
    hide Matches, SkipNewlines;
    var p1 := SkipNewlines(toks, p).next;
    NewlinesMatch(toks, p);
    MatchesOne(toks, p1, RBracket(false));
    MatchesOn(toks, p, p1, p1 + 1, [], [RBracket(false)]);
    assert [] + [RBracket(false)] == [RBracket(false)];
  }

  /** After an element: newlines, a comma and the other elements, if there are any. */
  lemma NextItem(toks: seq<Token>, p: nat, more: seq<Value>, q: nat)
    requires p <= |toks| && AfterItem(toks, p).Read? && AfterItem(toks, p).value
    requires ReadItems(toks, AfterItem(toks, p).next) == Read(more, q) && q <= |toks|
    requires Matches(toks, AfterItem(toks, p).next, q, SpellItems(more))
    ensures Matches(toks, p, q, if more == [] then [RBracket(false)] else [Comma] + SpellItems(more))
  {
    var p1 := SkipNewlines(toks, p).next;
    assert p1 < |toks| && toks[p1] == Comma && AfterItem(toks, p).next == p1 + 1;
    assert SpellItems([]) == [RBracket(false)];
    hide *;
    NewlinesMatch(toks, p);
    if more == [] {
      NoItemsClose(toks, p1 + 1);
      CommaDropped(toks, p1, q, [RBracket(false)]);
      MatchesAfterNewlines(toks, p, p1, q, [RBracket(false)]);
    } else {
      CommaMatches(toks, p1);
      MatchesOn(toks, p1, p1 + 1, q, [Comma], SpellItems(more));
      MatchesAfterNewlines(toks, p, p1, q, [Comma] + SpellItems(more));
    }
  }

  lemma CommaMatches(toks: seq<Token>, p: nat)
    requires p < |toks| && toks[p] == Comma
    ensures Matches(toks, p, p + 1, [Comma])
  {
    hide Matches;
    MatchesOne(toks, p, Comma);
  }

  lemma MatchesAfterNewlines(toks: seq<Token>, p: nat, p1: nat, q: nat, s: seq<Token>)
    requires p1 <= |toks| && q <= |toks| && Matches(toks, p, p1, []) && Matches(toks, p1, q, s)
    ensures Matches(toks, p, q, s)
  {
    hide Matches;
    MatchesOn(toks, p, p1, q, [], s);
    assert [] + s == s;
  }

  lemma NoItemsClose(toks: seq<Token>, p: nat)
    requires p <= |toks| && ReadItems(toks, p).Read? && ReadItems(toks, p).value == []
    ensures ClosesNext(toks, p)
  {
    hide SkipNewlines, ReadValue, AfterItem;
    NewlinesMatch(toks, p);
  }

  lemma CommaDropped(toks: seq<Token>, p: nat, q: nat, s: seq<Token>)
    requires p < |toks| && q <= |toks| && toks[p] == Comma && ClosesNext(toks, p + 1) && Matches(toks, p + 1, q, s)
    ensures Matches(toks, p, q, s)
  {
    MatchesForward(toks, p + 1, q, s);
  }

  lemma {:induction false} ItemsMatch(toks: seq<Token>, p: nat)
    requires p <= |toks| && ReadItems(toks, p).Read?
    ensures Matches(toks, p, ReadItems(toks, p).next, SpellItems(ReadItems(toks, p).value))
    decreases |toks| - p, 2
  {
    hide Matches, SkipNewlines, ReadValue, SpellValue, AfterItem;
    var p1 := SkipNewlines(toks, p).next;
    NewlinesMatch(toks, p);
    if At(toks, p1).RBracket? {
      MatchesOne(toks, p1, RBracket(false));
      MatchesOn(toks, p, p1, p1 + 1, [], [RBracket(false)]);
      assert [] + [RBracket(false)] == [RBracket(false)];
    } else {
      var x := ReadValue(toks, p1);
      var after := AfterItem(toks, x.next);
      ValueMatches(toks, p1);
      MatchesOn(toks, p, p1, x.next, [], SpellValue(x.value));
      assert [] + SpellValue(x.value) == SpellValue(x.value);
      if after.value {
        var more := ReadItems(toks, after.next);
        ItemsMatch(toks, after.next);
        NextItem(toks, x.next, more.value, more.next);
        ItemsSpelled(x.value, more.value);
        MatchesOn(toks, p, x.next, more.next, SpellValue(x.value),
                  if more.value == [] then [RBracket(false)] else [Comma] + SpellItems(more.value));
      } else {
        LastItem(toks, x.next);
        ItemsSpelled(x.value, []);
        assert [x.value] + [] == [x.value];
        MatchesOn(toks, p, x.next, after.next, SpellValue(x.value), [RBracket(false)]);
      }
    }
  }

  lemma ItemsSpelled(x: Value, more: seq<Value>)
    ensures SpellItems([x] + more) == SpellValue(x) + if more == [] then [RBracket(false)] else [Comma] + SpellItems(more)
  {
    hide SpellValue;
    assert ([x] + more)[1..] == more;
  }

  /** After an entry: a comma and the other entries, if there are any. */
  lemma NextEntry(toks: seq<Token>, p: nat, more: seq<Entry>, q: nat)
    requires p < |toks| && toks[p] == Comma && ReadEntries(toks, p + 1) == Read(more, q) && q <= |toks|
    requires Matches(toks, p + 1, q, SpellEntries(more))
    ensures Matches(toks, p, q, if more == [] then [RBrace] else [Comma] + SpellEntries(more))
  {
    assert SpellEntries([]) == [RBrace];
    hide Matches, SpellEntries;
    if more == [] {
      NoEntriesClose(toks, p + 1);
      CommaDropped(toks, p, q, [RBrace]);
    } else {
      CommaMatches(toks, p);
      MatchesOn(toks, p, p + 1, q, [Comma], SpellEntries(more));
    }
  }

  lemma NoEntriesClose(toks: seq<Token>, p: nat)
    requires p <= |toks| && ReadEntries(toks, p).Read? && ReadEntries(toks, p).value == []
    ensures ClosesNext(toks, p)
  {
    hide ReadEntry;
  }

  lemma BraceMatches(toks: seq<Token>, p: nat)
    requires p < |toks| && toks[p] == RBrace
    ensures Matches(toks, p, p + 1, [RBrace])
  {
    hide Matches;
    MatchesOne(toks, p, RBrace);
  }

  lemma {:induction false} EntriesMatch(toks: seq<Token>, p: nat)
    requires p <= |toks| && ReadEntries(toks, p).Read?
    ensures Matches(toks, p, ReadEntries(toks, p).next, SpellEntries(ReadEntries(toks, p).value))
    decreases |toks| - p, 2
  {
    hide Matches, ReadEntry, SpellEntry;
    if At(toks, p) == RBrace {
      BraceMatches(toks, p);
    } else {
      var e := ReadEntry(toks, p);
      var p1 := e.next;
      EntryMatches(toks, p);
      if At(toks, p1) == Comma {
        var more := ReadEntries(toks, p1 + 1);
        assert ReadEntries(toks, p) == Read([e.value] + more.value, more.next);
        hide *;
        EntriesMatch(toks, p1 + 1);
        EntriesSpelled(e.value, more.value);
        NextEntry(toks, p1, more.value, more.next);
        MatchesOn(toks, p, p1, more.next, SpellEntry(e.value), if more.value == [] then [RBrace] else [Comma] + SpellEntries(more.value));
      } else {
        assert ReadEntries(toks, p) == Read([e.value], p1 + 1) && toks[p1] == RBrace;
        hide *;
        BraceMatches(toks, p1);
        EntriesSpelled(e.value, []);
        assert [e.value] + [] == [e.value];
        MatchesOn(toks, p, p1, p1 + 1, SpellEntry(e.value), [RBrace]);
      }
    }
  }

  lemma EntriesSpelled(e: Entry, more: seq<Entry>)
    ensures SpellEntries([e] + more) == SpellEntry(e) + if more == [] then [RBrace] else [Comma] + SpellEntries(more)
  {
    hide SpellEntry;
    assert ([e] + more)[1..] == more;
  }

  lemma {:induction false} EntryMatches(toks: seq<Token>, p: nat)
    requires p <= |toks| && ReadEntry(toks, p).Read?
    ensures Matches(toks, p, ReadEntry(toks, p).next, SpellEntry(ReadEntry(toks, p).value))
    decreases |toks| - p, 1
  {
    hide Matches, ReadValue, SpellValue;
    var k := At(toks, p).key.value;
    var e := ReadEntry(toks, p);
    var mark := At(toks, p + 1);
    MatchesOne(toks, p, Key(k));
    MatchesOne(toks, p + 1, mark);
    MatchesOn(toks, p, p + 1, p + 2, [Key(k)], [mark]);
    assert [Key(k)] + [mark] == [Key(k), mark];
    if mark == Dot {
      var rest := ReadEntry(toks, p + 2);
      EntryMatches(toks, p + 2);
      MatchesOn(toks, p, p + 2, e.next, [Key(k), Dot], SpellEntry(rest.value));
    } else {
      var v := ReadValue(toks, p + 2);
      ValueMatches(toks, p + 2);
      MatchesOn(toks, p, p + 2, e.next, [Key(k), Equal], SpellValue(v.value));
    }
  }

  // ----- Headers and documents -----

  lemma {:induction false} PathMatches(toks: seq<Token>, p: nat, n: nat)
    requires p <= |toks| && ReadPath(toks, p, n).Read?
    ensures Matches(toks, p, ReadPath(toks, p, n).next, SpellPath(ReadPath(toks, p, n).value))
    decreases |toks| - p
  {
    hide Matches;
    var k := At(toks, p).key.value;
    MatchesOne(toks, p, Key(k));
    if !At(toks, p + 1).RBracket? {
      var more := ReadPath(toks, p + 2, n + 1);
      MatchesOne(toks, p + 1, Dot);
      MatchesOn(toks, p, p + 1, p + 2, [Key(k)], [Dot]);
      assert [Key(k)] + [Dot] == [Key(k), Dot];
      PathMatches(toks, p + 2, n + 1);
      MatchesOn(toks, p, p + 2, more.next, [Key(k), Dot], SpellPath(more.value));
      assert ([k] + more.value)[1..] == more.value;
    }
  }

  lemma OpeningMatches(toks: seq<Token>, p: nat)
    requires p <= |toks| && OpenHeader(toks, p).Read?
    ensures Matches(toks, p, OpenHeader(toks, p).next, Opening(OpenHeader(toks, p).value))
  {
    hide Matches;
    var doubled := OpenHeader(toks, p).value;
    MatchesOne(toks, p, LBracket(doubled));
    if doubled {
      MatchesOne(toks, p + 1, LBracket(false));
      MatchesOn(toks, p, p + 1, p + 2, [LBracket(true)], [LBracket(false)]);
      assert [LBracket(true)] + [LBracket(false)] == Opening(true);
    }
  }

  /** The newline after a header is left to the next turn of the reader. */
  lemma ClosingMatches(toks: seq<Token>, p: nat, doubled: bool)
    requires p <= |toks| && CloseHeader(toks, p, doubled).Read?
    ensures Matches(toks, p, CloseHeader(toks, p, doubled).next, Closing(doubled))
  {
    hide Matches;
    var q := CloseHeader(toks, p, doubled).next;
    EndOfLine(toks, q);
    MatchesOne(toks, p, RBracket(doubled));
    if doubled {
      MatchesOne(toks, p + 1, RBracket(false));
      MatchesOn(toks, p, p + 1, q, [RBracket(true)], [RBracket(false)]);
      MatchesOn(toks, p, q, q, [RBracket(true)] + [RBracket(false)], [NewLine]);
      assert [RBracket(true)] + [RBracket(false)] + [NewLine] == Closing(true);
    } else {
      MatchesOn(toks, p, q, q, [RBracket(false)], [NewLine]);
      assert [RBracket(false)] + [NewLine] == Closing(false);
    }
  }

  lemma EndOfLine(toks: seq<Token>, q: nat)
    requires q <= |toks|
    ensures Matches(toks, q, q, [NewLine]) && Matches(toks, q, q, [])
    ensures q < |toks| && toks[q] == NewLine ==> Matches(toks, q, q + 1, [NewLine])
  {
    assert [NewLine][1..] == [];
    assert Matches(toks, q, q, []);
    if q < |toks| {
      assert Matches(toks, q + 1, q + 1, []);
    }
  }

  lemma {:induction false} HeaderMatches(toks: seq<Token>, p: nat)
    requires p <= |toks| && ReadHeader(toks, p).Read?
    ensures var s := ReadHeader(toks, p); s.value.path != [] && Matches(toks, p, s.next, SpellStatement(s.value))
  {
    hide Matches, OpenHeader, ReadPath, CloseHeader, SpellPath, Opening, Closing;
    var open := OpenHeader(toks, p);
    var path := ReadPath(toks, open.next, 0);
    var close := CloseHeader(toks, path.next, open.value);
    OpeningMatches(toks, p);
    PathMatches(toks, open.next, 0);
    ClosingMatches(toks, path.next, open.value);
    MatchesOn(toks, open.next, path.next, close.next, SpellPath(path.value), Closing(open.value));
    MatchesOn(toks, p, open.next, close.next, Opening(open.value), SpellPath(path.value) + Closing(open.value));
  }

  lemma {:induction false} LineMatches(toks: seq<Token>, p: nat)
    requires p <= |toks| && ReadLine(toks, p).Read?
    ensures var s := ReadLine(toks, p); s.value.KeyVal? && Matches(toks, p, s.next, SpellStatement(s.value))
  {
    hide Matches, ReadEntry, SpellEntry;
    var e := ReadEntry(toks, p);
    EntryMatches(toks, p);
    EndOfLine(toks, e.next);
    MatchesOn(toks, p, e.next, ReadLine(toks, p).next, SpellEntry(e.value), [NewLine]);
  }

  /** A document that is read is its own statements, written out. */
  lemma {:induction false} DocumentMatches(toks: seq<Token>, p: nat)
    requires p <= |toks| && ReadDocument(toks, p).Read?
    ensures var ss := ReadDocument(toks, p).value; Writable(ss) && Matches(toks, p, |toks|, SpellDocument(ss))
    decreases |toks| - p
  {
    hide Matches, ReadLine, ReadHeader, SpellStatement;
    if p == |toks| {
      EndOfLine(toks, p);
    } else if toks[p] == NewLine {
      var ss := ReadDocument(toks, p + 1).value;
      DocumentMatches(toks, p + 1);
      NewLineDropped(toks, p, |toks|, SpellDocument(ss));
    } else {
      var s := if toks[p].Str? then ReadLine(toks, p) else ReadHeader(toks, p);
      var more := ReadDocument(toks, s.next);
      StatementMatches(toks, p);
      DocumentMatches(toks, s.next);
      DocumentSpelled(s.value, more.value);
      MatchesOn(toks, p, s.next, |toks|, SpellStatement(s.value), SpellDocument(more.value));
    }
  }

  lemma StatementMatches(toks: seq<Token>, p: nat)
    requires p < |toks| && (toks[p].Str? || toks[p].LBracket?)
    requires (if toks[p].Str? then ReadLine(toks, p) else ReadHeader(toks, p)).Read?
    ensures var s := if toks[p].Str? then ReadLine(toks, p) else ReadHeader(toks, p);
            && (s.value.Header? ==> 1 <= |s.value.path| <= 10)
            && Matches(toks, p, s.next, SpellStatement(s.value))
  {
    hide Matches, SpellStatement, ReadEntry, OpenHeader, ReadPath, CloseHeader;
    if toks[p].Str? {
      LineMatches(toks, p);
    } else {
      HeaderMatches(toks, p);
    }
  }

  lemma DocumentSpelled(s: Statement, more: seq<Statement>)
    requires Writable(more) && (s.Header? ==> 1 <= |s.path| <= 10)
    ensures Writable([s] + more) && SpellDocument([s] + more) == SpellStatement(s) + SpellDocument(more)
  {
    hide SpellStatement;
    assert ([s] + more)[1..] == more;
  }

  lemma NewLineDropped(toks: seq<Token>, p: nat, q: nat, s: seq<Token>)
    requires p < |toks| && q <= |toks| && toks[p] == NewLine && Matches(toks, p + 1, q, s)
    ensures Matches(toks, p, q, s)
  {
    MatchesForward(toks, p + 1, q, s);
  }
}

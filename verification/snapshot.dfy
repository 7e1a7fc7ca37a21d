/** The snapshot file: a byte-level store of source texts, one record per base name,

      [FILE:<name>:<size>]\n<size bytes of text>

    one after the other.  Characters stand for bytes. */
module Snapshot {
  import opened Options
  import opened Decimals

  const TAG := "[FILE:"

  // ----- One record -----

  /** The lowest index from `i` on that holds `c`. */
  function IndexOf(s: string, c: char, i: nat): (r: Option<nat>)
    requires i <= |s|
    ensures r.Some? ==> i <= r.value < |s| && s[r.value] == c && forall k | i <= k < r.value :: s[k] != c
    ensures r.None? ==> forall k | i <= k < |s| :: s[k] != c
    decreases |s| - i
  {
    if i == |s| then None else if s[i] == c then Some(i) else IndexOf(s, c, i + 1)
  }

  lemma IndexIs(s: string, c: char, i: nat, k: nat)
    requires i <= k < |s| && s[k] == c && forall j | i <= j < k :: s[j] != c
    ensures IndexOf(s, c, i) == Some(k)
  {
  }

  datatype Entry = Entry(raw: string, name: string, content: string) {
    predicate Named(base: string) {
      name == base
    }
  }

  /** The record at the front of `rest`, if one is there in full: the name ends at the first
      colon, the number at the first bracket after it, and a newline is skipped. */
  function NextEntry(rest: string): (r: Option<Entry>)
    ensures r.Some? ==> 0 < |r.value.raw| <= |rest| && r.value.raw == rest[..|r.value.raw|]
  {
    if |rest| <= 6 || rest[..6] != TAG then None else
      match IndexOf(rest, ':', 6)
      case None => None
      case Some(colon) =>
        match IndexOf(rest, ']', colon + 1)
        case None => None
        case Some(bracket) => Cut(rest, colon, bracket, Scan(rest[colon + 1..], 0))
  }

  /** The record whose name, number and text have been located. */
  function Cut(rest: string, colon: nat, bracket: nat, size: nat): (r: Option<Entry>)
    requires 6 <= colon < bracket < |rest|
    ensures r.Some? ==> 0 < |r.value.raw| <= |rest| && r.value.raw == rest[..|r.value.raw|]
  {
    var content := if bracket + 1 < |rest| && rest[bracket + 1] == '\n' then bracket + 2 else bracket + 1;
    var end := content + size;
    if end > |rest| then None else Some(Entry(rest[..end], rest[6..colon], rest[content..end]))
  }

  /** The first colon after the tag and the first bracket after that. */
  predicate IsLayout(rest: string, colon: nat, bracket: nat) {
    && 6 <= colon < bracket < |rest| && rest[..6] == TAG
    && rest[colon] == ':' && (forall j | 6 <= j < colon :: rest[j] != ':')
    && rest[bracket] == ']' && (forall j | colon < j < bracket :: rest[j] != ']')
  }

  lemma NextEntryAt(rest: string, colon: nat, bracket: nat)
    requires IsLayout(rest, colon, bracket)
    ensures NextEntry(rest) == Cut(rest, colon, bracket, Scan(rest[colon + 1..], 0))
  {
    IndexIs(rest, ':', 6, colon);
    IndexIs(rest, ']', colon + 1, bracket);
  }

  function Entries(rest: string): seq<Entry>
    decreases |rest|
  {
    match NextEntry(rest)
    case None => []
    case Some(e) => [e] + Entries(rest[|e.raw|..])
  }

  function Header(name: string, size: nat): string {
    TAG + name + ":" + Decimal(size) + "]\n"
  }

  /** The first line of a record as it stands in the file. */
  lemma HeaderSpelled(name: string)
    ensures Header(name, 7) == "[FILE:" + name + ":7]\n" && Header(name, 123) == "[FILE:" + name + ":123]\n"
  {
    DecimalSpelled(12, 3);
    DecimalSpelled(1, 2);
    DecimalSpelled(0, 1);
    DecimalSpelled(0, 7);
  }

  // ----- The store -----

  predicate IsSeparator(c: char) {
    c == '/' || c == '\\'
  }

  /** What follows the last separator. */
  function Base(source: string): string {
    var n := |source| - 1;
    if source == [] || IsSeparator(source[n]) then [] else Base(source[..n]) + [source[n]]
  }

  /** The base name is the longest suffix without a separator. */
  lemma {:induction false} BaseIsSuffix(source: string) returns (k: nat)
    ensures k <= |source| && Base(source) == source[k..] && (k == 0 || source[k - 1] == '/' || source[k - 1] == '\\')
    ensures forall i | k <= i < |source| :: source[i] != '/' && source[i] != '\\'
  {
    var n := |source| - 1;
    if source == [] || IsSeparator(source[n]) {
      k := |source|;
    } else {
      k := BaseIsSuffix(source[..n]);
      assert source[..n][k..] + [source[n]] == source[k..];
    }
  }

  /** `fp_base_name` */
  method BaseName(source: string) returns (base: string)
    ensures base == Base(source)
  {
    var k := 0;
    hide Base;
    assert Base("") == "" by { BaseEmpty(); }
    for p := 0 to |source|
      invariant 0 <= k <= p && Base(source[..p]) == source[k..p]
    {
      BaseStep(source, p, k);
      if IsSeparator(source[p]) {
        k := p + 1;
      }
    }
    assert source[..|source|] == source;
    base := source[k..];
  }

  lemma BaseStep(source: string, p: nat, k: nat)
    requires k <= p < |source| && Base(source[..p]) == source[k..p]
    ensures Base(source[..p + 1]) == if IsSeparator(source[p]) then [] else source[k..p + 1]
  {
    assert source[..p + 1][..p] == source[..p];
  }

  lemma BaseEmpty()
    ensures Base("") == ""
  {
  }

  /** The bytes of the records not named `base`, as they stand. */
  function Others(rest: string, base: string): string
    decreases |rest|
  {
    match NextEntry(rest)
    case None => []
    case Some(e) => (if e.name == base then [] else e.raw) + Others(rest[|e.raw|..], base)
  }

  function AfterWrite(file: string, base: string, source: string): string {
    Others(file, base) + Header(base, |source|) + source
  }

  /** The content of the first record named `base`. */
  function Lookup(es: seq<Entry>, base: string): Option<string> {
    if es == [] then None else if es[0].name == base then Some(es[0].content) else Lookup(es[1..], base)
  }

  lemma DropDrop(s: string, i: nat, n: nat)
    requires i + n <= |s|
    ensures s[i..][n..] == s[i + n..]
  {
  }

  /** The record at offset `cur`. */
  function RecordAt(file: string, cur: nat): (r: Option<Entry>)
    requires cur <= |file|
    ensures r.Some? ==> 0 < |r.value.raw| <= |file| - cur
  {
    NextEntry(file[cur..])
  }

  ghost function FoundFrom(file: string, cur: nat, base: string): Option<string>
    requires cur <= |file|
  {
    Lookup(Entries(file[cur..]), base)
  }

  ghost function OthersFrom(file: string, cur: nat, base: string): string
    requires cur <= |file|
  {
    Others(file[cur..], base)
  }

  lemma FoundStart(file: string, base: string)
    ensures FoundFrom(file, 0, base) == Lookup(Entries(file), base)
  {
    assert file[0..] == file;
  }

  lemma FoundRecord(file: string, cur: nat, base: string)
    requires cur <= |file| && RecordAt(file, cur).Some?
    ensures var e := RecordAt(file, cur).value;
            FoundFrom(file, cur, base) == if e.Named(base) then Some(e.content) else FoundFrom(file, cur + |e.raw|, base)
  {
    DropDrop(file, cur, |RecordAt(file, cur).value.raw|);
    LookupStep(file[cur..], base);
    hide NextEntry, Lookup, Entries;
  }

  lemma FoundEnd(file: string, cur: nat, base: string)
    requires cur <= |file| && (cur == |file| || RecordAt(file, cur).None?)
    ensures FoundFrom(file, cur, base) == None
  {
    LookupEnd(file[cur..], base);
  }

  lemma OthersStart(file: string, base: string)
    ensures [] + OthersFrom(file, 0, base) == Others(file, base)
  {
    assert file[0..] == file;
  }

  lemma OthersRecord(file: string, cur: nat, base: string, out: string)
    requires cur <= |file| && RecordAt(file, cur).Some?
    ensures var e := RecordAt(file, cur).value;
            out + OthersFrom(file, cur, base) == (if e.Named(base) then out else out + e.raw) + OthersFrom(file, cur + |e.raw|, base)
  {
    DropDrop(file, cur, |RecordAt(file, cur).value.raw|);
    OthersStep(file[cur..], base, out);
    hide NextEntry, Others;
  }

  lemma OthersAtEnd(file: string, cur: nat, base: string, out: string)
    requires cur <= |file| && (cur == |file| || RecordAt(file, cur).None?)
    ensures out + OthersFrom(file, cur, base) == out
  {
    OthersEnd(file[cur..], base, out);
  }

  lemma OthersStep(rest: string, base: string, out: string)
    requires NextEntry(rest).Some?
    ensures var e := NextEntry(rest).value;
            out + Others(rest, base) == (if e.name == base then out else out + e.raw) + Others(rest[|e.raw|..], base)
  {
    hide NextEntry;
  }

  lemma OthersEnd(rest: string, base: string, out: string)
    requires NextEntry(rest).None?
    ensures out + Others(rest, base) == out
  {
    hide NextEntry;
  }

  lemma AfterWriteIs(file: string, base: string, source: string)
    ensures AfterWrite(file, base, source) == Others(file, base) + Header(base, |source|) + source
  {
    hide Others, Header;
  }

  class Store {
    var file: string

    constructor ()
      ensures file == ""
    {
      file := "";
    }

    /** `fp_snapshot_write`; the header must fit the code's 512-byte buffer. */
    method Write(sourceFile: string, source: string)
      requires |Header(Base(sourceFile), |source|)| <= 511
      modifies this
      ensures file == AfterWrite(old(file), Base(sourceFile), source)
    {
      var base := BaseName(sourceFile);
      var existing := file;
      ghost var want := Others(file, base);
      hide *;
      OthersStart(existing, base);
      var cur: nat := 0;
      var out: string := "";
      while cur < |existing|
        invariant cur <= |existing|
        invariant out + OthersFrom(existing, cur, base) == want
        decreases |existing| - cur
      {
        var next := RecordAt(existing, cur);
        if next.None? {
          break;
        }
        OthersRecord(existing, cur, base, out);
        if !next.value.Named(base) {
          out := out + next.value.raw;
        }
        cur := cur + |next.value.raw|;
      }
      OthersAtEnd(existing, cur, base, out);
      AfterWriteIs(existing, base, source);
      file := out + Header(base, |source|) + source;
    }

    /** `fp_snapshot_read` */
    method Read(sourceFile: string) returns (r: Option<string>)
      ensures r == Lookup(Entries(file), Base(sourceFile))
    {
      var f := file;
      ghost var want := Lookup(Entries(file), Base(sourceFile));
      var base := BaseName(sourceFile);
      var cur: nat := 0;
      hide *;
      FoundStart(f, base);
      while cur < |f|
        invariant cur <= |f|
        invariant f == file && FoundFrom(f, cur, base) == want
        decreases |f| - cur
      {
        var next := RecordAt(f, cur);
        if next.None? {
          break;
        }
        FoundRecord(f, cur, base);
        if next.value.Named(base) {
          return Some(next.value.content);
        }
        cur := cur + |next.value.raw|;
      }
      FoundEnd(f, cur, base);
      return None;
    }
  }

  lemma LookupStep(rest: string, base: string)
    requires NextEntry(rest).Some?
    ensures var e := NextEntry(rest).value;
            Lookup(Entries(rest), base) == if e.name == base then Some(e.content) else Lookup(Entries(rest[|e.raw|..]), base)
  {
    hide NextEntry;
    var e := NextEntry(rest).value;
    assert ([e] + Entries(rest[|e.raw|..]))[1..] == Entries(rest[|e.raw|..]);
  }

  lemma LookupEnd(rest: string, base: string)
    requires NextEntry(rest).None?
    ensures Lookup(Entries(rest), base) == None
  {
    hide NextEntry;
  }

  // ----- Records parse back -----

  lemma {:induction false} ScanPrefix(s: string, t: string, k: nat, acc: nat)
    requires k < |s| && k < |t| && s[..k + 1] == t[..k + 1] && !IsDigit(s[k])
    ensures Scan(s, acc) == Scan(t, acc)
    decreases k
  {
    assert s[0] == s[..k + 1][0] && t[0] == t[..k + 1][0];
    if k > 0 && IsDigit(s[0]) {
      assert s[1..][..k] == s[..k + 1][1..] && t[1..][..k] == t[..k + 1][1..];
      ScanPrefix(s[1..], t[1..], k - 1, 10 * acc + (s[0] as int - '0' as int));
    } else if k == 0 {
      assert s[0] == s[k];
    }
  }

  lemma CutIsLocal(rest: string, s: string, colon: nat, bracket: nat, size: nat)
    requires 6 <= colon < bracket < |rest| && Cut(rest, colon, bracket, size).Some?
    requires var n := |Cut(rest, colon, bracket, size).value.raw|;
             |s| >= n && s[..n] == rest[..n] && (|s| == n || s[n] != '\n')
    ensures bracket < |s| && Cut(s, colon, bracket, size) == Cut(rest, colon, bracket, size)
  {
    var n := |Cut(rest, colon, bracket, size).value.raw|;
    assert forall i | 0 <= i < n :: s[i] == s[..n][i] == rest[i];
    assert s[6..colon] == rest[6..colon];
    var content := n - size;
    assert s[content..n] == rest[content..n];
  }

  /** A record reads the same whatever follows it, unless a newline does. */
  lemma EntryIsLocal(rest: string, tail: string)
    requires NextEntry(rest).Some? && (tail == [] || tail[0] != '\n')
    ensures NextEntry(NextEntry(rest).value.raw + tail) == NextEntry(rest)
  {
    var colon, bracket := Locate(rest);
    var raw := NextEntry(rest).value.raw;
    var s := raw + tail;
    assert s[..|raw|] == raw;
    hide NextEntry, Scan, Cut, IsLayout;
    LayoutShared(rest, s, |raw|, colon, bracket);
    NextEntryAt(s, colon, bracket);
    CutIsLocal(rest, s, colon, bracket, Scan(rest[colon + 1..], 0));
  }

  lemma Locate(rest: string) returns (colon: nat, bracket: nat)
    requires NextEntry(rest).Some?
    ensures IsLayout(rest, colon, bracket) && 6 <= colon < bracket < |NextEntry(rest).value.raw|
    ensures NextEntry(rest) == Cut(rest, colon, bracket, Scan(rest[colon + 1..], 0))
  {
    colon := IndexOf(rest, ':', 6).value;
    bracket := IndexOf(rest, ']', colon + 1).value;
  }

  lemma LayoutShared(rest: string, s: string, n: nat, colon: nat, bracket: nat)
    requires IsLayout(rest, colon, bracket) && bracket < n <= |rest| && n <= |s| && s[..n] == rest[..n]
    ensures IsLayout(s, colon, bracket) && Scan(s[colon + 1..], 0) == Scan(rest[colon + 1..], 0)
  {
    assert forall i | 0 <= i < n :: s[i] == s[..n][i] && rest[i] == rest[..n][i];
    assert s[..6] == rest[..6];
    assert s[colon + 1..][..bracket - colon] == rest[colon + 1..][..bracket - colon];
    ScanPrefix(s[colon + 1..], rest[colon + 1..], bracket - colon - 1, 0);
  }

  /** A record written for a name without a colon reads back as that name and text. */
  lemma HeaderReadsBack(name: string, source: string, tail: string)
    requires ':' !in name
    ensures var raw := Header(name, |source|) + source;
            NextEntry(raw + tail) == Some(Entry(raw, name, source))
  {
    var d := Decimal(|source|);
    var raw := Header(name, |source|) + source;
    var s := raw + tail;
    var colon, bracket := 6 + |name|, 7 + |name| + |d|;
    HeaderLayout(name, d, source, tail);
    hide NextEntry, IndexOf, Decimal, Cut;
    assert forall i | 6 <= i < colon :: s[i] == s[6..colon][i - 6];
    assert forall i | colon < i < bracket :: s[i] == s[colon + 1..bracket][i - colon - 1] && IsDigit(s[i]);
    NextEntryAt(s, colon, bracket);
    ScanDecimal(|source|, "]\n" + (source + tail));
    HeaderCut(s, colon, bracket, |source|);
  }

  lemma HeaderLayout(name: string, d: string, source: string, tail: string)
    ensures var raw := TAG + name + ":" + d + "]\n" + source;
            var s := raw + tail;
            var colon, bracket := 6 + |name|, 7 + |name| + |d|;
            && |raw| == bracket + 2 + |source| && s[..6] == TAG && s[6..colon] == name && s[colon] == ':'
            && s[colon + 1..bracket] == d && s[bracket] == ']' && s[bracket + 1] == '\n'
            && s[bracket + 2..|raw|] == source && s[..|raw|] == raw
            && s[colon + 1..] == d + ("]\n" + (source + tail))
  {
  }

  lemma HeaderCut(s: string, colon: nat, bracket: nat, size: nat)
    requires 6 <= colon < bracket && bracket + 2 + size <= |s| && s[bracket + 1] == '\n'
    ensures var n := bracket + 2 + size;
            Cut(s, colon, bracket, size) == Some(Entry(s[..n], s[6..colon], s[bracket + 2..n]))
  {
  }

  // ----- The file as a map from names to texts -----

  ghost predicate Distinct(es: seq<Entry>) {
    forall i, j | 0 <= i < j < |es| :: es[i].name != es[j].name
  }

  ghost function Without(es: seq<Entry>, base: string): seq<Entry> {
    if es == [] then [] else (if es[0].name == base then [] else [es[0]]) + Without(es[1..], base)
  }

  /** Whatever the file held, malformed text at its end included: a write keeps the records
      of other names as they are, in order, and puts its own record last. */
  lemma {:induction false} WriteReplaces(file: string, base: string, source: string)
    requires ':' !in base
    ensures Entries(AfterWrite(file, base, source)) ==
            Without(Entries(file), base) + [Entry(Header(base, |source|) + source, base, source)]
    decreases |file|
  {
    if NextEntry(file).None? {
      WriteFirst(file, base, source);
    } else {
      var e := NextEntry(file).value;
      var rest := file[|e.raw|..];
      WriteReplaces(rest, base, source);
      WriteStartsWithTag(rest, base, source);
      EntryIsLocal(file, AfterWrite(rest, base, source));
      AfterWriteStep(file, base, source);
      assert Entries(file) == [e] + Entries(rest);
      hide *;
      var record := Entry(Header(base, |source|) + source, base, source);
      WriteNext(e, Entries(rest), AfterWrite(rest, base, source), base, record);
    }
  }

  lemma WriteNext(e: Entry, es: seq<Entry>, after: string, base: string, record: Entry)
    requires NextEntry(e.raw + after) == Some(e) && Entries(after) == Without(es, base) + [record]
    ensures Entries(if e.name == base then after else e.raw + after) == Without([e] + es, base) + [record]
  {
    EntriesStep(e, after);
    WithoutStep(e, es, base);
    hide *;
    ConsSnoc(e, Without(es, base), record);
  }

  lemma ConsSnoc(e: Entry, es: seq<Entry>, last: Entry)
    ensures [e] + (es + [last]) == ([e] + es) + [last]
  {
  }

  lemma WriteFirst(file: string, base: string, source: string)
    requires ':' !in base && NextEntry(file).None?
    ensures Entries(file) == []
    ensures Entries(AfterWrite(file, base, source)) == [Entry(Header(base, |source|) + source, base, source)]
  {
    var record := Header(base, |source|) + source;
    HeaderReadsBack(base, source, []);
    assert record + [] == record;
    EntriesOfLast(record);
    FirstIsRecord(file, base, source);
    assert Entries(file) == [];
    hide *;
  }

  lemma FirstIsRecord(file: string, base: string, source: string)
    requires NextEntry(file).None?
    ensures AfterWrite(file, base, source) == Header(base, |source|) + source
  {
    hide NextEntry, Header;
  }

  lemma WithoutStep(e: Entry, es: seq<Entry>, base: string)
    ensures Without([e] + es, base) == if e.name == base then Without(es, base) else [e] + Without(es, base)
  {
    assert ([e] + es)[1..] == es;
  }

  lemma AfterWriteStep(file: string, base: string, source: string)
    requires NextEntry(file).Some?
    ensures var e := NextEntry(file).value;
            AfterWrite(file, base, source) ==
              if e.name == base then AfterWrite(file[|e.raw|..], base, source) else e.raw + AfterWrite(file[|e.raw|..], base, source)
  {
    hide NextEntry, Header;
  }

  lemma EntriesStep(e: Entry, tail: string)
    requires NextEntry(e.raw + tail) == Some(e)
    ensures Entries(e.raw + tail) == [e] + Entries(tail)
  {
    hide NextEntry;
    assert (e.raw + tail)[|e.raw|..] == tail;
  }

  lemma EntriesOfLast(record: string)
    requires NextEntry(record).Some? && NextEntry(record).value.raw == record
    ensures Entries(record) == [NextEntry(record).value]
  {
  }

  /** What a write leaves never starts with a newline. */
  lemma {:induction false} WriteStartsWithTag(file: string, base: string, source: string)
    ensures var after := AfterWrite(file, base, source); after != [] && after[0] == '['
    decreases |file|
  {
    match NextEntry(file)
    case None =>
    case Some(e) =>
      assert e.raw[0] == file[..6][0];
      WriteStartsWithTag(file[|e.raw|..], base, source);
  }

  lemma {:induction false} LookupWithout(es: seq<Entry>, base: string, last: Entry, n: string)
    requires last.name == base
    ensures Lookup(Without(es, base) + [last], n) == if n == base then Some(last.content) else Lookup(es, n)
  {
    if es != [] {
      LookupWithout(es[1..], base, last, n);
      var kept := Without(es[1..], base) + [last];
      if es[0].name != base {
        assert Without(es, base) + [last] == [es[0]] + kept;
        assert ([es[0]] + kept)[1..] == kept;
      } else {
        assert Without(es, base) + [last] == kept;
      }
    }
  }

  lemma {:induction false} DistinctWithout(es: seq<Entry>, base: string)
    requires Distinct(es)
    ensures Distinct(Without(es, base))
    ensures forall e | e in Without(es, base) :: e in es && e.name != base
  {
    if es != [] {
      assert forall i | 0 <= i < |es| - 1 :: es[1..][i] == es[i + 1];
      DistinctWithout(es[1..], base);
    }
  }

  lemma DistinctSnoc(es: seq<Entry>, last: Entry)
    requires Distinct(es)
    ensures Distinct(Without(es, last.name) + [last])
  {
    DistinctWithout(es, last.name);
    hide Without;
  }

  /** Reading a name returns what was last written for it, byte for byte, and writing a name
      leaves every other name's text as it was. */
  lemma ReadAfterWrite(file: string, base: string, source: string, n: string)
    requires ':' !in base
    ensures Lookup(Entries(AfterWrite(file, base, source)), n) ==
            if n == base then Some(source) else Lookup(Entries(file), n)
  {
    WriteReplaces(file, base, source);
    LookupWithout(Entries(file), base, Entry(Header(base, |source|) + source, base, source), n);
    hide *;
  }

  /** No record has a colon in its name. */
  lemma {:induction false} NamesHaveNoColon(file: string, n: string)
    requires ':' in n
    ensures Lookup(Entries(file), n) == None
    decreases |file|
  {
    match NextEntry(file)
    case None =>
    case Some(e) =>
      NameHasNoColon(file);
      NamesHaveNoColon(file[|e.raw|..], n);
      EntriesFirst(file);
  }

  lemma NameHasNoColon(rest: string)
    requires NextEntry(rest).Some?
    ensures ':' !in NextEntry(rest).value.name
  {
    var name := NextEntry(rest).value.name;
    assert forall i | 0 <= i < |name| :: name[i] == rest[6 + i];
  }

  lemma EntriesFirst(file: string)
    requires NextEntry(file).Some?
    ensures var e := NextEntry(file).value;
            Entries(file) == [e] + Entries(file[|e.raw|..]) && Entries(file)[1..] == Entries(file[|e.raw|..])
  {
    hide NextEntry;
  }

  /** A name can be read back after it is written exactly when it has no colon: otherwise
      the record is filed under the part before the colon. */
  lemma WrittenIsReadableIff(file: string, base: string, source: string)
    ensures Lookup(Entries(AfterWrite(file, base, source)), base) == Some(source) <==> ':' !in base
  {
    if ':' in base {
      NamesHaveNoColon(AfterWrite(file, base, source), base);
    } else {
      ReadAfterWrite(file, base, source, base);
    }
    hide *;
  }

  // ----- Whole histories -----

  datatype Saved = Saved(name: string, text: string)

  predicate NoColons(history: seq<Saved>) {
    forall i | 0 <= i < |history| :: ':' !in history[i].name
  }

  /** The file after the writes of `history`, from an empty one. */
  function FileAfter(history: seq<Saved>): string {
    if history == [] then "" else
      var last := history[|history| - 1];
      AfterWrite(FileAfter(history[..|history| - 1]), last.name, last.text)
  }

  function LastText(history: seq<Saved>, n: string): Option<string> {
    if history == [] then None else
      var last := history[|history| - 1];
      if last.name == n then Some(last.text) else LastText(history[..|history| - 1], n)
  }

  ghost function Joined(es: seq<Entry>): string {
    if es == [] then "" else es[0].raw + Joined(es[1..])
  }

  lemma {:induction false} OthersJoined(file: string, base: string)
    ensures Others(file, base) == Joined(Without(Entries(file), base))
    decreases |file|
  {
    if NextEntry(file).Some? {
      var e := NextEntry(file).value;
      var rest := file[|e.raw|..];
      OthersJoined(rest, base);
      EntriesFirst(file);
      WithoutStep(e, Entries(rest), base);
      hide NextEntry, Entries, Without;
      if e.name != base {
        assert ([e] + Without(Entries(rest), base))[1..] == Without(Entries(rest), base);
      }
    }
  }

  lemma {:induction false} JoinedSnoc(es: seq<Entry>, e: Entry)
    ensures Joined(es + [e]) == Joined(es) + e.raw
  {
    if es == [] {
      assert [e][1..] == [];
      assert Joined([e][1..]) == "";
    } else {
      assert (es + [e])[1..] == es[1..] + [e];
      JoinedSnoc(es[1..], e);
    }
  }

  /** After any one write the file is its records and nothing else. */
  lemma WriteLeavesOnlyRecords(file: string, base: string, source: string)
    requires ':' !in base
    ensures Joined(Entries(AfterWrite(file, base, source))) == AfterWrite(file, base, source)
  {
    var record := Header(base, |source|) + source;
    WriteReplaces(file, base, source);
    OthersJoined(file, base);
    JoinedSnoc(Without(Entries(file), base), Entry(record, base, source));
    hide Joined, Entries, Without, Others, Header;
    assert Others(file, base) + Header(base, |source|) + source == Others(file, base) + record;
  }

  lemma {:induction false} HistoryLeavesRecords(history: seq<Saved>)
    requires NoColons(history)
    ensures Joined(Entries(FileAfter(history))) == FileAfter(history) && Distinct(Entries(FileAfter(history)))
  {
    if history != [] {
      var before, last := history[..|history| - 1], history[|history| - 1];
      HistoryLeavesRecords(before);
      var file0 := FileAfter(before);
      WriteLeavesOnlyRecords(file0, last.name, last.text);
      WriteReplaces(file0, last.name, last.text);
      DistinctSnoc(Entries(file0), Entry(Header(last.name, |last.text|) + last.text, last.name, last.text));
      assert FileAfter(history) == AfterWrite(file0, last.name, last.text);
      hide *;
    }
  }

  lemma {:induction false} HistoryReads(history: seq<Saved>, n: string)
    requires NoColons(history)
    ensures Lookup(Entries(FileAfter(history)), n) == LastText(history, n)
  {
    if history != [] {
      var before, last := history[..|history| - 1], history[|history| - 1];
      HistoryReads(before, n);
      ReadAfterWrite(FileAfter(before), last.name, last.text, n);
      hide Entries, AfterWrite, Lookup;
    }
  }

  lemma {:induction false} WrittenHasText(history: seq<Saved>, i: nat)
    requires i < |history|
    ensures LastText(history, history[i].name).Some?
  {
    var n := |history| - 1;
    if i < n && history[n].name != history[i].name {
      WrittenHasText(history[..n], i);
    }
  }

  /** A history of writes reads as a map from names to the texts last written for them
      exactly if no name in it has a colon; and then the file is a list of records with at
      most one to a name. */
  lemma StoreIsAMap(history: seq<Saved>)
    ensures (forall n :: Lookup(Entries(FileAfter(history)), n) == LastText(history, n)) <==> NoColons(history)
    ensures NoColons(history) ==>
              Joined(Entries(FileAfter(history))) == FileAfter(history) && Distinct(Entries(FileAfter(history)))
  {
    if NoColons(history) {
      HistoryLeavesRecords(history);
      forall n
        ensures Lookup(Entries(FileAfter(history)), n) == LastText(history, n)
      {
        HistoryReads(history, n);
      }
    } else {
      var i: nat :| i < |history| && ':' in history[i].name;
      NamesHaveNoColon(FileAfter(history), history[i].name);
      WrittenHasText(history, i);
    }
    hide *;
  }
}

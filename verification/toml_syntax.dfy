/** What a TOML text says: its statements, read from its tokens without regard to any tree. */
module TomlSyntax {
  import opened Options

  /** A bracket knows whether the next character is another one; a string knows the key it
      reads as, if any, and its own text; `Bad` stands where the scanner fails. */
  datatype Token =
    | Dot | Comma | Equal | LBrace | RBrace | NewLine
    | LBracket(doubled: bool) | RBracket(doubled: bool)
    | Str(text: string, key: Option<string>)
    | Bad

  const MAX_PATH: nat := 10

  datatype Value = Text(text: string) | List(items: seq<Value>) | Inline(entries: seq<Entry>)

  /** `k1.k2. ... = value` */
  datatype Entry = Under(key: string, rest: Entry) | Set(key: string, value: Value)

  datatype Statement = KeyVal(entry: Entry) | Header(doubled: bool, path: seq<string>)

  // ----- Reading -----

  datatype Reading<+T> = Read(value: T, next: nat) | Failed {
    predicate IsFailure() {
      Failed?
    }

    function PropagateFailure<U>(): Reading<U>
      requires Failed?
    {
      Failed
    }

    function Extract(): (T, nat)
      requires Read?
    {
      (value, next)
    }
  }

  /** The token at `p`; at the end of the text a newline. */
  function At(toks: seq<Token>, p: nat): Token {
    if p < |toks| then toks[p] else NewLine
  }

  /** To the next token; the end of the text is never left. */
  function Advance(toks: seq<Token>, p: nat): (r: Reading<()>)
    requires p <= |toks|
    ensures r.Read? ==> r.next == if p < |toks| then p + 1 else p
  {
    var q := if p < |toks| then p + 1 else p;
    if At(toks, q) == Bad then Failed else Read((), q)
  }

  function SkipNewlines(toks: seq<Token>, p: nat): (r: Reading<()>)
    requires p <= |toks|
    ensures r.Read? ==> p <= r.next <= |toks|
    decreases |toks| - p
  {
    if At(toks, p) != NewLine then Read((), p) else
      var (_, q) :- Advance(toks, p);
      if q == |toks| then Read((), q) else SkipNewlines(toks, q)
  }

  function ReadValue(toks: seq<Token>, p: nat): (r: Reading<Value>)
    requires p <= |toks|
    ensures r.Read? ==> p < r.next <= |toks|
    decreases |toks| - p, 1
  {
    match At(toks, p)
    case Str(text, _) =>
      var (_, q) :- Advance(toks, p);
      Read(Text(text), q)
    case LBracket(_) =>
      var (xs, q) :- ReadArray(toks, p);
      Read(List(xs), q)
    case LBrace =>
      var (es, q) :- ReadInline(toks, p);
      Read(Inline(es), q)
    case _ => Failed
  }

  function ReadArray(toks: seq<Token>, p: nat): (r: Reading<seq<Value>>)
    requires p <= |toks|
    ensures r.Read? ==> p < r.next <= |toks|
    decreases |toks| - p, 0
  {
    if !At(toks, p).LBracket? then Failed else
      var (_, q) :- Advance(toks, p);
      ReadItems(toks, q)
  }

  /** Elements and newlines, with commas between, up to and including the closing bracket. */
  function ReadItems(toks: seq<Token>, p: nat): (r: Reading<seq<Value>>)
    requires p <= |toks|
    ensures r.Read? ==> p < r.next <= |toks|
    decreases |toks| - p, 2
  {
    var (_, p1) :- SkipNewlines(toks, p);
    if At(toks, p1).RBracket? then
      var (_, q) :- Advance(toks, p1);
      Read([], q)
    else
      var (x, p2) :- ReadValue(toks, p1);
      var (again, p3) :- AfterItem(toks, p2);
      if again then
        var (more, q) :- ReadItems(toks, p3);
        Read([x] + more, q)
      else Read([x], p3)
  }

  /** A comma, which lets another element follow, or the closing bracket. */
  function AfterItem(toks: seq<Token>, p: nat): (r: Reading<bool>)
    requires p <= |toks|
    ensures r.Read? ==> p < r.next <= |toks|
  {
    var (_, p1) :- SkipNewlines(toks, p);
    if At(toks, p1) == Comma || At(toks, p1).RBracket? then
      var (_, q) :- Advance(toks, p1);
      Read(At(toks, p1) == Comma, q)
    else Failed
  }

  function ReadInline(toks: seq<Token>, p: nat): (r: Reading<seq<Entry>>)
    requires p <= |toks|
    ensures r.Read? ==> p < r.next <= |toks|
    decreases |toks| - p, 0
  {
    if At(toks, p) != LBrace then Failed else
      var (_, q) :- Advance(toks, p);
      ReadEntries(toks, q)
  }

  /** Entries with commas between, all on one line, up to and including the closing brace. */
  function ReadEntries(toks: seq<Token>, p: nat): (r: Reading<seq<Entry>>)
    requires p <= |toks|
    ensures r.Read? ==> p < r.next <= |toks|
    decreases |toks| - p, 2
  {
    if At(toks, p) == RBrace then
      var (_, q) :- Advance(toks, p);
      Read([], q)
    else
      var (e, p1) :- ReadEntry(toks, p);
      var (again, p2) :- AfterEntry(toks, p1);
      if again then
        var (more, q) :- ReadEntries(toks, p2);
        Read([e] + more, q)
      else Read([e], p2)
  }

  /** A comma, which lets another entry follow, or the closing brace. */
  function AfterEntry(toks: seq<Token>, p: nat): (r: Reading<bool>)
    requires p <= |toks|
    ensures r.Read? ==> p < r.next <= |toks|
  {
    if At(toks, p) == Comma || At(toks, p) == RBrace then
      var (_, q) :- Advance(toks, p);
      Read(At(toks, p) == Comma, q)
    else Failed
  }

  function ReadEntry(toks: seq<Token>, p: nat): (r: Reading<Entry>)
    requires p <= |toks|
    ensures r.Read? ==> p < r.next <= |toks|
    decreases |toks| - p, 1
  {
    if !At(toks, p).Str? || At(toks, p).key.None? then Failed else
      var k := At(toks, p).key.value;
      var (_, p1) :- Advance(toks, p);
      if At(toks, p1) == Dot then
        var (_, p2) :- Advance(toks, p1);
        var (e, q) :- ReadEntry(toks, p2);
        Read(Under(k, e), q)
      else if At(toks, p1) == Equal then
        var (_, p2) :- Advance(toks, p1);
        var (v, q) :- ReadValue(toks, p2);
        Read(Set(k, v), q)
      else Failed
  }

  // ----- Headers and the whole text -----

  /** Keys with dots between up to a closing bracket, which is not consumed; `n` came before. */
  function ReadPath(toks: seq<Token>, p: nat, n: nat): (r: Reading<seq<string>>)
    requires p <= |toks|
    ensures r.Read? ==> p < r.next <= |toks| && r.value != [] && n + |r.value| <= MAX_PATH && At(toks, r.next).RBracket?
    decreases |toks| - p
  {
    if n >= MAX_PATH || !At(toks, p).Str? || At(toks, p).key.None? then Failed else
      var k := At(toks, p).key.value;
      var (_, p1) :- Advance(toks, p);
      if At(toks, p1).RBracket? then Read([k], p1)
      else if At(toks, p1) == Dot then
        var (_, p2) :- Advance(toks, p1);
        var (more, q) :- ReadPath(toks, p2, n + 1);
        Read([k] + more, q)
      else Failed
  }

  /** The opening bracket, or both of them. */
  function OpenHeader(toks: seq<Token>, p: nat): (r: Reading<bool>)
    requires p <= |toks|
    ensures r.Read? ==> p < r.next <= |toks|
  {
    match At(toks, p)
    case LBracket(doubled) =>
      var (_, p1) :- Advance(toks, p);
      if !doubled then Read(false, p1)
      else if !At(toks, p1).LBracket? then Failed
      else
        var (_, p2) :- Advance(toks, p1);
        Read(true, p2)
    case _ => Failed
  }

  /** The closing bracket, or both, and the end of the line. */
  function CloseHeader(toks: seq<Token>, p: nat, doubled: bool): (r: Reading<()>)
    requires p <= |toks|
    ensures r.Read? ==> p < r.next <= |toks|
  {
    if !At(toks, p).RBracket? || (doubled && !At(toks, p).doubled) then Failed else
      var (_, p1) :- Advance(toks, p);
      var (_, p2) :- if !doubled then Read((), p1) else if At(toks, p1).RBracket? then Advance(toks, p1) else Failed;
      if At(toks, p2) == NewLine then Read((), p2) else Failed
  }

  function ReadHeader(toks: seq<Token>, p: nat): (r: Reading<Statement>)
    requires p <= |toks|
    ensures r.Read? ==> p < r.next <= |toks|
  {
    var (doubled, p1) :- OpenHeader(toks, p);
    var (path, p2) :- ReadPath(toks, p1, 0);
    var (_, q) :- CloseHeader(toks, p2, doubled);
    Read(Header(doubled, path), q)
  }

  /** An entry has the rest of its line to itself. */
  function ReadLine(toks: seq<Token>, p: nat): (r: Reading<Statement>)
    requires p <= |toks|
    ensures r.Read? ==> p < r.next <= |toks|
  {
    var (e, p1) :- ReadEntry(toks, p);
    if At(toks, p1) != NewLine then Failed else
      var (_, q) :- Advance(toks, p1);
      Read(KeyVal(e), q)
  }

  /** All statements to the end of the text. */
  function ReadDocument(toks: seq<Token>, p: nat): (r: Reading<seq<Statement>>)
    requires p <= |toks|
    ensures r.Read? ==> r.next == |toks|
    decreases |toks| - p
  {
    if p == |toks| then Read([], p)
    else if toks[p] == NewLine then
      var (_, q) :- Advance(toks, p);
      ReadDocument(toks, q)
    else
      var (s, q) :- if toks[p].Str? then ReadLine(toks, p) else if toks[p].LBracket? then ReadHeader(toks, p) else Failed;
      var (more, end) :- ReadDocument(toks, q);
      Read([s] + more, end)
  }
}

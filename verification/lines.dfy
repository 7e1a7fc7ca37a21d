/** Source positions: a table of line starts and binary search in it, against a walk over
    the characters. */
module Lines {
  import opened Options

  // ----- Lines of a text -----

  function Newlines(s: string, n: nat): nat
    requires n <= |s|
  {
    if n == 0 then 0 else Newlines(s, n - 1) + if s[n - 1] == '\n' then 1 else 0
  }

  /** Where the line that holds position `n` starts. */
  function LineStart(s: string, n: nat): (i: nat)
    requires n <= |s|
    ensures i <= n && (i > 0 ==> s[i - 1] == '\n') && forall k | i <= k < n :: s[k] != '\n'
  {
    if n == 0 || s[n - 1] == '\n' then n else LineStart(s, n - 1)
  }

  /** Position 0, and the position after each newline among the first `n` characters. */
  function LineTable(s: string, n: nat): (t: seq<nat>)
    requires n <= |s|
    ensures |t| == Newlines(s, n) + 1
  {
    if n == 0 then [0] else LineTable(s, n - 1) + if s[n - 1] == '\n' then [n] else []
  }

  predicate Increasing(t: seq<nat>) {
    forall i, j | 0 <= i < j < |t| :: t[i] < t[j]
  }

  lemma {:induction false} TableIncreasing(s: string, n: nat)
    requires n <= |s|
    ensures Increasing(LineTable(s, n)) && forall i | 0 <= i < |LineTable(s, n)| :: LineTable(s, n)[i] <= n
  {
    if n > 0 {
      TableIncreasing(s, n - 1);
    }
  }

  /** Entry k of the table is where line k starts. */
  lemma {:induction false} TableEntry(s: string, n: nat, p: nat)
    requires p <= n <= |s|
    ensures Newlines(s, p) <= Newlines(s, n)
    ensures LineTable(s, n)[Newlines(s, p)] == LineStart(s, p)
    ensures Newlines(s, p) < Newlines(s, n) ==> LineTable(s, n)[Newlines(s, p) + 1] > p
  {
    if n > 0 {
      if p < n {
        TableEntry(s, n - 1, p);
      } else if s[n - 1] != '\n' {
        TableEntry(s, n - 1, n - 1);
      }
    }
  }

  // ----- Binary search -----

  /** `get_line_num`: the last entry that is not after `tgt`. */
  method GetLineNum(starts: seq<nat>, tgt: int) returns (r: Option<nat>)
    ensures r.None? <==> starts == [] || tgt < starts[0]
    ensures Increasing(starts) && r.Some? ==>
      r.value < |starts| && starts[r.value] <= tgt && (r.value + 1 < |starts| ==> tgt < starts[r.value + 1])
  {
    if |starts| == 0 {
      return None;
    }
    if tgt < starts[0] {
      return None;
    }
    var lo: nat, hi: nat := 0, |starts|;
    while lo + 1 < hi
      invariant lo < hi <= |starts|
      invariant starts[lo] <= tgt && (hi < |starts| ==> tgt < starts[hi])
    {
      var mid := lo + (hi - lo) / 2;
      if tgt < starts[mid] {
        hi := mid;
      } else {
        lo := mid;
      }
    }
    return Some(lo);
  }

  /** In the table of the first `n` characters the search counts the newlines before the
      target, as far as the table goes. */
  lemma SearchCountsNewlines(s: string, n: nat, tgt: nat, r: nat)
    requires n <= |s| && r < |LineTable(s, n)|
    requires LineTable(s, n)[r] <= tgt && (r + 1 < |LineTable(s, n)| ==> tgt < LineTable(s, n)[r + 1])
    ensures r == Newlines(s, if tgt <= n then tgt else n)
  {
    TableIncreasing(s, n);
    var t := LineTable(s, n);
    var p := if tgt <= n then tgt else n;
    TableEntry(s, n, p);
    SearchIsUnique(t, tgt, r, Newlines(s, p));
  }

  lemma SearchIsUnique(t: seq<nat>, tgt: int, a: nat, b: nat)
    requires Increasing(t) && a < |t| && b < |t|
    requires t[a] <= tgt && (a + 1 < |t| ==> tgt < t[a + 1])
    requires t[b] <= tgt && (b + 1 < |t| ==> tgt < t[b + 1])
    ensures a == b
  {
  }

  // ----- Positions -----

  datatype Pos = Pos(line: nat, col: nat, lineStart: nat, lineLen: nat)

  function LineEnd(s: string, i: nat): (e: nat)
    requires i <= |s|
    ensures i <= e <= |s| && (e < |s| ==> s[e] == '\n') && forall k | i <= k < e :: s[k] != '\n'
    decreases |s| - i
  {
    if i == |s| || s[i] == '\n' then i else LineEnd(s, i + 1)
  }

  /** What a reader means by the position of character `p`: lines and columns from 1. */
  function PosOf(s: string, p: nat): Pos
    requires p <= |s|
  {
    var i := LineStart(s, p);
    Pos(Newlines(s, p) + 1, p - i + 1, i, LineEnd(s, i) - i)
  }

  /** Lines and columns count from 1; a newline ends its line, and any other character moves
      one column on. */
  lemma PosSteps(s: string, p: nat)
    requires p <= |s|
    ensures p == 0 ==> PosOf(s, p).line == 1 && PosOf(s, p).col == 1 && PosOf(s, p).lineStart == 0
    ensures p > 0 ==>
              var was, now := PosOf(s, p - 1), PosOf(s, p);
              if s[p - 1] == '\n' then now.line == was.line + 1 && now.col == 1 && now.lineStart == p
              else now.line == was.line && now.col == was.col + 1 && now.lineStart == was.lineStart
  {
  }

  method LineLength(s: string, start: nat) returns (len: nat)
    requires start <= |s|
    ensures len == LineEnd(s, start) - start
  {
    var end := start;
    while end < |s| && s[end] != '\n'
      invariant start <= end <= |s| && LineEnd(s, start) == LineEnd(s, end)
    {
      end := end + 1;
    }
    len := end - start;
  }

  /** The walk over the characters before `ptr`. */
  method WalkPos(source: string, ptr: int) returns (pos: Pos)
    requires ptr <= |source|
    ensures pos == PosOf(source, if ptr < 0 then 0 else ptr)
  {
    var line: nat, col: nat, lineStart: nat := 1, 1, 0;
    var p: nat := 0;
    while p < ptr
      invariant p <= |source| && (ptr >= 0 ==> p <= ptr) && (ptr < 0 ==> p == 0)
      invariant line == Newlines(source, p) + 1
      invariant lineStart == LineStart(source, p) && col == p - lineStart + 1
    {
      if source[p] == '\n' {
        line, col, lineStart := line + 1, 1, p + 1;
      } else {
        col := col + 1;
      }
      p := p + 1;
    }
    var len := LineLength(source, lineStart);
    pos := Pos(line, col, lineStart, len);
  }

  /** The path through the table of a file that has been lexed up to `lexed`. */
  method TablePos(source: string, starts: seq<nat>, ghost lexed: nat, ptr: int) returns (pos: Option<Pos>)
    requires lexed <= |source| && starts == LineTable(source, lexed)
    ensures pos == if ptr < 0 then None else Some(Covered(source, lexed, ptr))
  {
    hide LineTable, Newlines, LineStart, LineEnd, Increasing;
    TableIncreasing(source, lexed);
    FirstLine(source, lexed);
    var index := GetLineNum(starts, ptr);
    if index.None? {
      return None;
    }
    var lineStart := starts[index.value];
    SearchCountsNewlines(source, lexed, ptr, index.value);
    TableEntry(source, lexed, if ptr <= lexed then ptr else lexed);
    var len := LineLength(source, lineStart);
    pos := Some(Pos(index.value + 1, ptr - lineStart + 1, lineStart, len));
  }

  lemma FirstLine(s: string, n: nat)
    requires n <= |s|
    ensures |LineTable(s, n)| >= 1 && LineTable(s, n)[0] == 0
  {
    TableEntry(s, n, 0);
    assert Newlines(s, 0) == 0 && LineStart(s, 0) == 0;
  }

  /** The position a table of the first `n` characters gives: lines after them run on. */
  function Covered(s: string, n: nat, p: nat): Pos
    requires n <= |s|
  {
    var q := if p <= n then p else n;
    var i := LineStart(s, q);
    Pos(Newlines(s, q) + 1, p - i + 1, i, LineEnd(s, i) - i)
  }

  /** A table is as good as the walk exactly when no newline lies between where it ends and
      the pointer. */
  lemma TableAgreesWithWalk(s: string, n: nat, p: nat)
    requires n <= |s| && p <= |s|
    ensures Covered(s, n, p) == PosOf(s, p) <==> p <= n || forall k | n <= k < p :: s[k] != '\n'
  {
    if p > n {
      NoNewlineBetween(s, n, p);
      if forall k | n <= k < p :: s[k] != '\n' {
        SameLine(s, n, p);
      }
    }
  }

  lemma {:induction false} NoNewlineBetween(s: string, n: nat, p: nat)
    requires n <= p <= |s|
    ensures Newlines(s, n) <= Newlines(s, p)
    ensures Newlines(s, n) == Newlines(s, p) <==> forall k | n <= k < p :: s[k] != '\n'
  {
    if n < p {
      NoNewlineBetween(s, n, p - 1);
    }
  }

  lemma {:induction false} SameLine(s: string, n: nat, p: nat)
    requires n <= p <= |s| && forall k | n <= k < p :: s[k] != '\n'
    ensures LineStart(s, p) == LineStart(s, n)
  {
    if n < p {
      SameLine(s, n, p - 1);
    }
  }

  /** `resolve_pos`: through the table, or else by walking. */
  method ResolvePos(source: string, starts: Option<seq<nat>>, ghost lexed: nat, ptr: int) returns (pos: Pos)
    requires lexed <= |source| && ptr <= |source|
    requires starts.Some? ==> starts.value == LineTable(source, lexed)
    ensures pos == if ptr < 0 then PosOf(source, 0) else if starts.None? then PosOf(source, ptr) else Covered(source, lexed, ptr)
  {
    if starts.Some? {
      var found := TablePos(source, starts.value, lexed, ptr);
      if found.Some? {
        return found.value;
      }
    }
    pos := WalkPos(source, ptr);
  }
}

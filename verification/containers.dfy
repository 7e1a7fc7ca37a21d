/** Pack containers: a header, an index that is filled in after the units behind it have
    been appended, and the units. */
module Containers {
  import opened Options
  import opened Bytes

  const HEADER_SIZE: nat := 24
  const ENTRY_SIZE: nat := 24
  const MAGIC: nat := 0x4B434150
  const VERSION: nat := 1

  // ----- Little-endian numbers -----

  function Power(k: nat): (p: nat)
    ensures p >= 1
  {
    if k == 0 then 1 else 256 * Power(k - 1)
  }

  function Le(v: nat, k: nat): (b: seq<Byte>)
    ensures |b| == k
  {
    if k == 0 then [] else [v % 256] + Le(v / 256, k - 1)
  }

  function FromLe(b: seq<Byte>): nat {
    if b == [] then 0 else b[0] as int + 256 * FromLe(b[1..])
  }

  lemma {:induction false} LeReadsBack(v: nat, k: nat)
    requires v < Power(k)
    ensures FromLe(Le(v, k)) == v
  {
    if k > 0 {
      LeReadsBack(v / 256, k - 1);
      assert Le(v, k)[1..] == Le(v / 256, k - 1);
    }
  }

  // ----- The format -----

  datatype UnitEntry = UnitEntry(offset: nat, size: nat, group: Byte, pad: seq<Byte>)

  function EntryBytes(e: UnitEntry): (b: seq<Byte>)
    requires |e.pad| == 7
    ensures |b| == ENTRY_SIZE
  {
    Le(e.offset, 8) + Le(e.size, 8) + [e.group] + e.pad
  }

  predicate Padded(es: seq<UnitEntry>) {
    forall i | 0 <= i < |es| :: |es[i].pad| == 7
  }

  function IndexBytes(es: seq<UnitEntry>): (b: seq<Byte>)
    requires Padded(es)
    ensures |b| == ENTRY_SIZE * |es|
  {
    if es == [] then [] else IndexBytes(es[..|es| - 1]) + EntryBytes(es[|es| - 1])
  }

  function HeaderBytes(hash: nat, count: nat): (b: seq<Byte>)
    ensures |b| == HEADER_SIZE
  {
    Le(MAGIC, 4) + Le(VERSION, 4) + Le(hash, 8) + Le(count, 4) + Le(0, 4)
  }

  datatype Unit = Unit(group: Byte, bytes: seq<Byte>)

  function Body(us: seq<Unit>): seq<Byte> {
    if us == [] then [] else Body(us[..|us| - 1]) + us[|us| - 1].bytes
  }

  /** Where unit `i` starts. */
  function OffsetOf(us: seq<Unit>, i: nat): nat
    requires i <= |us|
  {
    HEADER_SIZE + ENTRY_SIZE * |us| + |Body(us[..i])|
  }

  /** The entry of each unit; padding is whatever memory the entries lie in. */
  ghost predicate Describes(es: seq<UnitEntry>, us: seq<Unit>) {
    && |es| == |us| && Padded(es)
    && forall i | 0 <= i < |us| :: es[i].offset == OffsetOf(us, i) && es[i].size == |us[i].bytes| && es[i].group == us[i].group
  }

  ghost predicate IsContainer(buf: seq<Byte>, hash: nat, us: seq<Unit>) {
    exists es :: Describes(es, us) && buf == HeaderBytes(hash, |us|) + IndexBytes(es) + Body(us)
  }

  // ----- Writing -----

  /** `memcpy` over a stretch of the buffer. */
  function Patched(buf: seq<Byte>, at: nat, bytes: seq<Byte>): (r: seq<Byte>)
    requires at + |bytes| <= |buf|
    ensures |r| == |buf|
  {
    buf[..at] + bytes + buf[at + |bytes|..]
  }

  lemma {:induction false} PatchMiddle(a: seq<Byte>, b: seq<Byte>, c: seq<Byte>, b': seq<Byte>)
    requires |b'| == |b|
    ensures Patched(a + b + c, |a|, b') == a + b' + c
  {
    assert (a + b + c)[..|a|] == a && (a + b + c)[|a| + |b|..] == c;
  }

  /** The common shape of the merge functions: header, an index still to be filled in (here
      `entries` holds whatever the fresh memory does), the units, then the index again. */
  method BuildContainer(hash: nat, us: seq<Unit>, junk: seq<UnitEntry>) returns (buf: seq<Byte>)
    requires |junk| == |us| && Padded(junk)
    ensures IsContainer(buf, hash, us)
  {
    var entries := junk;
    var header := HeaderBytes(hash, |us|);
    buf := header;
    var indexPos := |buf|;
    buf := buf + IndexBytes(entries);
    ghost var front := buf;
    hide HeaderBytes, IndexBytes;
    for i := 0 to |us|
      invariant |entries| == |us| && Padded(entries)
      invariant buf == front + Body(us[..i])
      invariant forall k | 0 <= k < i ::
        entries[k].offset == OffsetOf(us, k) && entries[k].size == |us[k].bytes| && entries[k].group == us[k].group
    {
      assert us[..i + 1][..i] == us[..i];
      entries := entries[i := entries[i].(offset := |buf|, group := us[i].group, size := |us[i].bytes|)];
      AppendBody(front, Body(us[..i]), us[i].bytes);
      buf := buf + us[i].bytes;
    }
    assert us[..|us|] == us;
    PatchMiddle(header, IndexBytes(junk), Body(us), IndexBytes(entries));
    buf := Patched(buf, indexPos, IndexBytes(entries));
    assert Describes(entries, us);
  }

  lemma {:induction false} AppendBody(front: seq<Byte>, body: seq<Byte>, unit_: seq<Byte>)
    ensures front + body + unit_ == front + (body + unit_)
  {
  }

  /** Numbers are written low byte first. */
  lemma LowByteFirst(v: nat, k: nat)
    ensures Le(v, 4 + k) == [v % 256, v / 256 % 256, v / 256 / 256 % 256, v / 256 / 256 / 256 % 256] + Le(v / 256 / 256 / 256 / 256, k)
    ensures Le(v, 0) == []
  {
    hide *;
    LowestByte(v, 3 + k);
    LowestByte(v / 256, 2 + k);
    LowestByte(v / 256 / 256, 1 + k);
    LowestByte(v / 256 / 256 / 256, k);
  }

  lemma LowestByte(v: nat, k: nat)
    ensures Le(v, k + 1) == [v % 256] + Le(v / 256, k) && Le(v, 0) == []
  {
  }

  /** A file starts with the letters PACK and the version, and the first unit follows 24 bytes
      of header and as many for each unit. */
  lemma FileFront(buf: seq<Byte>, hash: nat, us: seq<Unit>)
    requires IsContainer(buf, hash, us)
    ensures |buf| == 24 + 24 * |us| + |Body(us)|
    ensures buf[..8] == ['P' as int, 'A' as int, 'C' as int, 'K' as int, 1, 0, 0, 0]
    ensures buf[8..16] == Le(hash, 8) && buf[16..20] == Le(|us|, 4) && buf[20..24] == [0, 0, 0, 0]
    ensures buf[24 + 24 * |us|..] == Body(us)
  {
    hide Le, Body, HeaderBytes, IndexBytes;
    var es :| Describes(es, us) && buf == HeaderBytes(hash, |us|) + IndexBytes(es) + Body(us);
    HeaderFront(hash, |us|);
    Front(HeaderBytes(hash, |us|), IndexBytes(es), Body(us), |us|);
  }

  lemma Front(header: seq<Byte>, index: seq<Byte>, body: seq<Byte>, n: nat)
    requires |header| == 24 && |index| == 24 * n
    ensures var buf := header + index + body;
            && buf[..8] == header[..8] && buf[8..16] == header[8..16] && buf[16..20] == header[16..20] && buf[20..24] == header[20..24]
            && |buf| == 24 + 24 * n + |body| && buf[24 + 24 * n..] == body
  {
  }

  lemma HeaderFront(hash: nat, count: nat)
    ensures var b := HeaderBytes(hash, count);
            && b[..8] == ['P' as int, 'A' as int, 'C' as int, 'K' as int, 1, 0, 0, 0]
            && b[8..16] == Le(hash, 8) && b[16..20] == Le(count, 4) && b[20..24] == [0, 0, 0, 0]
  {
    hide Le;
    LowByteFirst(MAGIC, 0);
    LowByteFirst(1, 0);
    LowByteFirst(0, 0);
  }

  // ----- Reading -----

  /** The unit an index entry leads to. */
  function UnitAt(buf: seq<Byte>, i: nat): Option<Unit> {
    var at := HEADER_SIZE + ENTRY_SIZE * i;
    if at + ENTRY_SIZE > |buf| then None else
      var offset := FromLe(buf[at..at + 8]);
      var size := FromLe(buf[at + 8..at + 16]);
      if offset + size > |buf| then None else Some(Unit(buf[at + 16], buf[offset..offset + size]))
  }

  function UnitCount(buf: seq<Byte>): nat
    requires |buf| >= HEADER_SIZE
  {
    FromLe(buf[16..20])
  }

  lemma {:induction false} IndexSlice(es: seq<UnitEntry>, i: nat)
    requires Padded(es) && i < |es|
    ensures IndexBytes(es)[ENTRY_SIZE * i..ENTRY_SIZE * (i + 1)] == EntryBytes(es[i])
    decreases es
  {
    var n := |es| - 1;
    if i < n {
      IndexSlice(es[..n], i);
    }
  }

  lemma {:induction false} BodySlice(us: seq<Unit>, i: nat)
    requires i < |us|
    ensures |Body(us[..i])| + |us[i].bytes| <= |Body(us)|
    ensures Body(us)[|Body(us[..i])|..|Body(us[..i])| + |us[i].bytes|] == us[i].bytes
    decreases us
  {
    var n := |us| - 1;
    var at, init := |Body(us[..i])|, Body(us[..n]);
    assert Body(us) == init + us[n].bytes;
    if i < n {
      BodySlice(us[..n], i);
      assert us[..n][..i] == us[..i];
      assert Body(us)[at..at + |us[i].bytes|] == init[at..at + |us[i].bytes|];
    }
  }

  /** Offsets step by the sizes: the units follow each other without gap or overlap, from
      the end of the index to the end of the file. */
  lemma {:induction false} UnitsTile(buf: seq<Byte>, hash: nat, us: seq<Unit>)
    requires IsContainer(buf, hash, us)
    ensures OffsetOf(us, 0) == 24 + 24 * |us| && OffsetOf(us, |us|) == |buf|
    ensures forall i | 0 <= i < |us| :: OffsetOf(us, i + 1) == OffsetOf(us, i) + |us[i].bytes|
  {
    assert us[..0] == [] && us[..|us|] == us;
    forall i | 0 <= i < |us|
      ensures OffsetOf(us, i + 1) == OffsetOf(us, i) + |us[i].bytes|
    {
      assert us[..i + 1][..i] == us[..i];
    }
  }

  /** Following the index gives each unit back, byte for byte. */
  lemma {:induction false} UnitsReadBack(buf: seq<Byte>, hash: nat, us: seq<Unit>)
    requires IsContainer(buf, hash, us) && |buf| < Power(8) && |us| < Power(4)
    ensures |buf| >= 24 && UnitCount(buf) == |us|
    ensures forall i | 0 <= i < |us| :: UnitAt(buf, i) == Some(us[i])
  {
    var es :| Describes(es, us) && buf == HeaderBytes(hash, |us|) + IndexBytes(es) + Body(us);
    AppendBody(HeaderBytes(hash, |us|), IndexBytes(es), Body(us));
    HeaderCount(buf, hash, |us|, IndexBytes(es) + Body(us));
    forall i | 0 <= i < |us|
      ensures UnitAt(buf, i) == Some(us[i])
    {
      UnitReadsBack(buf, hash, us, es, i);
    }
    hide *;
  }

  lemma {:induction false} HeaderCount(buf: seq<Byte>, hash: nat, count: nat, rest: seq<Byte>)
    requires buf == HeaderBytes(hash, count) + rest && count < Power(4)
    ensures UnitCount(buf) == count
  {
    hide Le, FromLe;
    LeReadsBack(count, 4);
    assert buf[16..20] == Le(count, 4);
  }

  lemma {:induction false} UnitReadsBack(buf: seq<Byte>, hash: nat, us: seq<Unit>, es: seq<UnitEntry>, i: nat)
    requires Describes(es, us) && buf == HeaderBytes(hash, |us|) + IndexBytes(es) + Body(us)
    requires |buf| < Power(8) && i < |us|
    ensures UnitAt(buf, i) == Some(us[i])
  {
    hide HeaderBytes, IndexBytes, EntryBytes, Le, FromLe;
    var e, at := es[i], HEADER_SIZE + ENTRY_SIZE * i;
    EntryStands(buf, HeaderBytes(hash, |us|), es, Body(us), i);
    BodySlice(us, i);
    LeReadsBack(e.offset, 8);
    LeReadsBack(e.size, 8);
    BodyStands(buf, HeaderBytes(hash, |us|) + IndexBytes(es), us, i);
  }

  lemma {:induction false} EntryStands(buf: seq<Byte>, header: seq<Byte>, es: seq<UnitEntry>, body: seq<Byte>, i: nat)
    requires |header| == HEADER_SIZE && Padded(es) && i < |es| && buf == header + IndexBytes(es) + body
    ensures var at := HEADER_SIZE + ENTRY_SIZE * i;
            && at + ENTRY_SIZE <= |buf| && buf[at..at + 8] == Le(es[i].offset, 8)
            && buf[at + 8..at + 16] == Le(es[i].size, 8) && buf[at + 16] == es[i].group
  {
    hide IndexBytes, Le;
    IndexSlice(es, i);
    var at, e := HEADER_SIZE + ENTRY_SIZE * i, EntryBytes(es[i]);
    assert buf[at..at + ENTRY_SIZE] == e;
    SliceOfSlice(buf, at, e, 0, 8);
    SliceOfSlice(buf, at, e, 8, 16);
    assert buf[at..at + ENTRY_SIZE][16] == e[16];
  }

  lemma SliceOfSlice(buf: seq<Byte>, at: nat, e: seq<Byte>, a: nat, b: nat)
    requires at + |e| <= |buf| && buf[at..at + |e|] == e && a <= b <= |e|
    ensures buf[at + a..at + b] == e[a..b]
  {
    forall i | a <= i < b
      ensures buf[at + i] == e[i]
    {
      assert buf[at..at + |e|][i] == buf[at + i];
    }
    assert |buf[at + a..at + b]| == |e[a..b]|;
  }

  lemma {:induction false} BodyStands(buf: seq<Byte>, front: seq<Byte>, us: seq<Unit>, i: nat)
    requires buf == front + Body(us) && |front| == HEADER_SIZE + ENTRY_SIZE * |us| && i < |us|
    ensures OffsetOf(us, i) + |us[i].bytes| <= |buf|
    ensures buf[OffsetOf(us, i)..OffsetOf(us, i) + |us[i].bytes|] == us[i].bytes
  {
    BodySlice(us, i);
  }
}

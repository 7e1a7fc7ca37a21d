/** The byte codec of a project's configuration: a growing buffer, and a reader whose `ok`
    flag, once lost, stays lost. */
module ConfigCodec {
  import opened Options
  import opened Bytes

  type Text = seq<Byte>

  datatype Dep = Dep(key: Option<Text>, version: Option<Text>, builtin: bool)

  /** The fields the codec carries; an absent string is a null pointer. */
  datatype Config = Config(valid: bool, name: Option<Text>, license: Option<Text>, authors: seq<Option<Text>>, deps: seq<Dep>)

  const EMPTY := Config(false, None, None, [], [])

  // ----- Encoding -----

  /** `strlen` */
  function Strlen(s: Text): (n: nat)
    ensures n <= |s| && forall i | 0 <= i < n :: s[i] != 0
    ensures n < |s| ==> s[n] == 0
  {
    if s == [] || s[0] == 0 then 0 else 1 + Strlen(s[1..])
  }

  function Le16(v: nat): (b: seq<Byte>)
    requires v < 0x1_0000
    ensures |b| == 2
  {
    [v % 256, v / 256]
  }

  /** How many bytes of a string are written: its length cut to 16 bits. */
  function Written(s: Option<Text>): (n: nat)
    ensures n < 0x1_0000 && (s.Some? ==> n <= |s.value|) && (s.None? ==> n == 0)
  {
    match s
    case None => 0
    case Some(t) => Strlen(t) % 0x1_0000
  }

  function Str(s: Option<Text>): seq<Byte> {
    Le16(Written(s)) + (if s.Some? then s.value[..Written(s)] else [])
  }

  function Strs(ss: seq<Option<Text>>): seq<Byte> {
    if ss == [] then [] else Strs(ss[..|ss| - 1]) + Str(ss[|ss| - 1])
  }

  function OneDep(d: Dep): seq<Byte> {
    Str(d.key) + Str(d.version) + Flag(d)
  }

  function Flag(d: Dep): (b: seq<Byte>)
    ensures |b| == 1
  {
    [if d.builtin then 1 else 0]
  }

  function Deps(ds: seq<Dep>): seq<Byte> {
    if ds == [] then [] else Deps(ds[..|ds| - 1]) + OneDep(ds[|ds| - 1])
  }

  function Serialized(c: Config): seq<Byte> {
    if !c.valid then [0] else
      [1] + Str(c.name) + Str(c.license)
      + Le16(|c.authors| % 0x1_0000) + Strs(c.authors)
      + Le16(|c.deps| % 0x1_0000) + Deps(c.deps)
  }

  /** Lengths and counts are written low byte first. */
  lemma LowByteFirst(v: nat)
    requires v < 0x1_0000
    ensures Le16(v)[0] as int + 256 * (Le16(v)[1] as int) == v && FromLe(Le16(v)[0], Le16(v)[1]) == v
    ensures v < 256 ==> Le16(v) == [v, 0]
  {
  }

  /** A validity byte, then name, license, authors and dependencies: a project called `a` with
      no license, one author `bc` and one built-in dependency `d` without a version. */
  lemma FieldOrder()
    ensures Serialized(Config(false, Some([97]), None, [], [])) == [0]
    ensures Serialized(Config(true, Some([97]), None, [Some([98, 99])], [Dep(Some([100]), None, true)]))
         == [1, 1, 0, 97, 0, 0, 1, 0, 2, 0, 98, 99, 1, 0, 1, 0, 100, 0, 0, 1]
  {
    hide Str, Strs, Deps, OneDep;
    StrExamples();
    ListExamples();
    LowByteFirst(1);
  }

  lemma ListExamples()
    ensures Strs([Some([98, 99])]) == [2, 0, 98, 99]
    ensures Deps([Dep(Some([100]), None, true)]) == [1, 0, 100, 0, 0, 1]
  {
    var d := Dep(Some([100]), None, true);
    StrExamples();
    hide Str;
    assert [Some([98, 99])][..0] == [] && [d][..0] == [];
    assert Strs([]) == [] && Deps([]) == [];
    assert OneDep(d) == [1, 0, 100, 0, 0, 1];
  }

  lemma StrExamples()
    ensures Str(None) == [0, 0] && Str(Some([97])) == [1, 0, 97] && Str(Some([98, 99])) == [2, 0, 98, 99] && Str(Some([100])) == [1, 0, 100]
  {
    NoZeros([]);
    NoZeros([97]);
    NoZeros([98, 99]);
    NoZeros([100]);
    assert [97][..1] == [97] && [98, 99][..2] == [98, 99] && [100][..1] == [100];
    hide Strlen;
  }

  lemma {:induction false} NoZeros(s: Text)
    requires forall i | 0 <= i < |s| :: s[i] != 0
    ensures Strlen(s) == |s|
  {
    if s != [] {
      NoZeros(s[1..]);
    }
  }

  lemma AppendAll(z: seq<Byte>, a: seq<Byte>, b: seq<Byte>, c: seq<Byte>, d: seq<Byte>, e: seq<Byte>, f: seq<Byte>, g: seq<Byte>)
    ensures z + a + b + c + d + e + f + g == z + (a + b + c + d + e + f + g)
  {
    assert z + a + b == z + (a + b);
    assert z + (a + b) + c == z + (a + b + c);
    assert z + (a + b + c) + d == z + (a + b + c + d);
    assert z + (a + b + c + d) + e == z + (a + b + c + d + e);
    assert z + (a + b + c + d + e) + f == z + (a + b + c + d + e + f);
  }

  class ByteBuf {
    var data: seq<Byte>

    constructor ()
      ensures data == []
    {
      data := [];
    }

    method PushRaw(bytes: seq<Byte>)
      modifies this
      ensures data == old(data) + bytes
    {
      data := data + bytes;
    }

    method PushStr(s: Option<Text>)
      modifies this
      ensures data == old(data) + Str(s)
    {
      var len := Written(s);
      PushRaw(Le16(len));
      if len != 0 {
        PushRaw(s.value[..len]);
      }
    }

    /** `config_serialize` */
    method Serialize(c: Config)
      modifies this
      ensures data == old(data) + Serialized(c)
    {
      ghost var d := data;
      PushRaw([if c.valid then 1 else 0]);
      if !c.valid {
        return;
      }
      var authorCount, depCount := Le16(|c.authors| % 0x1_0000), Le16(|c.deps| % 0x1_0000);
      AppendAll(d, [1], Str(c.name), Str(c.license), authorCount, Strs(c.authors), depCount, Deps(c.deps));
      hide Str, Strs, Deps, Le16;
      PushStr(c.name);
      PushStr(c.license);
      PushRaw(authorCount);
      PushStrs(c.authors);
      PushRaw(depCount);
      PushDeps(c.deps);
    }

    method PushStrs(ss: seq<Option<Text>>)
      modifies this
      ensures data == old(data) + Strs(ss)
    {
      hide Str;
      for i := 0 to |ss|
        invariant data == old(data) + Strs(ss[..i])
      {
        assert ss[..i + 1][..i] == ss[..i];
        PushStr(ss[i]);
      }
      assert ss[..|ss|] == ss;
    }

    method PushDeps(ds: seq<Dep>)
      modifies this
      ensures data == old(data) + Deps(ds)
    {
      hide Str;
      for i := 0 to |ds|
        invariant data == old(data) + Deps(ds[..i])
      {
        assert ds[..i + 1][..i] == ds[..i];
        PushStr(ds[i].key);
        PushStr(ds[i].version);
        PushRaw(Flag(ds[i]));
      }
      assert ds[..|ds|] == ds;
    }
  }

  // ----- Decoding -----

  /** Where a reader stands. */
  datatype Cursor = Cursor(pos: nat, ok: bool)

  datatype Got<T> = Got(value: T, at: Cursor)

  function CanRead(buf: seq<Byte>, r: Cursor, n: nat): bool {
    r.ok && r.pos + n <= |buf|
  }

  function TakeU8(buf: seq<Byte>, r: Cursor): Got<Byte> {
    if CanRead(buf, r, 1) then Got(buf[r.pos], Cursor(r.pos + 1, true)) else Got(0, r.(ok := false))
  }

  function FromLe(lo: int, hi: int): int {
    lo + 256 * hi
  }

  function TakeU16(buf: seq<Byte>, r: Cursor): (g: Got<nat>)
    ensures g.value < 0x1_0000
  {
    if CanRead(buf, r, 2) then Got(FromLe(buf[r.pos], buf[r.pos + 1]), Cursor(r.pos + 2, true)) else Got(0, r.(ok := false))
  }

  function TakeStr(buf: seq<Byte>, r: Cursor): Got<Option<Text>> {
    var len := TakeU16(buf, r);
    if !len.at.ok || len.value == 0 then Got(None, len.at)
    else if len.at.pos + len.value > |buf| then Got(None, len.at.(ok := false))
    else Got(Some(buf[len.at.pos..len.at.pos + len.value]), Cursor(len.at.pos + len.value, true))
  }

  function TakeStrs(buf: seq<Byte>, r: Cursor, n: nat): (g: Got<seq<Option<Text>>>)
    ensures |g.value| == n
  {
    if n == 0 then Got([], r) else
      var init := TakeStrs(buf, r, n - 1);
      var s := TakeStr(buf, init.at);
      Got(init.value + [s.value], s.at)
  }

  function TakeDep(buf: seq<Byte>, r: Cursor): Got<Dep> {
    var key := TakeStr(buf, r);
    var version := TakeStr(buf, key.at);
    var flag := TakeU8(buf, version.at);
    Got(Dep(key.value, version.value, flag.value == 1), flag.at)
  }

  function TakeDeps(buf: seq<Byte>, r: Cursor, n: nat): (g: Got<seq<Dep>>)
    ensures |g.value| == n
  {
    if n == 0 then Got([], r) else
      var init := TakeDeps(buf, r, n - 1);
      var d := TakeDep(buf, init.at);
      Got(init.value + [d.value], d.at)
  }

  /** The configuration after its first byte, and where reading it ends. */
  function TakeBody(buf: seq<Byte>, r: Cursor): Got<Config> {
    var name := TakeStr(buf, r);
    var license := TakeStr(buf, name.at);
    var authorCount := TakeU16(buf, license.at);
    var authors := TakeStrs(buf, authorCount.at, authorCount.value);
    var depCount := TakeU16(buf, authors.at);
    var deps := TakeDeps(buf, depCount.at, depCount.value);
    Got(Config(deps.at.ok, name.value, license.value, authors.value, deps.value), deps.at)
  }

  function Deserialized(buf: seq<Byte>): Config {
    var first := TakeU8(buf, Cursor(0, true));
    if first.value == 0 then EMPTY else TakeBody(buf, first.at).value
  }

  class ByteReader {
    const buf: seq<Byte>
    var pos: nat
    var ok: bool

    ghost function At(): Cursor
      reads this
    {
      Cursor(pos, ok)
    }

    constructor (data: seq<Byte>)
      ensures buf == data && At() == Cursor(0, true)
    {
      buf, pos, ok := data, 0, true;
    }

    /** `br_read`: the next `n` bytes, or nothing and the end of `ok`. */
    method Read(n: nat) returns (bytes: seq<Byte>, done: bool)
      modifies this
      ensures done == CanRead(buf, old(At()), n)
      ensures done ==> bytes == buf[old(pos)..old(pos) + n] && At() == Cursor(old(pos) + n, true)
      ensures !done ==> At() == old(At()).(ok := false)
    {
      if !ok || pos + n > |buf| {
        ok := false;
        return [], false;
      }
      bytes, done := buf[pos..pos + n], true;
      pos := pos + n;
    }

    method U8() returns (v: Byte)
      modifies this
      ensures Got(v, At()) == TakeU8(buf, old(At()))
    {
      var b, done := Read(1);
      v := if done then b[0] else 0;
    }

    method U16() returns (v: nat)
      modifies this
      ensures Got(v, At()) == TakeU16(buf, old(At()))
    {
      var b, done := Read(2);
      v := if done then FromLe(b[0], b[1]) else 0;
    }

    method ReadStr() returns (s: Option<Text>)
      modifies this
      ensures Got(s, At()) == TakeStr(buf, old(At()))
    {
      var len := U16();
      if !ok || len == 0 {
        return None;
      }
      if pos + len > |buf| {
        ok := false;
        return None;
      }
      s := Some(buf[pos..pos + len]);
      pos := pos + len;
    }

    method ReadStrs(n: nat) returns (ss: seq<Option<Text>>)
      modifies this
      ensures Got(ss, At()) == TakeStrs(buf, old(At()), n)
    {
      ss := [];
      hide TakeStr;
      for i := 0 to n
        invariant Got(ss, At()) == TakeStrs(buf, old(At()), i)
      {
        var s := ReadStr();
        ss := ss + [s];
      }
    }

    method ReadDeps(n: nat) returns (ds: seq<Dep>)
      modifies this
      ensures Got(ds, At()) == TakeDeps(buf, old(At()), n)
    {
      ds := [];
      hide TakeStr, TakeU8;
      for i := 0 to n
        invariant Got(ds, At()) == TakeDeps(buf, old(At()), i)
      {
        var key := ReadStr();
        var version := ReadStr();
        var flag := U8();
        ds := ds + [Dep(key, version, flag == 1)];
      }
    }
  }

  /** `config_deserialize` */
  method Deserialize(data: seq<Byte>) returns (c: Config)
    ensures c == Deserialized(data)
  {
    hide TakeStr, TakeU8, TakeU16, TakeStrs, TakeDeps;
    var br := new ByteReader(data);
    var first := br.U8();
    if first == 0 {
      return EMPTY;
    }
    var name := br.ReadStr();
    var license := br.ReadStr();
    var authorCount := br.U16();
    var authors := br.ReadStrs(authorCount);
    var depCount := br.U16();
    var deps := br.ReadDeps(depCount);
    c := Config(br.ok, name, license, authors, deps);
  }

  // ----- What survives -----

  /** What reading a written string gives back: nothing for an empty one. */
  function Back(s: Option<Text>): Option<Text> {
    if Written(s) == 0 then None else Some(s.value[..Written(s)])
  }

  function BackAll(ss: seq<Option<Text>>): (r: seq<Option<Text>>)
    ensures |r| == |ss| && forall i | 0 <= i < |ss| :: r[i] == Back(ss[i])
  {
    if ss == [] then [] else BackAll(ss[..|ss| - 1]) + [Back(ss[|ss| - 1])]
  }

  function BackDep(d: Dep): Dep {
    Dep(Back(d.key), Back(d.version), d.builtin)
  }

  function BackDeps(ds: seq<Dep>): (r: seq<Dep>)
    ensures |r| == |ds| && forall i | 0 <= i < |ds| :: r[i] == BackDep(ds[i])
  {
    if ds == [] then [] else BackDeps(ds[..|ds| - 1]) + [BackDep(ds[|ds| - 1])]
  }

  /** The bytes `enc` stand in `buf` from `pos` on. */
  ghost predicate Stands(buf: seq<Byte>, pos: nat, enc: seq<Byte>) {
    pos + |enc| <= |buf| && buf[pos..pos + |enc|] == enc
  }

  lemma StandsSplit(buf: seq<Byte>, pos: nat, a: seq<Byte>, b: seq<Byte>)
    requires Stands(buf, pos, a + b)
    ensures Stands(buf, pos, a) && Stands(buf, pos + |a|, b)
  {
    var ab := a + b;
    assert buf[pos..pos + |ab|][..|a|] == a && buf[pos..pos + |ab|][|a|..] == b;
    assert buf[pos..pos + |a|] == buf[pos..pos + |ab|][..|a|];
    assert buf[pos + |a|..pos + |ab|] == buf[pos..pos + |ab|][|a|..];
  }

  lemma U16ReadsBack(buf: seq<Byte>, pos: nat, v: nat)
    requires v < 0x1_0000 && Stands(buf, pos, Le16(v))
    ensures TakeU16(buf, Cursor(pos, true)) == Got(v, Cursor(pos + 2, true))
  {
    assert buf[pos] == buf[pos..pos + 2][0] && buf[pos + 1] == buf[pos..pos + 2][1];
  }

  lemma StrReadsBack(buf: seq<Byte>, pos: nat, s: Option<Text>)
    requires Stands(buf, pos, Str(s))
    ensures TakeStr(buf, Cursor(pos, true)) == Got(Back(s), Cursor(pos + |Str(s)|, true))
  {
    var n := Written(s);
    StandsSplit(buf, pos, Le16(n), if s.Some? then s.value[..n] else []);
    U16ReadsBack(buf, pos, n);
    hide TakeU16, Le16, Strlen;
  }

  lemma {:induction false} StrsReadBack(buf: seq<Byte>, pos: nat, ss: seq<Option<Text>>)
    requires Stands(buf, pos, Strs(ss))
    ensures TakeStrs(buf, Cursor(pos, true), |ss|) == Got(BackAll(ss), Cursor(pos + |Strs(ss)|, true))
  {
    hide Str, TakeStr, Stands;
    if ss != [] {
      var k := |ss| - 1;
      StandsSplit(buf, pos, Strs(ss[..k]), Str(ss[k]));
      StrsReadBack(buf, pos, ss[..k]);
      StrReadsBack(buf, pos + |Strs(ss[..k])|, ss[k]);
    }
  }

  lemma DepReadsBack(buf: seq<Byte>, pos: nat, d: Dep)
    requires Stands(buf, pos, OneDep(d))
    ensures TakeDep(buf, Cursor(pos, true)) == Got(BackDep(d), Cursor(pos + |OneDep(d)|, true))
  {
    hide Str, TakeStr, Stands, TakeU8;
    StandsSplit(buf, pos, Str(d.key) + Str(d.version), Flag(d));
    StandsSplit(buf, pos, Str(d.key), Str(d.version));
    StrReadsBack(buf, pos, d.key);
    StrReadsBack(buf, pos + |Str(d.key)|, d.version);
    FlagReadsBack(buf, pos + |Str(d.key)| + |Str(d.version)|, d);
  }

  lemma FlagReadsBack(buf: seq<Byte>, pos: nat, d: Dep)
    requires Stands(buf, pos, Flag(d))
    ensures TakeU8(buf, Cursor(pos, true)) == Got(if d.builtin then 1 else 0, Cursor(pos + 1, true))
  {
    assert buf[pos] == buf[pos..pos + 1][0];
  }

  lemma {:induction false} DepsReadBack(buf: seq<Byte>, pos: nat, ds: seq<Dep>)
    requires Stands(buf, pos, Deps(ds))
    ensures TakeDeps(buf, Cursor(pos, true), |ds|) == Got(BackDeps(ds), Cursor(pos + |Deps(ds)|, true))
  {
    hide OneDep, TakeDep, Stands;
    if ds != [] {
      var k := |ds| - 1;
      StandsSplit(buf, pos, Deps(ds[..k]), OneDep(ds[k]));
      DepsReadBack(buf, pos, ds[..k]);
      DepReadsBack(buf, pos + |Deps(ds[..k])|, ds[k]);
    }
  }

  // ----- The round trip -----

  /** The counts are written whole. */
  predicate CountsFit(c: Config) {
    |c.authors| < 0x1_0000 && |c.deps| < 0x1_0000
  }

  lemma BodyReadsBack(buf: seq<Byte>, c: Config)
    requires c.valid && CountsFit(c) && buf == Serialized(c)
    ensures TakeBody(buf, Cursor(1, true)) ==
            Got(Config(true, Back(c.name), Back(c.license), BackAll(c.authors), BackDeps(c.deps)), Cursor(|buf|, true))
  {
    hide Str, Strs, Deps, Le16, TakeStr, TakeStrs, TakeDeps, TakeU16, Back, BackAll, BackDeps, Stands;
    PartsStand(buf, [1], Str(c.name), Str(c.license), Le16(|c.authors|), Strs(c.authors), Le16(|c.deps|), Deps(c.deps));
    hide Serialized;
    StrReadsBack(buf, 1, c.name);
    var p2 := 1 + |Str(c.name)|;
    StrReadsBack(buf, p2, c.license);
    var p3 := p2 + |Str(c.license)|;
    U16ReadsBack(buf, p3, |c.authors|);
    StrsReadBack(buf, p3 + 2, c.authors);
    var p4 := p3 + 2 + |Strs(c.authors)|;
    U16ReadsBack(buf, p4, |c.deps|);
    DepsReadBack(buf, p4 + 2, c.deps);
  }

  /** The parts of a concatenation stand one after the other. */
  lemma PartsStand(buf: seq<Byte>, a: seq<Byte>, b: seq<Byte>, c: seq<Byte>, d: seq<Byte>, e: seq<Byte>, f: seq<Byte>, g: seq<Byte>)
    requires buf == a + b + c + d + e + f + g
    ensures |buf| == |a| + |b| + |c| + |d| + |e| + |f| + |g|
    ensures Stands(buf, |a|, b) && Stands(buf, |a| + |b|, c) && Stands(buf, |a| + |b| + |c|, d)
    ensures Stands(buf, |a| + |b| + |c| + |d|, e) && Stands(buf, |a| + |b| + |c| + |d| + |e|, f)
    ensures Stands(buf, |a| + |b| + |c| + |d| + |e| + |f|, g)
  {
    WholeStands(buf);
    hide Stands;
    StandsSplit(buf, 0, a + b + c + d + e + f, g);
    StandsSplit(buf, 0, a + b + c + d + e, f);
    StandsSplit(buf, 0, a + b + c + d, e);
    StandsSplit(buf, 0, a + b + c, d);
    StandsSplit(buf, 0, a + b, c);
    StandsSplit(buf, 0, a, b);
  }

  lemma WholeStands(buf: seq<Byte>)
    ensures Stands(buf, 0, buf)
  {
    assert buf[0..|buf|] == buf;
  }

  /** What a reader of the encoding gets: strings cut at their first zero byte and at 16 bits
      of length, empty ones absent, everything else as it was. */
  function WhatReturns(c: Config): Config {
    if !c.valid then EMPTY
    else Config(true, Back(c.name), Back(c.license), BackAll(c.authors), BackDeps(c.deps))
  }

  lemma ReadsBack(c: Config)
    requires CountsFit(c)
    ensures Deserialized(Serialized(c)) == WhatReturns(c)
  {
    if c.valid {
      BodyReadsBack(Serialized(c), c);
    }
    hide TakeBody, Back, BackAll, BackDeps, Str, Strs, Deps, Le16;
  }

  // ----- The round trip is exact just when everything fits -----

  /** The same with empty strings absent, and nothing else changed. */
  function Normal(s: Option<Text>): Option<Text> {
    if s == Some([]) then None else s
  }

  predicate StrFits(s: Option<Text>) {
    s.Some? ==> |s.value| < 0x1_0000 && 0 !in s.value
  }

  predicate Fits(c: Config) {
    c.valid ==>
      && CountsFit(c) && StrFits(c.name) && StrFits(c.license)
      && (forall i | 0 <= i < |c.authors| :: StrFits(c.authors[i]))
      && (forall i | 0 <= i < |c.deps| :: StrFits(c.deps[i].key) && StrFits(c.deps[i].version))
  }

  /** `d` is `c` up to absent strings; of an invalid configuration only the flag is kept. */
  predicate SameConfig(d: Config, c: Config) {
    if !c.valid then d == EMPTY else
      && d.valid && d.name == Normal(c.name) && d.license == Normal(c.license)
      && |d.authors| == |c.authors| && (forall i | 0 <= i < |c.authors| :: d.authors[i] == Normal(c.authors[i]))
      && |d.deps| == |c.deps|
      && (forall i | 0 <= i < |c.deps| ::
            d.deps[i] == Dep(Normal(c.deps[i].key), Normal(c.deps[i].version), c.deps[i].builtin))
  }

  lemma BackIsNormal(s: Option<Text>)
    ensures Back(s) == Normal(s) <==> StrFits(s)
  {
    if s.Some? {
      var t := s.value;
      var n := Strlen(t);
      assert n == |t| ==> t[..n] == t;
      assert |t[..Written(s)]| == Written(s);
    }
  }

  /** Counts come from 16 bits, so a decoded configuration never has more. */
  lemma DecodedCountsFit(buf: seq<Byte>)
    ensures CountsFit(Deserialized(buf))
  {
    hide TakeStr, TakeU8;
  }

  lemma RoundTripIffFits(c: Config)
    ensures SameConfig(Deserialized(Serialized(c)), c) <==> Fits(c)
  {
    DecodedCountsFit(Serialized(c));
    if CountsFit(c) {
      ReadsBack(c);
      SameIffFits(c);
    } else if !c.valid {
      InvalidReadsBack(c);
    }
    hide Deserialized, Serialized, WhatReturns, Normal, StrFits;
  }

  lemma SameIffFits(c: Config)
    requires CountsFit(c)
    ensures SameConfig(WhatReturns(c), c) <==> Fits(c)
  {
    forall s: Option<Text>
      ensures Back(s) == Normal(s) <==> StrFits(s)
    {
      BackIsNormal(s);
    }
    hide Normal, StrFits, Back;
  }

  lemma InvalidReadsBack(c: Config)
    requires !c.valid
    ensures Deserialized(Serialized(c)) == EMPTY
  {
  }

  // ----- Truncated encodings -----

  /** What was read without running out is read the same when more bytes follow. */
  lemma StrStable(buf: seq<Byte>, more: seq<Byte>, r: Cursor)
    requires TakeStr(buf, r).at.ok
    ensures TakeStr(buf + more, r) == TakeStr(buf, r) && r.ok && TakeStr(buf, r).at.pos <= |buf|
  {
    var g := TakeStr(buf, r);
    if g.value.Some? {
      var p := r.pos + 2;
      assert (buf + more)[p..g.at.pos] == buf[p..g.at.pos];
    }
  }

  lemma {:induction false} StrsStable(buf: seq<Byte>, more: seq<Byte>, r: Cursor, n: nat)
    requires r.pos <= |buf| && TakeStrs(buf, r, n).at.ok
    ensures TakeStrs(buf + more, r, n) == TakeStrs(buf, r, n) && r.ok && TakeStrs(buf, r, n).at.pos <= |buf|
  {
    hide TakeStr;
    if n != 0 {
      StrStable(buf, more, TakeStrs(buf, r, n - 1).at);
      StrsStable(buf, more, r, n - 1);
    }
  }

  lemma DepStable(buf: seq<Byte>, more: seq<Byte>, r: Cursor)
    requires TakeDep(buf, r).at.ok
    ensures TakeDep(buf + more, r) == TakeDep(buf, r) && r.ok && TakeDep(buf, r).at.pos <= |buf|
  {
    var key := TakeStr(buf, r);
    StrStable(buf, more, key.at);
    StrStable(buf, more, r);
    hide TakeStr;
  }

  lemma {:induction false} DepsStable(buf: seq<Byte>, more: seq<Byte>, r: Cursor, n: nat)
    requires r.pos <= |buf| && TakeDeps(buf, r, n).at.ok
    ensures TakeDeps(buf + more, r, n) == TakeDeps(buf, r, n) && r.ok && TakeDeps(buf, r, n).at.pos <= |buf|
  {
    hide TakeDep;
    if n != 0 {
      DepStable(buf, more, TakeDeps(buf, r, n - 1).at);
      DepsStable(buf, more, r, n - 1);
    }
  }

  lemma U16Stable(buf: seq<Byte>, more: seq<Byte>, r: Cursor)
    requires TakeU16(buf, r).at.ok
    ensures TakeU16(buf + more, r) == TakeU16(buf, r) && r.ok && TakeU16(buf, r).at.pos <= |buf|
  {
  }

  lemma {:induction false} StrsOk(buf: seq<Byte>, r: Cursor, n: nat)
    requires TakeStrs(buf, r, n).at.ok
    ensures r.ok
  {
    if n != 0 {
      StrsOk(buf, r, n - 1);
    }
  }

  lemma {:induction false} DepsOk(buf: seq<Byte>, r: Cursor, n: nat)
    requires TakeDeps(buf, r, n).at.ok
    ensures r.ok
  {
    if n != 0 {
      DepsOk(buf, r, n - 1);
    }
  }

  lemma BodyStable(buf: seq<Byte>, more: seq<Byte>, r: Cursor)
    requires TakeBody(buf, r).at.ok
    ensures TakeBody(buf + more, r) == TakeBody(buf, r) && TakeBody(buf, r).at.pos <= |buf|
  {
    hide TakeStr, TakeStrs, TakeU16, TakeDeps;
    var name := TakeStr(buf, r);
    var license := TakeStr(buf, name.at);
    var authorCount := TakeU16(buf, license.at);
    var authors := TakeStrs(buf, authorCount.at, authorCount.value);
    var depCount := TakeU16(buf, authors.at);
    DepsOk(buf, depCount.at, depCount.value);
    U16Stable(buf, more, authors.at);
    DepsStable(buf, more, depCount.at, depCount.value);
    StrsOk(buf, authorCount.at, authorCount.value);
    U16Stable(buf, more, license.at);
    StrsStable(buf, more, authorCount.at, authorCount.value);
    StrStable(buf, more, name.at);
    StrStable(buf, more, r);
  }

  /** No strict prefix of an encoding is taken for a valid configuration. */
  lemma PrefixNeverValid(c: Config, n: nat)
    requires CountsFit(c) && n < |Serialized(c)|
    ensures !Deserialized(Serialized(c)[..n]).valid
  {
    var all := Serialized(c);
    FirstByte(c);
    SplitAt(all, n);
    if Deserialized(all[..n]).valid {
      ValidMeansRead(all[..n]);
      PartIsNotRead(c, all[..n], all[n..]);
    }
    hide *;
  }

  lemma SplitAt(all: seq<Byte>, n: nat)
    requires n < |all|
    ensures all[..n] + all[n..] == all && all[n..] != [] && (n > 0 ==> all[..n][0] == all[0])
  {
  }

  lemma PartIsNotRead(c: Config, part: seq<Byte>, more: seq<Byte>)
    requires c.valid && CountsFit(c) && part + more == Serialized(c) && more != []
    ensures !TakeBody(part, Cursor(1, true)).at.ok
  {
    hide *;
    if TakeBody(part, Cursor(1, true)).at.ok {
      BodyStable(part, more, Cursor(1, true));
      BodyReadsBack(part + more, c);
    }
  }

  lemma FirstByte(c: Config)
    ensures |Serialized(c)| > 0 && Serialized(c)[0] == if c.valid then 1 else 0
  {
  }

  lemma ValidMeansRead(buf: seq<Byte>)
    requires Deserialized(buf).valid
    ensures buf != [] && buf[0] != 0 && TakeBody(buf, Cursor(1, true)).at.ok
  {
    hide TakeStr, TakeStrs, TakeDeps, TakeU16;
  }
}

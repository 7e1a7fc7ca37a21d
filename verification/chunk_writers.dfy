/** Symbols are collected per group and flushed to numbered chunk files of bounded size; the
    chunks of a group become one container, and the containers another. */
module ChunkWriters {
  import opened Options
  import opened Bytes
  import opened Containers

  const CHUNK_LIMIT: nat := 64 * 1024
  const GROUPS: nat := 9      // PACK_SG_COUNT
  const FLUSHED: nat := 7     // SG_All: the groups that entries fall into come before it
  const FUNCTIONS: Byte := 1  // SG_Function

  /** The symbols of chunks 1 to `n` of group `g`, in order. */
  function Stored<S>(files: map<(nat, nat), seq<S>>, g: nat, n: nat): seq<S>
    requires forall k | 1 <= k <= n :: (g, k) in files
  {
    if n == 0 then [] else Stored(files, g, n - 1) + files[(g, n)]
  }

  lemma {:induction false} StoredFrame<S>(files: map<(nat, nat), seq<S>>, files': map<(nat, nat), seq<S>>, g: nat, n: nat)
    requires forall k | 1 <= k <= n :: (g, k) in files && (g, k) in files' && files'[(g, k)] == files[(g, k)]
    ensures Stored(files', g, n) == Stored(files, g, n)
  {
    if n > 0 {
      StoredFrame(files, files', g, n - 1);
    }
  }

  /** One group: what waits to be flushed, its size in bytes, and the number of the next chunk. */
  datatype Group<S> = Group(pending: seq<S>, size: nat, chunk: nat)

  /** What holds of every group at all times, given all symbols `added` to it so far. */
  ghost predicate GroupOk<S>(files: map<(nat, nat), seq<S>>, symSize: nat, g: nat, group: Group<S>, added: seq<S>) {
    && group.chunk >= 1 && group.size == |group.pending| * symSize && group.size <= 65536
    && (forall k: nat :: (g, k) in files <==> 1 <= k < group.chunk)
    && (forall k | 1 <= k < group.chunk :: 0 < |files[(g, k)]| && |files[(g, k)]| * symSize <= 65536)
    && Stored(files, g, group.chunk - 1) + group.pending == added
  }

  /** No symbol more would have fitted in chunks 1 to `n`. */
  ghost predicate FullUpTo<S>(files: map<(nat, nat), seq<S>>, symSize: nat, g: nat, n: int) {
    forall k: nat | 1 <= k <= n :: (g, k) in files && (|files[(g, k)]| + 1) * symSize > 65536
  }

  lemma {:induction false} FlushKeeps<S>(files: map<(nat, nat), seq<S>>, symSize: nat, g: nat, group: Group<S>, added: seq<S>)
    requires GroupOk(files, symSize, g, group, added) && group.pending != []
    ensures GroupOk(files[(g, group.chunk) := group.pending], symSize, g, Group([], 0, group.chunk + 1), added)
  {
    var files' := files[(g, group.chunk) := group.pending];
    StoredFrame(files, files', g, group.chunk - 1);
    assert Stored(files', g, group.chunk) + [] == added;
  }

  lemma {:induction false} OtherGroupKept<S>(files: map<(nat, nat), seq<S>>, symSize: nat, h: nat, n: nat, chunk: seq<S>, g: nat, group: Group<S>, added: seq<S>)
    requires GroupOk(files, symSize, g, group, added) && h != g
    ensures GroupOk(files[(h, n) := chunk], symSize, g, group, added)
  {
    StoredFrame(files, files[(h, n) := chunk], g, group.chunk - 1);
  }

  lemma {:induction false} AddKeeps<S>(files: map<(nat, nat), seq<S>>, symSize: nat, g: nat, group: Group<S>, added: seq<S>, sym: S)
    requires GroupOk(files, symSize, g, group, added) && group.size + symSize <= CHUNK_LIMIT
    ensures GroupOk(files, symSize, g, Group(group.pending + [sym], group.size + symSize, group.chunk), added + [sym])
  {
    assert (|group.pending| + 1) * symSize == |group.pending| * symSize + symSize;
  }

  lemma {:induction false} FlushKeepsFull<S>(files: map<(nat, nat), seq<S>>, symSize: nat, g: nat, group: Group<S>, added: seq<S>)
    requires GroupOk(files, symSize, g, group, added) && FullUpTo(files, symSize, g, group.chunk - 1)
    requires group.size + symSize > CHUNK_LIMIT
    ensures FullUpTo(files[(g, group.chunk) := group.pending], symSize, g, group.chunk)
  {
    assert (|group.pending| + 1) * symSize == |group.pending| * symSize + symSize;
  }

  lemma {:induction false} OtherFullKept<S>(files: map<(nat, nat), seq<S>>, symSize: nat, h: nat, n: nat, chunk: seq<S>, g: nat, m: int)
    requires FullUpTo(files, symSize, g, m) && (h != g || n > m)
    ensures FullUpTo(files[(h, n) := chunk], symSize, g, m)
  {
  }

  lemma {:induction false} WaitingIfNoRoom<S>(files: map<(nat, nat), seq<S>>, symSize: nat, g: nat, group: Group<S>, added: seq<S>)
    requires GroupOk(files, symSize, g, group, added) && 0 < symSize <= CHUNK_LIMIT
    ensures group.size + symSize > CHUNK_LIMIT ==> group.pending != []
    ensures group.chunk >= 1 && (group.pending == [] ==> Stored(files, g, group.chunk - 1) == added)
    ensures forall k | 1 <= k < group.chunk :: (g, k) in files
  {
    assert group.pending == [] ==> |group.pending| * symSize == 0;
  }

  class GroupWriters<S(!new)> {
    const symSize: nat
    var groups: seq<Group<S>>
    var files: map<(nat, nat), seq<S>>
    ghost var added: seq<seq<S>>

    ghost predicate Valid()
      reads this
    {
      && 0 < symSize <= 65536 && |groups| == 9 && |added| == 9
      && (forall g: nat | g < GROUPS :: GroupOk(files, symSize, g, groups[g], added[g]))
    }

    /** Every chunk written so far is full: true until the last flush. */
    ghost predicate Greedy()
      reads this
      requires |groups| == GROUPS
    {
      forall g: nat | g < GROUPS :: FullUpTo(files, symSize, g, groups[g].chunk - 1)
    }

    /** `gw_init`, with the size of a symbol and no chunk files. */
    constructor (size: nat)
      requires 0 < size <= CHUNK_LIMIT
      ensures Valid() && Greedy() && added == seq(GROUPS, _ => []) && symSize == size
    {
      symSize := size;
      groups := seq(GROUPS, _ => Group([], 0, 1));
      files := map[];
      added := seq(GROUPS, _ => []);
    }

    /** `gw_flush_uint`, where it is called: with symbols waiting. */
    method FlushUint(g: nat)
      requires Valid() && g < GROUPS && groups[g].pending != []
      modifies this
      ensures Valid() && added == old(added)
      ensures groups == old(groups)[g := Group([], 0, old(groups[g].chunk) + 1)]
      ensures files == old(files)[(g, old(groups[g].chunk)) := old(groups[g].pending)]
    {
      ghost var files0 := files;
      FlushKeeps(files, symSize, g, groups[g], added[g]);
      files := files[(g, groups[g].chunk) := groups[g].pending];
      ghost var chunk, n := groups[g].pending, groups[g].chunk;
      groups := groups[g := Group([], 0, groups[g].chunk + 1)];
      forall h: nat | h < GROUPS
        ensures GroupOk(files, symSize, h, groups[h], added[h])
      {
        if h != g {
          OtherGroupKept(files0, symSize, g, n, chunk, h, groups[h], added[h]);
        }
      }
    }

    /** `gw_add` */
    method Add(sym: S, g: nat)
      requires Valid() && Greedy() && g < GROUPS
      modifies this
      ensures Valid() && Greedy() && added == old(added)[g := old(added[g]) + [sym]]
    {
      MakeRoom(g);
      hide Stored, GroupOk, FullUpTo;
      AddKeeps(files, symSize, g, groups[g], added[g], sym);
      groups := groups[g := Group(groups[g].pending + [sym], groups[g].size + symSize, groups[g].chunk)];
      added := added[g := added[g] + [sym]];
    }

    method MakeRoom(g: nat)
      requires Valid() && Greedy() && g < GROUPS
      modifies this
      ensures Valid() && Greedy() && added == old(added) && groups[g].size + symSize <= CHUNK_LIMIT
    {
      hide Stored, GroupOk, FullUpTo;
      WaitingIfNoRoom(files, symSize, g, groups[g], added[g]);
      if groups[g].size + symSize > CHUNK_LIMIT {
        ghost var files0, n, chunk := files, groups[g].chunk, groups[g].pending;
        FlushKeepsFull(files, symSize, g, groups[g], added[g]);
        FlushUint(g);
        forall h: nat | h < GROUPS
          ensures FullUpTo(files, symSize, h, groups[h].chunk - 1)
        {
          if h != g {
            OtherFullKept(files0, symSize, g, n, chunk, h, groups[h].chunk - 1);
          }
        }
      }
    }

    /** `gw_flush_all_uints` */
    method FlushAll()
      requires Valid() && Greedy()
      modifies this
      ensures Valid() && added == old(added)
      ensures forall g: nat | g < 7 :: Complete(g)
      ensures forall g: nat | 7 <= g < 9 :: groups[g] == old(groups[g])
    {
      for i := 0 to FLUSHED
        invariant Valid() && added == old(added)
        invariant forall g: nat | g < i :: Complete(g)
        invariant forall g: nat | i <= g < GROUPS :: groups[g] == old(groups[g])
        invariant forall g: nat | i <= g < GROUPS :: FullUpTo(files, symSize, g, groups[g].chunk - 1)
      {
        FinishGroup(i);
      }
    }

    /** All symbols of the group are in its chunk files, and all but the last are full. */
    ghost predicate Complete(g: nat)
      reads this
      requires Valid() && g < GROUPS
    {
      && groups[g].pending == [] && Stored(files, g, groups[g].chunk - 1) == added[g]
      && FullUpTo(files, symSize, g, groups[g].chunk - 2)
    }

    method FinishGroup(i: nat)
      requires Valid() && i < GROUPS && FullUpTo(files, symSize, i, groups[i].chunk - 1)
      modifies this
      ensures Valid() && added == old(added) && Complete(i) && forall g: nat | g < GROUPS && g != i :: groups[g] == old(groups[g])
      ensures forall g: nat | g < GROUPS && g != i && old(Valid() && Complete(g)) :: Complete(g)
      ensures forall g: nat | g < GROUPS && g != i && old(FullUpTo(files, symSize, g, groups[g].chunk - 1)) ::
        FullUpTo(files, symSize, g, groups[g].chunk - 1)
    {
      if |groups[i].pending| != 0 {
        FlushUint(i);
      }
    }
  }

  // ----- Merging -----

  /** Chunk files 1 to `n` of a group as units; `enc` is the format of a chunk file. */
  function ChunkUnits<S>(files: map<(nat, nat), seq<S>>, g: nat, n: nat, enc: seq<S> -> seq<Byte>): (us: seq<Unit>)
    requires g < FLUSHED && forall k | 1 <= k <= n :: (g, k) in files
    ensures |us| == n && forall i | 0 <= i < n :: us[i] == Unit(g, enc(files[(g, i + 1)]))
  {
    if n == 0 then [] else ChunkUnits(files, g, n - 1, enc) + [Unit(g, enc(files[(g, n)]))]
  }

  /** `merge_uints_to_pack`: no container for a group without chunks. */
  method MergeUints<S(!new)>(gw: GroupWriters<S>, g: nat, enc: seq<S> -> seq<Byte>, hash: nat, junk: seq<UnitEntry>)
    returns (pack: Option<seq<Byte>>)
    requires gw.Valid() && g < FLUSHED && |junk| == gw.groups[g].chunk - 1 && Padded(junk)
    ensures GroupOk(gw.files, gw.symSize, g, gw.groups[g], gw.added[g])
    ensures pack.None? <==> gw.groups[g].chunk == 1
    ensures pack.Some? ==> IsContainer(pack.value, hash, ChunkUnits(gw.files, g, gw.groups[g].chunk - 1, enc))
  {
    assert GroupOk(gw.files, gw.symSize, g, gw.groups[g], gw.added[g]);
    var count := gw.groups[g].chunk - 1;
    if count == 0 {
      return None;
    }
    var us: seq<Unit> := [];
    for i := 0 to count
      invariant us == ChunkUnits(gw.files, g, i, enc)
    {
      us := us + [Unit(g, enc(gw.files[(g, i + 1)]))];
    }
    var buf := BuildContainer(hash, us, junk);
    pack := Some(buf);
  }

  /** The containers of the present groups below `n`, in order of their numbers. */
  function GroupUnits(present: seq<bool>, packs: seq<seq<Byte>>, n: nat): seq<Unit>
    requires n <= GROUPS && |present| == GROUPS && |packs| == GROUPS
  {
    if n == 0 then [] else
      GroupUnits(present, packs, n - 1) + if present[n - 1] then [Unit(n - 1, packs[n - 1])] else []
  }

  function FunctionUnits(packs: seq<seq<Byte>>): (us: seq<Unit>)
    ensures |us| == |packs| && forall i | 0 <= i < |packs| :: us[i] == Unit(1, packs[i])
  {
    if packs == [] then [] else FunctionUnits(packs[..|packs| - 1]) + [Unit(FUNCTIONS, packs[|packs| - 1])]
  }

  /** `merge_packs_to_final`: the present groups, then the function bodies. */
  method MergeFinal(present: seq<bool>, packs: seq<seq<Byte>>, bodies: seq<seq<Byte>>, hash: nat, junk: seq<UnitEntry>)
    returns (buf: seq<Byte>)
    requires |present| == GROUPS && |packs| == GROUPS && Padded(junk)
    requires |junk| == |GroupUnits(present, packs, GROUPS)| + |bodies|
    ensures IsContainer(buf, hash, GroupUnits(present, packs, 9) + FunctionUnits(bodies))
  {
    var us: seq<Unit> := [];
    for i := 0 to GROUPS
      invariant us == GroupUnits(present, packs, i)
    {
      if present[i] {
        us := us + [Unit(i, packs[i])];
      }
    }
    ghost var groups := us;
    for i := 0 to |bodies|
      invariant us == groups + FunctionUnits(bodies[..i])
    {
      assert bodies[..i + 1][..i] == bodies[..i];
      us := us + [Unit(FUNCTIONS, bodies[i])];
    }
    assert bodies[..|bodies|] == bodies;
    buf := BuildContainer(hash, us, junk);
  }

  /** From additions to bytes: what a reader of a group's container finds as unit `i` is
      chunk file `i + 1`, and the chunks together are everything that was added. */
  lemma {:induction false} PackHoldsAdditions<S>(files: map<(nat, nat), seq<S>>, symSize: nat, g: nat, group: Group<S>, added: seq<S>,
                                enc: seq<S> -> seq<Byte>, pack: seq<Byte>, hash: nat)
    requires g < FLUSHED && GroupOk(files, symSize, g, group, added) && group.pending == []
    requires IsContainer(pack, hash, ChunkUnits(files, g, group.chunk - 1, enc))
    requires |pack| < Power(8) && group.chunk <= Power(4)
    ensures UnitCount(pack) == group.chunk - 1 && Stored(files, g, group.chunk - 1) == added
    ensures forall i | 0 <= i < group.chunk - 1 :: UnitAt(pack, i) == Some(Unit(g, enc(files[(g, i + 1)])))
  {
    UnitsReadBack(pack, hash, ChunkUnits(files, g, group.chunk - 1, enc));
    hide Stored, IsContainer, UnitAt, UnitCount;
  }
}

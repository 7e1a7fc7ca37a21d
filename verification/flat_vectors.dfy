/** Vectors of a serialized buffer: in-place heap sort, binary find and linear scan.

    A vector holds values in place, or offsets that are relative to their own position, so
    moving an element means adjusting it.  What a reader sees of either is its view. */
module FlatVectors {
  import opened Options

  const MODULUS: int := 0x1_0000_0000

  datatype Layout =
    | InPlace               // scalars and structs
    | Offsets(base: int)    // strings and tables: 32-bit offsets from each element's own address

  /** What element `i` stands for: its value, or the address it points at. */
  function Target(layout: Layout, i: nat, x: int): int {
    match layout
    case InPlace => x
    case Offsets(base) => (base + 4 * i + x) % MODULUS
  }

  ghost function View(s: seq<int>, layout: Layout): (v: seq<int>)
    ensures |v| == |s| && forall i | 0 <= i < |s| :: v[i] == Target(layout, i, s[i])
  {
    seq(|s|, i requires 0 <= i < |s| => Target(layout, i, s[i]))
  }

  // ----- Swapping -----

  ghost function Swapped(v: seq<int>, a: nat, b: nat): (v': seq<int>)
    requires a < |v| && b < |v|
    ensures |v'| == |v|
  {
    v[a := v[b]][b := v[a]]
  }

  lemma SwappedPermutes(v: seq<int>, a: nat, b: nat)
    requires a < |v| && b < |v|
    ensures multiset(Swapped(v, a, b)) == multiset(v)
  {
    var v1 := v[a := v[b]];
    assert multiset(v1) == multiset(v) - multiset{v[a]} + multiset{v[b]};
    assert multiset(v1[b := v[a]]) == multiset(v1) - multiset{v1[b]} + multiset{v[a]};
  }

  /** Taking a distance off modulo 2^32 at one place and adding it at another leads to the same address. */
  lemma OffsetMoves(base: int, a: nat, b: nat, x: int)
    ensures (base + 4 * a + (x - 4 * (a - b) % MODULUS) % MODULUS) % MODULUS == (base + 4 * b + x) % MODULUS
    ensures (base + 4 * b + (x + 4 * (a - b) % MODULUS) % MODULUS) % MODULUS == (base + 4 * a + x) % MODULUS
  {
    var d := 4 * (a - b);
    AddModulo(base + 4 * a, x - d % MODULUS);
    AddModulo(base + 4 * b, x + d % MODULUS);
    AddModulo(base + 4 * b + x, d);
    AddMultiple(base + 4 * b + x, d / MODULUS);
  }

  lemma AddModulo(c: int, x: int)
    ensures (c + x % MODULUS) % MODULUS == (c + x) % MODULUS
  {
    AddMultiple(c + x % MODULUS, x / MODULUS);
  }

  lemma AddMultiple(x: int, q: int)
    ensures (x + MODULUS * q) % MODULUS == x % MODULUS
  {
  }

  /** `value_swap` and `uoffset_swap` */
  method Swap(vec: array<int>, layout: Layout, a: nat, b: nat)
    requires a < vec.Length && b < vec.Length
    modifies vec
    ensures View(vec[..], layout) == Swapped(View(old(vec[..]), layout), a, b)
  {
    if layout.InPlace? {
      var x := vec[b];
      vec[b] := vec[a];
      vec[a] := x;
    } else {
      var d := 4 * (a - b) % MODULUS;
      var ta := (vec[b] - d) % MODULUS;
      var tb := (vec[a] + d) % MODULUS;
      OffsetMoves(layout.base, a, b, vec[b]);
      OffsetMoves(layout.base, a, b, vec[a]);
      vec[a] := ta;
      vec[b] := tb;
    }
  }

  // ----- Heaps -----

  /** Every node from `lo` on is at least its children.  The children of k are 2k and 2k+1
      counting from 0, so 1 is the only child of 0. */
  ghost predicate HeapFrom(v: seq<int>, key: int -> real, lo: nat, end: nat)
    requires end < |v|
  {
    forall k | 1 <= k <= end && lo <= k / 2 :: key(v[k]) <= key(v[k / 2])
  }

  /** A heap from `start` on, except that `root` may be too small for its place. */
  ghost predicate Sifting(v: seq<int>, key: int -> real, start: nat, end: nat, root: nat)
    requires end < |v|
  {
    && start <= root
    && (forall k | 1 <= k <= end && start <= k / 2 && k / 2 != root :: key(v[k]) <= key(v[k / 2]))
    && (forall k | 1 <= k <= end && k / 2 == root && start < root && start <= root / 2 :: key(v[k]) <= key(v[root / 2]))
  }

  /** The elements after `end` are at least all others. */
  ghost predicate Below(v: seq<int>, key: int -> real, end: nat)
  {
    forall i, j | 0 <= i <= end < j < |v| :: key(v[i]) <= key(v[j])
  }

  ghost predicate SortedFrom(v: seq<int>, key: int -> real, lo: nat) {
    forall i, j | lo <= i < j < |v| :: key(v[i]) <= key(v[j])
  }

  /** Nothing after `end` has moved, and what was below it still is. */
  ghost predicate Within(v0: seq<int>, v: seq<int>, key: int -> real, end: nat)
  {
    && |v| == |v0| && multiset(v) == multiset(v0)
    && (forall j | end < j < |v| :: v[j] == v0[j])
    && (Below(v0, key, end) ==> Below(v, key, end))
  }

  lemma WithinSwap(v0: seq<int>, v: seq<int>, key: int -> real, end: nat, a: nat, b: nat)
    requires Within(v0, v, key, end) && end < |v| && a <= end && b <= end
    ensures Within(v0, Swapped(v, a, b), key, end)
  {
    SwappedPermutes(v, a, b);
  }

  /** The greater child of `root`, in the order the code compares them. */
  ghost predicate IsGreaterChild(v: seq<int>, key: int -> real, end: nat, root: nat, child: nat)
    requires end < |v|
  {
    && child <= end && (child == 2 * root || child == 2 * root + 1)
    && forall k | 1 <= k <= end && k / 2 == root :: key(v[k]) <= key(v[child])
  }

  lemma SiftStep(v: seq<int>, key: int -> real, start: nat, end: nat, root: nat, child: nat)
    requires end < |v| && Sifting(v, key, start, end, root) && root <= end
    requires IsGreaterChild(v, key, end, root, child) && key(v[root]) < key(v[child])
    ensures child > root && Sifting(Swapped(v, root, child), key, start, end, child)
  {
    var v' := Swapped(v, root, child);
    assert child / 2 == root && child != root;
    forall k | 1 <= k <= end && start <= k / 2 && k / 2 != child
      ensures key(v'[k]) <= key(v'[k / 2])
    {
      if k / 2 != root && k != root {
        assert v'[k / 2] == v[k / 2];
      }
    }
  }

  lemma SiftDone(v: seq<int>, key: int -> real, start: nat, end: nat, root: nat, child: nat)
    requires end < |v| && Sifting(v, key, start, end, root)
    requires 2 * root > end || (root <= end && IsGreaterChild(v, key, end, root, child) && !(key(v[root]) < key(v[child])))
    ensures HeapFrom(v, key, start, end)
  {
  }

  method SiftDown(vec: array<int>, layout: Layout, key: int -> real, start: nat, end: nat)
    requires end < vec.Length && HeapFrom(View(vec[..], layout), key, start + 1, end)
    modifies vec
    ensures HeapFrom(View(vec[..], layout), key, start, end)
    ensures Within(View(old(vec[..]), layout), View(vec[..], layout), key, end)
  {
    ghost var v0 := View(vec[..], layout);
    var root := start;
    hide HeapFrom, Within, Below, SortedFrom, Swapped, Target, IsGreaterChild;
    assert Sifting(v0, key, start, end, root) by { SiftStart(v0, key, start, end); }
    assert Within(v0, v0, key, end) by { WithinStart(v0, key, end); }
    hide Sifting;
    while 2 * root <= end
      invariant Sifting(View(vec[..], layout), key, start, end, root)
      invariant Within(v0, View(vec[..], layout), key, end)
      decreases 2 * vec.Length - root
    {
      ghost var v := View(vec[..], layout);
      var child := GreaterChild(vec, layout, key, end, root);
      if key(Target(layout, root, vec[root])) < key(Target(layout, child, vec[child])) {
        Swap(vec, layout, root, child);
        SiftStep(v, key, start, end, root, child);
        WithinSwap(v0, v, key, end, root, child);
        root := child;
      } else {
        SiftDone(v, key, start, end, root, child);
        return;
      }
    }
    SiftDone(View(vec[..], layout), key, start, end, root, root);
  }

  lemma SiftStart(v: seq<int>, key: int -> real, start: nat, end: nat)
    requires end < |v| && HeapFrom(v, key, start + 1, end)
    ensures Sifting(v, key, start, end, start)
  {
  }

  lemma WithinStart(v: seq<int>, key: int -> real, end: nat)
    ensures Within(v, v, key, end)
  {
  }

  method GreaterChild(vec: array<int>, layout: Layout, key: int -> real, end: nat, root: nat) returns (child: nat)
    requires 2 * root <= end < vec.Length
    ensures IsGreaterChild(View(vec[..], layout), key, end, root, child)
  {
    child := 2 * root;
    if child < end {
      if key(Target(layout, child, vec[child])) < key(Target(layout, child + 1, vec[child + 1])) {
        child := child + 1;
      }
    }
  }

  // ----- Sorting -----

  ghost predicate Sorted(v: seq<int>, key: int -> real) {
    SortedFrom(v, key, 0)
  }

  /** `heap_sort` */
  method HeapSort(vec: array<int>, layout: Layout, key: int -> real)
    modifies vec
    ensures Sorted(View(vec[..], layout), key)
    ensures multiset(View(vec[..], layout)) == multiset(View(old(vec[..]), layout))
  {
    ghost var v0 := View(vec[..], layout);
    var size := vec.Length;
    if size == 0 {
      return;
    }
    var end: nat := size - 1;
    BuildHeap(vec, layout, key);
    hide HeapFrom, Below, SortedFrom, Swapped, Target, Within;
    SortStart(View(vec[..], layout), key, end);
    while end > 0
      invariant end < vec.Length
      invariant HeapFrom(View(vec[..], layout), key, 0, end)
      invariant Below(View(vec[..], layout), key, end) && SortedFrom(View(vec[..], layout), key, end + 1)
      invariant multiset(View(vec[..], layout)) == multiset(v0)
    {
      ghost var v := View(vec[..], layout);
      Swap(vec, layout, 0, end);
      ghost var v1 := View(vec[..], layout);
      SortStep(v, key, end);
      end := end - 1;
      SiftDown(vec, layout, key, 0, end);
      SortKept(v1, View(vec[..], layout), key, end);
    }
    SortEnd(View(vec[..], layout), key);
  }

  /** The `do … while (start--)` loop. */
  method BuildHeap(vec: array<int>, layout: Layout, key: int -> real)
    requires vec.Length > 0
    modifies vec
    ensures HeapFrom(View(vec[..], layout), key, 0, vec.Length - 1)
    ensures multiset(View(vec[..], layout)) == multiset(View(old(vec[..]), layout))
  {
    ghost var v0 := View(vec[..], layout);
    var start: nat := vec.Length / 2;
    hide Below, SortedFrom, Swapped, Target;
    SiftDown(vec, layout, key, start, vec.Length - 1);
    while start > 0
      invariant HeapFrom(View(vec[..], layout), key, start, vec.Length - 1)
      invariant multiset(View(vec[..], layout)) == multiset(v0)
    {
      start := start - 1;
      SiftDown(vec, layout, key, start, vec.Length - 1);
    }
  }

  /** The first node of a heap is its greatest. */
  lemma {:induction false} HeapTop(v: seq<int>, key: int -> real, end: nat, k: nat)
    requires end < |v| && HeapFrom(v, key, 0, end) && k <= end
    ensures key(v[k]) <= key(v[0])
  {
    if k > 0 {
      HeapTop(v, key, end, k / 2);
    }
  }

  lemma SortStart(v: seq<int>, key: int -> real, end: nat)
    requires end == |v| - 1
    ensures Below(v, key, end) && SortedFrom(v, key, end + 1)
  {
  }

  lemma SortStep(v: seq<int>, key: int -> real, end: nat)
    requires 0 < end < |v| && HeapFrom(v, key, 0, end) && Below(v, key, end) && SortedFrom(v, key, end + 1)
    ensures var v' := Swapped(v, 0, end);
            && HeapFrom(v', key, 1, end - 1) && Below(v', key, end - 1) && SortedFrom(v', key, end)
            && multiset(v') == multiset(v)
  {
    SwappedPermutes(v, 0, end);
    forall k | 0 <= k <= end
      ensures key(v[k]) <= key(v[0])
    {
      HeapTop(v, key, end, k);
    }
  }

  lemma SortKept(v: seq<int>, v': seq<int>, key: int -> real, end: nat)
    requires Within(v, v', key, end) && end < |v| && Below(v, key, end) && SortedFrom(v, key, end + 1)
    ensures Below(v', key, end) && SortedFrom(v', key, end + 1) && multiset(v') == multiset(v)
  {
  }

  lemma SortEnd(v: seq<int>, key: int -> real)
    requires |v| > 0 && Below(v, key, 0) && SortedFrom(v, key, 1)
    ensures Sorted(v, key)
  {
  }

  // ----- Searching -----

  /** The lowest index in `[lo, hi)` whose key is `k`. */
  ghost function FirstMatch(v: seq<int>, key: int -> real, k: real, lo: nat, hi: nat): (r: Option<nat>)
    requires hi <= |v|
    ensures r.Some? ==> lo <= r.value < hi && key(v[r.value]) == k && forall i | lo <= i < r.value :: key(v[i]) != k
    ensures r.None? ==> forall i | lo <= i < hi :: key(v[i]) != k
    decreases hi - lo
  {
    if lo >= hi then None else if key(v[lo]) == k then Some(lo) else FirstMatch(v, key, k, lo + 1, hi)
  }

  lemma FirstMatchIs(v: seq<int>, key: int -> real, k: real, lo: nat, hi: nat, i: nat)
    requires lo <= i < hi <= |v| && key(v[i]) == k && forall j | lo <= j < i :: key(v[j]) != k
    ensures FirstMatch(v, key, k, lo, hi) == Some(i)
  {
  }

  /** `scan_by_field`, over `[begin, min(end, length))` */
  method Scan(vec: array<int>, layout: Layout, key: int -> real, k: real, begin: nat, end: nat) returns (r: Option<nat>)
    ensures r == FirstMatch(View(vec[..], layout), key, k, begin, if end < vec.Length then end else vec.Length)
  {
    ghost var v := View(vec[..], layout);
    var e := if end < vec.Length then end else vec.Length;
    var i := begin;
    while i < e
      invariant begin <= i
      invariant forall j | begin <= j < i && j < e :: key(v[j]) != k
    {
      if key(Target(layout, i, vec[i])) == k {
        FirstMatchIs(v, key, k, begin, e, i);
        return Some(i);
      }
      i := i + 1;
    }
    return None;
  }

  /** `rscan_by_field`: the highest matching index. */
  method ScanBack(vec: array<int>, layout: Layout, key: int -> real, k: real, begin: nat, end: nat) returns (r: Option<nat>)
    ensures var v := View(vec[..], layout); var e := if end < |v| then end else |v|;
            && (r.Some? ==> begin <= r.value < e && key(v[r.value]) == k && forall j | r.value < j < e :: key(v[j]) != k)
            && (r.None? ==> forall j | begin <= j < e :: key(v[j]) != k)
  {
    ghost var v := View(vec[..], layout);
    var e := if end < vec.Length then end else vec.Length;
    var i: nat := e;
    while i > begin
      invariant i <= e
      invariant forall j | i <= j < e :: key(v[j]) != k
    {
      i := i - 1;
      if key(Target(layout, i, vec[i])) == k {
        return Some(i);
      }
    }
    return None;
  }

  /** `find_by_field`: on a sorted vector the lowest matching index, or nothing exactly when
      a scan finds nothing; on any vector, only ever a match. */
  method Find(vec: array<int>, layout: Layout, key: int -> real, k: real) returns (r: Option<nat>)
    ensures r.Some? ==> r.value < vec.Length && key(View(vec[..], layout)[r.value]) == k
    ensures Sorted(View(vec[..], layout), key) ==> r == FirstMatch(View(vec[..], layout), key, k, 0, vec.Length)
  {
    ghost var v := View(vec[..], layout);
    if vec.Length == 0 {
      return None;
    }
    var a: nat, b: nat := 0, vec.Length - 1;
    while a < b
      invariant a <= b < vec.Length
      invariant Sorted(v, key) ==> forall i | 0 <= i < a :: key(v[i]) < k
      invariant Sorted(v, key) ==> b == vec.Length - 1 || key(v[b]) >= k
    {
      var m := a + (b - a) / 2;
      if key(Target(layout, m, vec[m])) < k {
        a := m + 1;
      } else {
        b := m;
      }
    }
    if key(Target(layout, a, vec[a])) == k {
      if Sorted(v, key) {
        FirstMatchIs(v, key, k, 0, vec.Length, a);
      }
      return Some(a);
    }
    return None;
  }
}

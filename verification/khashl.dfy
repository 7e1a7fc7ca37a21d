/** An open-addressing hash table: linear probing over a power-of-two number of
    buckets, backward-shift deletion, and an in-place rehash that kicks entries
    out of their old slots.  The bucket array and the `used` marks are real
    arrays, updated in place.

    `home(k, b)` is the bucket a key hashes to in a table of 2^b buckets.  It may
    be any function into that range; `FibonacciHashInRange` shows that the
    multiplicative hash of the source is one. */
module Khashl {

  datatype Bucket<K, V> = Bucket(key: K, val: V)

  function Pow2(b: nat): (p: nat)
    ensures p >= 1
  {
    if b == 0 then 1 else 2 * Pow2(b - 1)
  }

  lemma {:induction false} Pow2Monotone(a: nat, b: nat)
    requires a <= b
    ensures Pow2(a) <= Pow2(b)
    ensures a < b ==> Pow2(a) < Pow2(b)
    decreases b - a
  {
    if a < b {
      Pow2Monotone(a + 1, b);
    }
  }

  /** The multiplicative hash: multiply modulo 2^32 and keep the top `bits` bits.
      `x` stands for the hash value xor-ed with the salt. */
  function FibonacciHash(x: nat, bits: nat): int
    requires 1 <= bits < 32
  {
    (x * 2654435769 % 0x1_0000_0000) / Pow2(32 - bits)
  }

  lemma {:induction false} Pow2Split(a: nat, b: nat)
    ensures Pow2(a) * Pow2(b) == Pow2(a + b)
  {
    if a != 0 {
      Pow2Split(a - 1, b);
      assert 2 * Pow2(a - 1) * Pow2(b) == 2 * Pow2(a - 1 + b);
    }
  }

  lemma Pow2Of32()
    ensures Pow2(32) == 0x1_0000_0000
  {
    assert Pow2(8) == 256;
    Pow2Split(8, 8);
    Pow2Split(16, 16);
  }

  lemma DivideBelow(y: nat, p: nat, q: nat)
    requires q > 0 && y < p * q
    ensures 0 <= y / q < p
  {
    var d := y / q;
    assert y == q * d + y % q;
    if p <= d {
      MulMonotone(p, d, q);
      assert false;
    }
  }

  lemma MulMonotone(a: nat, b: nat, c: nat)
    requires a <= b
    ensures a * c <= b * c
  {
  }

  lemma FibonacciHashInRange(x: nat, bits: nat)
    requires 1 <= bits < 32
    ensures 0 <= FibonacciHash(x, bits) < Pow2(bits)
  {
    Pow2Of32();
    Pow2Split(bits, 32 - bits);
    DivideBelow(x * 2654435769 % 0x1_0000_0000, Pow2(bits), Pow2(32 - bits));
  }

  lemma DivideBetween(y: nat, q: nat)
    requires q > 0
    ensures q * (y / q) <= y < q * (y / q) + q
  {
    assert y == q * (y / q) + y % q;
  }

  /** It is the top bits of the product with the golden ratio, cut to 32 bits. */
  lemma FibonacciHashTopBits(x: nat, bits: nat)
    requires 1 <= bits < 32
    ensures var h, y, p := FibonacciHash(x, bits), x * 2654435769 % 4294967296, Pow2(32 - bits); p * h <= y < p * h + p
  {
    hide Pow2;
    DivideBetween(x * 2654435769 % 4294967296, Pow2(32 - bits));
  }

  /** The largest entry count a capacity may hold: 75%. */
  function MaxCount(cap: nat): nat {
    cap / 2 + cap / 4
  }

  /** It is three quarters of the capacities that occur. */
  lemma LoadLimit(cap: nat)
    requires cap % 4 == 0
    ensures 4 * MaxCount(cap) == 3 * cap
  {
    var q := cap / 4;
    assert cap == 4 * q && cap / 2 == 2 * q;
  }

  lemma Pow2Quarters(bits: nat)
    requires bits >= 2
    ensures Pow2(bits) % 4 == 0
  {
    Pow2Split(bits - 2, 2);
    assert Pow2(2) == 4;
  }

  /** The capacity that takes one more entry: a table at its limit is doubled. */
  function Room(cap: nat, count: nat): (r: nat)
    ensures cap % 4 == 0 ==> r % 4 == 0
  {
    if count < MaxCount(cap) then cap else if cap == 0 then 4 else 2 * cap
  }

  /** The bucket after `i`, wrapping around. */
  function Next(i: nat, n: nat): (r: nat)
    requires i < n
    ensures r < n
  {
    if i + 1 == n then 0 else i + 1
  }

  /** How many steps of `Next` lead from `h` to `i`. */
  function Distance(h: nat, i: nat, n: nat): nat
    requires h < n && i < n
  {
    if h <= i then i - h else i - h + n
  }

  lemma DistanceStep(h: nat, i: nat, n: nat)
    requires h < n && i < n && h != i
    ensures Distance(Next(h, n), i, n) == Distance(h, i, n) - 1
  {
  }

  /** `j` is one of the buckets a probe that starts at `h` passes before it reaches `i`. */
  predicate Between(h: nat, j: nat, i: nat) {
    if h <= i then h <= j < i else j >= h || j < i
  }

  function CountUsed(u: seq<bool>): nat {
    if u == [] then 0 else CountUsed(u[..|u| - 1]) + if u[|u| - 1] then 1 else 0
  }

  lemma {:induction false} CountUpdate(u: seq<bool>, i: nat, b: bool)
    requires i < |u|
    ensures CountUsed(u[i := b]) == CountUsed(u) - (if u[i] then 1 else 0) + (if b then 1 else 0)
  {
    var n := |u| - 1;
    if i < n {
      assert u[i := b][..n] == u[..n][i := b];
      CountUpdate(u[..n], i, b);
    } else {
      assert u[i := b][..n] == u[..n];
    }
  }

  lemma {:induction false} FreeSlotExists(u: seq<bool>) returns (f: nat)
    requires CountUsed(u) < |u|
    ensures f < |u| && !u[f]
  {
    var n := |u| - 1;
    if u[n] {
      f := FreeSlotExists(u[..n]);
    } else {
      f := n;
    }
  }

  lemma {:induction false} NoneUsed(u: seq<bool>)
    requires forall i | 0 <= i < |u| :: !u[i]
    ensures CountUsed(u) == 0
  {
    if u != [] {
      NoneUsed(u[..|u| - 1]);
    }
  }

  /** Every used bucket is reached from its key's home through used buckets only. */
  ghost predicate ProbesUnbroken<K(!new), V>(used: seq<bool>, ks: seq<Bucket<K, V>>, home: (K, nat) -> nat, bits: nat)
    requires |used| <= |ks|
  {
    forall i, j | 0 <= i < |used| && 0 <= j < |used| && used[i] && Between(home(ks[i].key, bits), j, i) :: used[j]
  }

  /** A slot of the shared bucket array is live when the old or the new marks say so. */
  predicate Live(old_: seq<bool>, new_: seq<bool>, i: nat) {
    (i < |old_| && old_[i]) || (i < |new_| && new_[i])
  }

  /** `slots` is the one-to-one correspondence between the stored keys and the live buckets. */
  ghost predicate Placed<K(!new), V>(ou: seq<bool>, nu: seq<bool>, ks: seq<Bucket<K, V>>, slots: map<K, nat>) {
    && (forall i | 0 <= i < |ks| && Live(ou, nu, i) :: ks[i].key in slots && slots[ks[i].key] == i)
    && (forall k | k in slots :: slots[k] < |ks| && Live(ou, nu, slots[k]) && ks[slots[k]].key == k)
  }

  ghost predicate HomeInRange<K(!new)>(home: (K, nat) -> nat) {
    forall k, b :: home(k, b) < Pow2(b)
  }

  // ----- The in-place rehash -----

  /** What holds between two kicks: old and new marks are disjoint, the keys are in
      one-to-one correspondence with the live buckets, and the entries placed so far
      are reachable in the new geometry. */
  ghost predicate Rehashing<K(!new), V>(ou: seq<bool>, nu: seq<bool>, ks: seq<Bucket<K, V>>, slots: map<K, nat>,
                                        home: (K, nat) -> nat, newBits: nat)
  {
    && |ou| <= |ks| && |nu| <= |ks| && |nu| == Pow2(newBits)
    && (forall i | 0 <= i < |ou| && i < |nu| :: !(ou[i] && nu[i]))
    && Placed(ou, nu, ks, slots)
    && ProbesUnbroken(nu, ks, home, newBits)
  }

  /** Nothing is lost or duplicated: `m` is what is placed, plus the entry in hand. */
  ghost predicate Conserved<K(!new), V>(m: map<K, V>, slots: map<K, nat>, ks: seq<Bucket<K, V>>, hand: Bucket<K, V>)
    requires forall k | k in slots :: slots[k] < |ks|
  {
    && hand.key !in slots
    && m.Keys == slots.Keys + {hand.key}
    && m[hand.key] == hand.val
    && forall k | k in slots :: m[k] == ks[slots[k]].val
  }

  ghost predicate AllPlaced<K(!new), V>(m: map<K, V>, slots: map<K, nat>, ks: seq<Bucket<K, V>>)
    requires forall k | k in slots :: slots[k] < |ks|
  {
    && m.Keys == slots.Keys
    && forall k | k in slots :: m[k] == ks[slots[k]].val
  }

  /** `i` is where the probe for `key` ends: free, and reached over used buckets only. */
  ghost predicate ProbeEnd(nu: seq<bool>, h: nat, i: nat) {
    && i < |nu| && !nu[i]
    && forall j | 0 <= j < |nu| && Between(h, j, i) :: nu[j]
  }

  /** Taking an entry out of its old slot, to hold it in hand. */
  lemma TakeStep<K(!new), V>(ou: seq<bool>, nu: seq<bool>, ks: seq<Bucket<K, V>>, slots: map<K, nat>,
                             home: (K, nat) -> nat, newBits: nat, m: map<K, V>, j: nat)
    returns (slots': map<K, nat>)
    requires Rehashing(ou, nu, ks, slots, home, newBits)
    requires AllPlaced(m, slots, ks)
    requires j < |ou| && ou[j]
    ensures Rehashing(ou[j := false], nu, ks, slots', home, newBits)
    ensures Conserved(m, slots', ks, ks[j])
  {
    assert Live(ou, nu, j);
    slots' := map k | k in slots && k != ks[j].key :: slots[k];
    var ou' := ou[j := false];
    forall i | 0 <= i < |ks| && Live(ou', nu, i)
      ensures ks[i].key in slots' && slots'[ks[i].key] == i
    {
      assert Live(ou, nu, i);
    }
    forall k | k in slots'
      ensures slots'[k] < |ks| && Live(ou', nu, slots'[k]) && ks[slots'[k]].key == k
    {
      assert slots[k] != j;
    }
  }

  /** Putting the entry in hand into a free new slot that no old entry occupies. */
  lemma WriteStep<K(!new), V>(ou: seq<bool>, nu: seq<bool>, ks: seq<Bucket<K, V>>, slots: map<K, nat>,
                              home: (K, nat) -> nat, newBits: nat, m: map<K, V>, hand: Bucket<K, V>, i: nat)
    requires Rehashing(ou, nu, ks, slots, home, newBits)
    requires Conserved(m, slots, ks, hand)
    requires ProbeEnd(nu, home(hand.key, newBits), i)
    requires i < |ou| ==> !ou[i]
    ensures Rehashing(ou, nu[i := true], ks[i := hand], slots[hand.key := i], home, newBits)
    ensures AllPlaced(m, slots[hand.key := i], ks[i := hand])
  {
  }

  /** A kick: the entry in hand replaces an old entry, which is then in hand. */
  lemma KickStep<K(!new), V>(ou: seq<bool>, nu: seq<bool>, ks: seq<Bucket<K, V>>, slots: map<K, nat>,
                             home: (K, nat) -> nat, newBits: nat, m: map<K, V>, hand: Bucket<K, V>, i: nat)
    returns (slots': map<K, nat>)
    requires Rehashing(ou, nu, ks, slots, home, newBits)
    requires Conserved(m, slots, ks, hand)
    requires ProbeEnd(nu, home(hand.key, newBits), i)
    requires i < |ou| && ou[i]
    ensures Rehashing(ou[i := false], nu[i := true], ks[i := hand], slots', home, newBits)
    ensures Conserved(m, slots', ks[i := hand], ks[i])
  {
    var ou1 := ou[i := false];
    var slots1 := TakeStep(ou, nu, ks, slots, home, newBits, m - {hand.key}, i);
    WriteStep(ou1, nu, ks, slots1, home, newBits, m - {ks[i].key}, hand, i);
    slots' := slots1[hand.key := i];
  }

  /** The number of binary digits of `x`. */
  function Digits(x: nat): nat {
    if x == 0 then 0 else 1 + Digits(x / 2)
  }

  lemma {:induction false} DigitsBounds(x: nat)
    ensures x < Pow2(Digits(x))
    ensures x != 0 ==> Pow2(Digits(x) - 1) <= x
  {
    if x != 0 {
      DigitsBounds(x / 2);
    }
  }

  /** The table size a resize request is rounded to. */
  function RoundedBits(request: nat): nat {
    var j := Digits(request / 2);
    var j' := if request != 0 && request != Pow2(j) then j + 1 else j;
    if j' > 2 then j' else 2
  }

  lemma RoundedBitsCovers(request: nat)
    ensures var r := RoundedBits(request); r >= 2 && request <= Pow2(r) && (r == 2 || Pow2(r - 1) < request)
  {
    DigitsBounds(request);
    Pow2Monotone(Digits(request / 2), RoundedBits(request));
  }

  /** It is the least power of two that covers the request, and at least four. */
  lemma RoundedBitsLeast(request: nat, b: nat)
    ensures b == RoundedBits(request) <==> b >= 2 && request <= Pow2(b) && (b == 2 || Pow2(b - 1) < request)
  {
    RoundedBitsCovers(request);
    var r := RoundedBits(request);
    hide RoundedBits, Pow2;
    if b < r {
      Pow2Monotone(b, r - 1);
    } else if r < b {
      Pow2Monotone(r, b - 1);
    }
  }

  method NewBits(request: nat) returns (b: nat)
    ensures b == RoundedBits(request)
  {
    var j: nat, x: nat := 0, request / 2;
    while x != 0
      invariant j + Digits(x) == Digits(request / 2)
    {
      x := x / 2;
      j := j + 1;
    }
    if request != 0 && request != Pow2(j) {
      j := j + 1;
    }
    b := if j > 2 then j else 2;
  }

  /** Walks from `h` to the first unmarked slot. */
  method ProbeFree(nu: array<bool>, h: nat) returns (i: nat)
    requires h < nu.Length
    requires CountUsed(nu[..]) < nu.Length
    ensures ProbeEnd(nu[..], h, i)
  {
    ghost var f := FreeSlotExists(nu[..]);
    i := h;
    while nu[i]
      invariant i < nu.Length
      invariant forall j | 0 <= j < nu.Length && Between(h, j, i) :: nu[j]
      decreases Distance(i, f, nu.Length)
    {
      i := Next(i, nu.Length);
    }
  }

  /** The loops of the rehash.  Every entry marked in `ou` ends up marked in `nu`
      instead, at a slot its probe reaches, and nothing else is stored. */
  method Rehash<K(!new), V>(ou: array<bool>, nu: array<bool>, ks: array<Bucket<K, V>>,
                            home: (K, nat) -> nat, newBits: nat, ghost slots0: map<K, nat>, ghost m: map<K, V>)
    returns (ghost slots: map<K, nat>)
    requires ou != nu
    requires HomeInRange(home)
    requires forall i | 0 <= i < nu.Length :: !nu[i]
    requires Rehashing(ou[..], nu[..], ks[..], slots0, home, newBits)
    requires AllPlaced(m, slots0, ks[..])
    requires CountUsed(ou[..]) <= MaxCount(nu.Length)
    modifies ou, nu, ks
    ensures Rehashing(ou[..], nu[..], ks[..], slots, home, newBits)
    ensures AllPlaced(m, slots, ks[..])
    ensures forall i | 0 <= i < ou.Length :: !ou[i]
    ensures CountUsed(nu[..]) == old(CountUsed(ou[..]))
  {
    slots := slots0;
    NoneUsed(nu[..]);
    var j := 0;
    while j != ou.Length
      invariant 0 <= j <= ou.Length
      invariant forall i | 0 <= i < j :: !ou[i]
      invariant Rehashing(ou[..], nu[..], ks[..], slots, home, newBits)
      invariant AllPlaced(m, slots, ks[..])
      invariant CountUsed(ou[..]) + CountUsed(nu[..]) == old(CountUsed(ou[..]))
    {
      if ou[j] {
        slots := KickOut(ou, nu, ks, home, newBits, slots, m, j);
      }
      j := j + 1;
    }
    NoneUsed(ou[..]);
  }

  /** One chain of kicks, from taking the entry at `j` to writing an entry to an empty slot.
      Each kick clears one old mark, so the chain ends. */
  method KickOut<K(!new), V>(ou: array<bool>, nu: array<bool>, ks: array<Bucket<K, V>>,
                             home: (K, nat) -> nat, newBits: nat, ghost slots0: map<K, nat>, ghost m: map<K, V>, j: nat)
    returns (ghost slots: map<K, nat>)
    requires ou != nu
    requires HomeInRange(home)
    requires Rehashing(ou[..], nu[..], ks[..], slots0, home, newBits)
    requires AllPlaced(m, slots0, ks[..])
    requires j < ou.Length && ou[j]
    requires CountUsed(ou[..]) + CountUsed(nu[..]) <= MaxCount(nu.Length)
    modifies ou, nu, ks
    ensures Rehashing(ou[..], nu[..], ks[..], slots, home, newBits)
    ensures AllPlaced(m, slots, ks[..])
    ensures !ou[j] && forall i | 0 <= i < ou.Length && ou[i] :: old(ou[i])
    ensures CountUsed(ou[..]) + CountUsed(nu[..]) == old(CountUsed(ou[..]) + CountUsed(nu[..]))
  {
    var hand := ks[j];
    ghost var ou0 := ou[..];
    slots := TakeStep(ou0, nu[..], ks[..], slots0, home, newBits, m, j);
    CountUpdate(ou0, j, false);
    ou[j] := false;
    assert ou[..] == ou0[j := false];
    var done := false;
    while !done
      invariant Rehashing(ou[..], nu[..], ks[..], slots, home, newBits)
      invariant if done then AllPlaced(m, slots, ks[..]) else Conserved(m, slots, ks[..], hand)
      invariant !ou[j] && forall i | 0 <= i < ou.Length && ou[i] :: ou0[i]
      invariant CountUsed(ou[..]) + CountUsed(nu[..]) + (if done then 0 else 1) == old(CountUsed(ou[..]) + CountUsed(nu[..]))
      decreases !done, CountUsed(ou[..])
    {
      done, hand, slots := KickOnce(ou, nu, ks, home, newBits, slots, m, hand);
    }
  }

  method KickOnce<K(!new), V>(ou: array<bool>, nu: array<bool>, ks: array<Bucket<K, V>>,
                              home: (K, nat) -> nat, newBits: nat, ghost slots0: map<K, nat>, ghost m: map<K, V>,
                              hand: Bucket<K, V>)
    returns (done: bool, next: Bucket<K, V>, ghost slots: map<K, nat>)
    requires ou != nu
    requires HomeInRange(home)
    requires Rehashing(ou[..], nu[..], ks[..], slots0, home, newBits)
    requires Conserved(m, slots0, ks[..], hand)
    requires CountUsed(ou[..]) + CountUsed(nu[..]) < MaxCount(nu.Length)
    modifies ou, nu, ks
    ensures Rehashing(ou[..], nu[..], ks[..], slots, home, newBits)
    ensures if done then AllPlaced(m, slots, ks[..]) else Conserved(m, slots, ks[..], next)
    ensures forall i | 0 <= i < ou.Length && ou[i] :: old(ou[i])
    ensures CountUsed(nu[..]) == old(CountUsed(nu[..])) + 1
    ensures CountUsed(ou[..]) == old(CountUsed(ou[..])) - (if done then 0 else 1)
  {
    ghost var ou0, nu0, ks0 := ou[..], nu[..], ks[..];
    next := hand;
    var i := ProbeFree(nu, home(hand.key, newBits));
    CountUpdate(nu0, i, true);
    nu[i] := true;
    assert nu[..] == nu0[i := true];
    done := !(i < ou.Length && ou[i]);
    if !done {
      slots := KickStep(ou0, nu0, ks0, slots0, home, newBits, m, hand, i);
      CountUpdate(ou0, i, false);
      ks[i], next := hand, ks[i];
      ou[i] := false;
    } else {
      WriteStep(ou0, nu0, ks0, slots0, home, newBits, m, hand, i);
      slots := slots0[hand.key := i];
      ks[i] := hand;
    }
    assert ks[..] == ks0[i := hand];
    assert ou[..] == if done then ou0 else ou0[i := false];
  }

  // ----- Backward-shift deletion -----

  /** Slot `i` is a hole being moved: its content no longer counts, its mark is still set,
      and the slots after it up to `j` have been inspected.  No inspected entry is
      reached through the hole. */
  ghost predicate Hole<K(!new), V>(used: seq<bool>, ks: seq<Bucket<K, V>>, slots: map<K, nat>,
                                   home: (K, nat) -> nat, bits: nat, i: nat, j: nat)
  {
    && |used| == |ks| && i < |used| && j < |used| && used[i] && used[j]
    && (forall x | 0 <= x < |used| && used[x] && x != i :: ks[x].key in slots && slots[ks[x].key] == x)
    && (forall k | k in slots :: slots[k] < |used| && used[slots[k]] && slots[k] != i && ks[slots[k]].key == k)
    && (forall x, y | 0 <= x < |used| && 0 <= y < |used| && used[x] && x != i && Between(home(ks[x].key, bits), y, x) :: used[y])
    && (forall y | 0 <= y < |used| && Between(i, y, j) :: used[y])
    && (forall x | 0 <= x < |used| && used[x] && x != i && Between(home(ks[x].key, bits), i, x) :: x != j && !Between(i, x, j))
  }

  lemma HoleStart<K(!new), V>(used: seq<bool>, ks: seq<Bucket<K, V>>, slots: map<K, nat>,
                              home: (K, nat) -> nat, bits: nat, i: nat)
    requires |used| == |ks| && i < |used| && used[i]
    requires Placed([], used, ks, slots) && ProbesUnbroken(used, ks, home, bits)
    ensures Hole(used, ks, map k | k in slots && k != ks[i].key :: slots[k], home, bits, i, i)
  {
  }

  lemma HoleIs<K(!new), V>(used: seq<bool>, ks: seq<Bucket<K, V>>, slots: map<K, nat>,
                           home: (K, nat) -> nat, bits: nat, i: nat, j: nat)
    requires Hole(used, ks, slots, home, bits, i, j)
    ensures i < |used| == |ks| && j < |used| && used[i] && used[j] && forall k | k in slots :: slots[k] < |used|
  {
  }

  /** The test the deletion loop makes on the entry at `j`, whose home is `k`. */
  predicate Shifts(i: nat, j: nat, k: nat) {
    (j > i && (k <= i || k > j)) || (j < i && (k <= i && k > j))
  }

  lemma HoleAdvance<K(!new), V>(used: seq<bool>, ks: seq<Bucket<K, V>>, slots: map<K, nat>,
                                home: (K, nat) -> nat, bits: nat, i: nat, j: nat)
    requires Hole(used, ks, slots, home, bits, i, j)
    requires HomeInRange(home) && |used| == Pow2(bits)
    ensures var j' := Next(j, |used|);
            j' != i && used[j'] ==>
              if Shifts(i, j', home(ks[j'].key, bits))
              then Hole(used, ks[i := ks[j']], slots[ks[j'].key := i], home, bits, j', j')
              else Hole(used, ks, slots, home, bits, i, j')
  {
  }

  /** Once the scan meets a free slot, nothing depends on the hole and its mark can go. */
  lemma HoleEnd<K(!new), V>(used: seq<bool>, ks: seq<Bucket<K, V>>, slots: map<K, nat>,
                            home: (K, nat) -> nat, bits: nat, i: nat, j: nat, f: nat)
    requires Hole(used, ks, slots, home, bits, i, j)
    requires f < |used| && !used[f]
    requires Next(j, |used|) == i || !used[Next(j, |used|)]
    ensures Placed([], used[i := false], ks, slots)
    ensures ProbesUnbroken(used[i := false], ks, home, bits)
  {
  }

  /** The whole rehash, from a table in the first buckets of `ks` to a table of the new size there. */
  method RehashInto<K(!new), V>(ou: array<bool>, nu: array<bool>, ks: array<Bucket<K, V>>,
                                home: (K, nat) -> nat, newBits: nat,
                                ghost was: seq<Bucket<K, V>>, ghost slots0: map<K, nat>, ghost m: map<K, V>)
    returns (ghost slots: map<K, nat>, ghost kept: seq<Bucket<K, V>>)
    requires ou != nu
    requires HomeInRange(home)
    requires Placed([], ou[..], was, slots0) && ou.Length == |was| && was <= ks[..]
    requires nu.Length == Pow2(newBits) <= ks.Length && forall i | 0 <= i < nu.Length :: !nu[i]
    requires AllPlaced(m, slots0, was)
    requires CountUsed(ou[..]) <= MaxCount(nu.Length)
    modifies ou, nu, ks
    ensures kept == ks[..nu.Length]
    ensures Placed([], nu[..], kept, slots)
    ensures ProbesUnbroken(nu[..], kept, home, newBits)
    ensures AllPlaced(m, slots, kept)
    ensures CountUsed(nu[..]) == old(CountUsed(ou[..]))
  {
    RehashStart(ou[..], nu[..], was, ks[..], slots0, home, newBits, m);
    slots := Rehash(ou, nu, ks, home, newBits, slots0, m);
    RehashDone(ou[..], nu[..], ks[..], slots, m);
    kept := ks[..nu.Length];
    assert ks[..][..nu.Length] == kept;
  }

  /** The buckets moved to an array of another size, as many as fit. */
  method Reallocate<K(0), V(0)>(ks: array<Bucket<K, V>>, m: nat) returns (more: array<Bucket<K, V>>)
    ensures fresh(more) && more.Length == m
    ensures if m <= ks.Length then more[..] == ks[..m] else ks[..] <= more[..]
  {
    more := new Bucket<K, V>[m];
    forall i | 0 <= i < m && i < ks.Length {
      more[i] := ks[i];
    }
  }

  /** The marks and buckets of a table after a resize that does take place: reallocation
      before the rehash (to grow) or after it (to shrink). */
  method Rebuilt<K(!new, 0), V(0)>(used: array<bool>, keys: array<Bucket<K, V>>, home: (K, nat) -> nat, newBits: nat,
                                   ghost slots: map<K, nat>, ghost m: map<K, V>)
    returns (nu: array<bool>, ks: array<Bucket<K, V>>, ghost newSlots: map<K, nat>)
    requires HomeInRange(home)
    requires used.Length == keys.Length && Placed([], used[..], keys[..], slots)
    requires AllPlaced(m, slots, keys[..])
    requires CountUsed(used[..]) <= MaxCount(Pow2(newBits))
    modifies used, keys
    ensures fresh(nu) && (ks == keys || fresh(ks))
    ensures nu.Length == ks.Length == Pow2(newBits)
    ensures Placed([], nu[..], ks[..], newSlots)
    ensures ProbesUnbroken(nu[..], ks[..], home, newBits)
    ensures AllPlaced(m, newSlots, ks[..])
    ensures CountUsed(nu[..]) == old(CountUsed(used[..]))
  {
    var cap := Pow2(newBits);
    nu := new bool[cap](_ => false);
    ghost var was := keys[..];
    ghost var kept;
    if keys.Length <= cap {
      ks := keys;
      if keys.Length < cap {
        ks := Reallocate(keys, cap);
      }
      newSlots, kept := RehashInto(used, nu, ks, home, newBits, was, slots, m);
    } else {
      newSlots, kept := RehashInto(used, nu, keys, home, newBits, was, slots, m);
      ks := Reallocate(keys, cap);
    }
    assert ks[..] == kept;
  }

  /** A deletion: shift entries back over the deleted one, then clear one mark. */
  method CloseHole<K(!new), V>(used: array<bool>, ks: array<Bucket<K, V>>, home: (K, nat) -> nat, bits: nat, at: nat,
                               ghost slots0: map<K, nat>, ghost m: map<K, V>)
    returns (ghost slots: map<K, nat>)
    requires HomeInRange(home)
    requires used.Length == ks.Length == Pow2(bits) && at < used.Length && used[at]
    requires Placed([], used[..], ks[..], slots0) && ProbesUnbroken(used[..], ks[..], home, bits)
    requires CountUsed(used[..]) < used.Length
    requires m.Keys == slots0.Keys - {ks[at].key} && forall k | k in m :: m[k] == ks[slots0[k]].val
    modifies used, ks
    ensures Placed([], used[..], ks[..], slots) && ProbesUnbroken(used[..], ks[..], home, bits)
    ensures AllPlaced(m, slots, ks[..])
    ensures CountUsed(used[..]) == old(CountUsed(used[..])) - 1
  {
    assert (used as object) != ks;
    var hole;
    hole, slots := ShiftBack(used, ks, home, bits, at, slots0, m);
    CountUpdate(used[..], hole, false);
    Unmark(used, hole);
  }

  /** The shifting loop. */
  method ShiftBack<K(!new), V>(used: array<bool>, ks: array<Bucket<K, V>>, home: (K, nat) -> nat, bits: nat, at: nat,
                               ghost slots0: map<K, nat>, ghost m: map<K, V>)
    returns (hole: nat, ghost slots: map<K, nat>)
    requires HomeInRange(home)
    requires used.Length == ks.Length == Pow2(bits) && at < used.Length && used[at]
    requires Placed([], used[..], ks[..], slots0) && ProbesUnbroken(used[..], ks[..], home, bits)
    requires CountUsed(used[..]) < used.Length
    requires m.Keys == slots0.Keys - {ks[at].key} && forall k | k in m :: m[k] == ks[slots0[k]].val
    modifies ks
    ensures used[..] == old(used[..]) && hole < used.Length && used[hole]
    ensures Placed([], used[..][hole := false], ks[..], slots)
    ensures ProbesUnbroken(used[..][hole := false], ks[..], home, bits)
    ensures AllPlaced(m, slots, ks[..])
  {
    ghost var f := FreeSlotExists(used[..]);
    hole := at;
    slots := map k | k in slots0 && k != ks[at].key :: slots0[k];
    assert forall k | k in m :: m[k] == ks[..][slots0[k]].val;
    hide *;
    HoleStart(used[..], ks[..], slots0, home, bits, at);
    OthersPlaced(used[..], m, slots0, ks[..], ks[at].key);
    ghost var j;
    hole, j, slots := ScanOn(used, ks, home, bits, at, slots, m, f);
    HoleEnd(used[..], ks[..], slots, home, bits, hole, j, f);
    HoleIs(used[..], ks[..], slots, home, bits, hole, j);
  }

  /** The deletion loop, from the hole at `at` to where its scan ends; `f` is a free slot. */
  method ScanOn<K(!new), V>(used: array<bool>, ks: array<Bucket<K, V>>, home: (K, nat) -> nat, bits: nat, at: nat,
                            ghost slots0: map<K, nat>, ghost m: map<K, V>, ghost f: nat)
    returns (hole: nat, ghost last: nat, ghost slots: map<K, nat>)
    requires HomeInRange(home) && used.Length == ks.Length == Pow2(bits) && f < used.Length && !used[f]
    requires Hole(used[..], ks[..], slots0, home, bits, at, at) && AllPlaced(m, slots0, ks[..])
    modifies ks
    ensures used[..] == old(used[..])
    ensures Hole(used[..], ks[..], slots, home, bits, hole, last) && AllPlaced(m, slots, ks[..])
    ensures Next(last, used.Length) == hole || !used[Next(last, used.Length)]
  {
    HoleIs(used[..], ks[..], slots0, home, bits, at, at);
    hide Hole, AllPlaced, HomeInRange, Pow2;
    ghost var u := used[..];
    var j: nat, done := at, false;
    hole, slots := at, slots0;
    while !done
      invariant used[..] == u && hole < |u| && j < |u| && u[j] && forall k | k in slots :: slots[k] < |u|
      invariant Hole(u, ks[..], slots, home, bits, hole, j)
      invariant AllPlaced(m, slots, ks[..])
      invariant done ==> Next(j, |u|) == hole || !u[Next(j, |u|)]
      decreases !done, Distance(j, f, |u|)
    {
      DistanceStep(j, f, |u|);
      done, hole, j, slots := ScanStep(used, ks, home, bits, hole, j, slots, m);
      HoleIs(u, ks[..], slots, home, bits, hole, j);
    }
    last := j;
  }

  lemma OthersPlaced<K(!new), V>(used: seq<bool>, m: map<K, V>, slots0: map<K, nat>, ks: seq<Bucket<K, V>>, key: K)
    requires |used| == |ks| && Placed([], used, ks, slots0) && m.Keys == slots0.Keys - {key}
    requires forall k | k in m :: m[k] == ks[slots0[k]].val
    ensures AllPlaced(m, map k | k in slots0 && k != key :: slots0[k], ks)
  {
  }

  /** Writes a bucket to the free slot its probe ends at. */
  method WriteAt<K(!new), V>(used: array<bool>, ks: array<Bucket<K, V>>, home: (K, nat) -> nat, bits: nat,
                             ghost slots: map<K, nat>, ghost m: map<K, V>, b: Bucket<K, V>, i: nat)
    requires (used as object) != ks && used.Length == ks.Length == Pow2(bits)
    requires Placed([], used[..], ks[..], slots) && ProbesUnbroken(used[..], ks[..], home, bits)
    requires Conserved(m, slots, ks[..], b)
    requires ProbeEnd(used[..], home(b.key, bits), i)
    modifies used, ks
    ensures Placed([], used[..], ks[..], slots[b.key := i]) && ProbesUnbroken(used[..], ks[..], home, bits)
    ensures AllPlaced(m, slots[b.key := i], ks[..])
    ensures CountUsed(used[..]) == old(CountUsed(used[..])) + 1
    ensures used[i] && ks[i] == b
  {
    ghost var used0, ks0 := used[..], ks[..];
    WriteStep([], used0, ks0, slots, home, bits, m, b, i);
    CountUpdate(used0, i, true);
    ks[i] := b;
    used[i] := true;
    assert ks[..] == ks0[i := b];
    assert used[..] == used0[i := true];
  }

  method Unmark(used: array<bool>, i: nat)
    requires i < used.Length
    modifies used
    ensures used[..] == old(used[..])[i := false]
  {
    used[i] := false;
  }

  /** One round of the shifting loop: look at the slot after `j`, stop there if it is free,
      and otherwise move its entry into the hole when its probe passes the hole. */
  method ScanStep<K(!new), V>(used: array<bool>, ks: array<Bucket<K, V>>, home: (K, nat) -> nat, bits: nat, i: nat, j: nat,
                              ghost slots: map<K, nat>, ghost m: map<K, V>)
    returns (done: bool, i': nat, j': nat, ghost slots': map<K, nat>)
    requires HomeInRange(home)
    requires used.Length == Pow2(bits)
    requires Hole(used[..], ks[..], slots, home, bits, i, j)
    requires AllPlaced(m, slots, ks[..])
    modifies ks
    ensures Hole(used[..], ks[..], slots', home, bits, i', j')
    ensures AllPlaced(m, slots', ks[..])
    ensures if done then j' == j && (Next(j, used.Length) == i' || !used[Next(j, used.Length)]) else j' == Next(j, used.Length)
  {
    HoleAdvance(used[..], ks[..], slots, home, bits, i, j);
    done, i', j', slots' := false, i, Next(j, used.Length), slots;
    if j' == i || !used[j'] {
      done, j' := true, j;
    } else if Shifts(i, j', home(ks[j'].key, bits)) {
      ghost var ks0 := ks[..];
      slots' := slots[ks[j'].key := i];
      ks[i] := ks[j'];
      assert ks[..] == ks0[i := ks0[j']];
      i' := j';
    }
  }

  lemma SetValStep<K(!new), V>(used: seq<bool>, ks: seq<Bucket<K, V>>, slots: map<K, nat>, home: (K, nat) -> nat,
                               bits: nat, i: nat, v: V, m: map<K, V>)
    requires |used| == |ks| && i < |ks| && used[i]
    requires Placed([], used, ks, slots) && ProbesUnbroken(used, ks, home, bits)
    requires m.Keys == slots.Keys && forall k | k in slots :: m[k] == if slots[k] == i then v else ks[slots[k]].val
    ensures var ks' := ks[i := Bucket(ks[i].key, v)];
            Placed([], used, ks', slots) && ProbesUnbroken(used, ks', home, bits) && AllPlaced(m, slots, ks')
  {
  }

  method VisitUsed<K(!new), V>(used: array<bool>, ks: array<Bucket<K, V>>)
    returns (visited: seq<Bucket<K, V>>, ghost at: seq<nat>)
    requires used.Length == ks.Length
    ensures |at| == |visited| == CountUsed(used[..])
    ensures forall i | 0 <= i < |at| :: at[i] < used.Length && used[at[i]] && ks[at[i]] == visited[i]
    ensures forall i, j | 0 <= i < j < |at| :: at[i] < at[j]
    ensures forall y | 0 <= y < used.Length && used[y] :: y in at
  {
    visited, at := [], [];
    var x := 0;
    while x != used.Length
      invariant 0 <= x <= used.Length
      invariant |at| == |visited| == CountUsed(used[..x])
      invariant forall i | 0 <= i < |at| :: at[i] < x && used[at[i]] && ks[at[i]] == visited[i]
      invariant forall i, j | 0 <= i < j < |at| :: at[i] < at[j]
      invariant forall y | 0 <= y < x && used[y] :: y in at
    {
      assert used[..x + 1][..x] == used[..x];
      if used[x] {
        visited := visited + [ks[x]];
        at := at + [x];
      }
      x := x + 1;
    }
    assert used[..x] == used[..];
  }

  /** Visiting the used slots in increasing order meets every key exactly once. */
  lemma VisitedAll<K(!new), V>(used: seq<bool>, ks: seq<Bucket<K, V>>, slots: map<K, nat>, at: seq<nat>,
                               visited: seq<Bucket<K, V>>, m: map<K, V>)
    requires |used| == |ks| && Placed([], used, ks, slots) && AllPlaced(m, slots, ks)
    requires |at| == |visited|
    requires forall i | 0 <= i < |at| :: at[i] < |used| && used[at[i]] && ks[at[i]] == visited[i]
    requires forall i, j | 0 <= i < j < |at| :: at[i] < at[j]
    requires forall y | 0 <= y < |used| && used[y] :: y in at
    ensures ExactlyOnce(visited, m)
  {
  }

  /** `visited` lists the entries of `m`, each of them once. */
  ghost predicate ExactlyOnce<K(!new), V>(visited: seq<Bucket<K, V>>, m: map<K, V>) {
    && (forall i, j | 0 <= i < j < |visited| :: visited[i].key != visited[j].key)
    && (forall i | 0 <= i < |visited| :: visited[i].key in m && m[visited[i].key] == visited[i].val)
    && (forall k | k in m :: Bucket(k, m[k]) in visited)
  }

  /** A probe that comes round to its start has seen every slot. */
  lemma FullCircle<K(!new), V>(used: seq<bool>, ks: seq<Bucket<K, V>>, h: nat, i: nat, key: K)
    requires |used| == |ks| && h < |used| && i < |used|
    requires used[i] && ks[i].key != key && Next(i, |used|) == h
    requires forall j | 0 <= j < |used| && Between(h, j, i) :: used[j] && ks[j].key != key
    ensures forall j | 0 <= j < |used| :: used[j] && ks[j].key != key
  {
  }

  /** Where a probe for `key` stops tells whether the key is stored. */
  lemma SearchResult<K(!new), V>(used: seq<bool>, ks: seq<Bucket<K, V>>, slots: map<K, nat>, home: (K, nat) -> nat,
                                 bits: nat, key: K, i: nat, m: map<K, V>)
    requires |used| == |ks| == Pow2(bits) && i < |used|
    requires HomeInRange(home)
    requires Placed([], used, ks, slots) && ProbesUnbroken(used, ks, home, bits) && AllPlaced(m, slots, ks)
    requires forall j | 0 <= j < |used| && Between(home(key, bits), j, i) :: used[j] && ks[j].key != key
    ensures used[i] && ks[i].key == key ==> key in m && ks[i] == Bucket(key, m[key])
    ensures !used[i] ==> key !in m
    ensures (forall j | 0 <= j < |used| :: ks[j].key != key) ==> key !in m
  {
  }

  class Table<K(!new, ==, 0), V(0)> {
    const home: (K, nat) -> nat
    var bits: nat
    var count: nat
    var used: array?<bool>
    var keys: array?<Bucket<K, V>>
    ghost var slots: map<K, nat>   // where each key is stored
    ghost var Contents: map<K, V>  // the finite map the table stands for

    ghost predicate Valid()
      reads this, used, keys
    {
      && HomeInRange(home)
      && (keys == null ==> used == null && bits == 0 && count == 0 && slots == map[] && Contents == map[])
      && (keys != null ==>
            && used != null && (used as object) != keys && bits >= 2 && used.Length == keys.Length == Pow2(bits)
            && Placed([], used[..], keys[..], slots)
            && ProbesUnbroken(used[..], keys[..], home, bits)
            && AllPlaced(Contents, slots, keys[..])
            && CountUsed(used[..]) == count == |Contents| <= MaxCount(keys.Length))
    }

    function Capacity(): nat
      reads this, keys
    {
      if keys == null then 0 else keys.Length
    }

    /** A table never has more entries than three quarters of its buckets. */
    lemma QuarterFree()
      requires Valid()
      ensures 4 * count <= 3 * Capacity() && 4 * MaxCount(Capacity()) == 3 * Capacity()
      ensures slots.Keys == Contents.Keys && (keys == null ==> used == null)
    {
      if keys != null {
        Pow2Quarters(bits);
        LoadLimit(keys.Length);
      }
    }

    constructor (home: (K, nat) -> nat)
      requires HomeInRange(home)
      ensures Valid() && Contents == map[] && keys == null
    {
      this.home := home;
      bits, count, used, keys := 0, 0, null, null;
      slots, Contents := map[], map[];
    }

    /** Forgets every entry but keeps the buckets. */
    method Clear()
      requires Valid()
      modifies this, used
      ensures Valid() && Contents == map[] && count == 0
      ensures keys == old(keys) && used == old(used) && bits == old(bits)
    {
      if used != null {
        forall i | 0 <= i < used.Length {
          used[i] := false;
        }
        count := 0;
        slots, Contents := map[], map[];
        NoneUsed(used[..]);
      }
    }

    /** The slot of `key`, or the capacity when the key is absent. */
    method Get(key: K) returns (r: nat)
      requires Valid()
      ensures key in Contents ==> r < Capacity() && used[r] && keys[r] == Bucket(key, Contents[key])
      ensures key !in Contents ==> r == Capacity()
    {
      hide Placed, ProbesUnbroken, AllPlaced;
      if keys == null {
        return 0;
      }
      var n := keys.Length;
      var last := home(key, bits);
      var i: nat := last;
      while used[i] && keys[i].key != key
        invariant i < n
        invariant forall j | 0 <= j < n && Between(last, j, i) :: used[j] && keys[j].key != key
        decreases n - Distance(last, i, n)
      {
        if Next(i, n) == last {
          FullCircle(used[..], keys[..], last, i, key);
          SearchResult(used[..], keys[..], slots, home, bits, key, i, Contents);
        }
        i := Next(i, n);
        if i == last {
          return n;
        }
      }
      SearchResult(used[..], keys[..], slots, home, bits, key, i, Contents);
      r := if !used[i] then n else i;
    }

    /** Changes the number of buckets.  A request that would not change it, or that
        could not hold the entries, is ignored. */
    method Resize(request: nat)
      requires Valid()
      modifies this, used, keys
      ensures Valid() && Contents == old(Contents) && count == old(count)
      ensures var b := RoundedBits(request);
              if b == old(bits) || 4 * old(count) > 3 * Pow2(b)
              then bits == old(bits) && keys == old(keys) && used == old(used) && slots == old(slots)
              else bits == b && keys != null
      ensures keys == old(keys) || fresh(keys)
      ensures used == old(used) || fresh(used)
    {
      var newBits := NewBits(request);
      Pow2Quarters(newBits);
      LoadLimit(Pow2(newBits));
      if newBits == bits {
        return;
      }
      var m := Pow2(newBits);
      if count > MaxCount(m) {
        return;
      }
      if keys == null {
        keys := new Bucket<K, V>[m];
        used := new bool[m](_ => false);
        bits := newBits;
        NoneUsed(used[..]);
      } else {
        Rebuild(newBits);
      }
    }

    /** The rehash of a table that has buckets, with the reallocation before (to grow) or after it (to shrink). */
    method Rebuild(newBits: nat)
      requires Valid() && keys != null && newBits != bits && newBits >= 2
      requires count <= MaxCount(Pow2(newBits))
      modifies this, used, keys
      ensures Valid() && Contents == old(Contents) && count == old(count)
      ensures bits == newBits && keys != null
      ensures fresh(used)
      ensures keys == old(keys) || fresh(keys)
    {
      hide Placed, ProbesUnbroken, AllPlaced, HomeInRange;
      var newUsed, newKeys, newSlots := Rebuilt(used, keys, home, newBits, slots, Contents);
      Adopt(newUsed, newKeys, newBits, count, newSlots, Contents);
    }

    /** Makes room for one more entry when the table is at its load limit. */
    method Grow()
      requires Valid()
      modifies this, used, keys
      ensures Valid() && Contents == old(Contents) && count == old(count)
      ensures keys != null && count < MaxCount(keys.Length)
      ensures Capacity() == Room(old(Capacity()), count)
      ensures count < MaxCount(old(Capacity())) ==> keys == old(keys) && used == old(used) && slots == old(slots)
      ensures keys == old(keys) || fresh(keys)
      ensures used == old(used) || fresh(used)
    {
      hide Placed, ProbesUnbroken, AllPlaced, HomeInRange;
      var n := Capacity();
      if count >= MaxCount(n) {
        NextBits(n, bits, count);
        Resize(n + 1);
      }
    }

    /** The slot that holds `key`, or else the free slot its probe ends at. */
    method FindSlot(key: K) returns (i: nat)
      requires Valid() && keys != null
      ensures i < keys.Length && used[i] == (key in Contents)
      ensures used[i] ==> keys[i] == Bucket(key, Contents[key])
      ensures !used[i] ==> ProbeEnd(used[..], home(key, bits), i)
    {
      hide Placed, ProbesUnbroken, AllPlaced;
      var n := keys.Length;
      ghost var f := FreeSlotExists(used[..]);
      var last := home(key, bits);
      i := last;
      while used[i] && keys[i].key != key
        invariant i < n
        invariant forall j | 0 <= j < n && Between(last, j, i) :: used[j] && keys[j].key != key
        decreases n - Distance(last, i, n)
      {
        if Next(i, n) == last {
          FullCircle(used[..], keys[..], last, i, key);
        }
        i := Next(i, n);
        if i == last {
          break;
        }
      }
      SearchResult(used[..], keys[..], slots, home, bits, key, i, Contents);
    }

    /** Stores a bucket unless its key is present; an existing bucket is left untouched, and
        stays where it is unless the table is found at its load limit. */
    method Put(b: Bucket<K, V>) returns (i: nat, absent: bool)
      requires Valid()
      modifies this, used, keys
      ensures Valid()
      ensures absent == (b.key !in old(Contents))
      ensures Contents == if absent then old(Contents)[b.key := b.val] else old(Contents)
      ensures count == old(count) + if absent then 1 else 0
      ensures keys != null && i < keys.Length && used[i] && keys[i] == Bucket(b.key, Contents[b.key])
      ensures Capacity() == if 4 * old(count) < 3 * old(Capacity()) then old(Capacity())
                            else if old(Capacity()) == 0 then 4 else 2 * old(Capacity())
      ensures Capacity() == Room(old(Capacity()), old(count)) && 4 * count <= 3 * Capacity()
      ensures 4 * old(count) < 3 * old(Capacity()) ==>
                keys == old(keys) && used == old(used) && slots == if absent then old(slots)[b.key := i] else old(slots)
      ensures keys == old(keys) || fresh(keys)
      ensures used == old(used) || fresh(used)
    {
      QuarterFree();
      hide Valid, Placed, ProbesUnbroken, AllPlaced, HomeInRange, CountUsed, ProbeEnd, MaxCount;
      Grow();
      i := FindSlot(b.key);
      absent := !used[i];
      if absent {
        Insert(b, i);
      }
      QuarterFree();
    }

    method Insert(b: Bucket<K, V>, i: nat)
      requires Valid() && keys != null && count < MaxCount(keys.Length)
      requires b.key !in Contents && ProbeEnd(used[..], home(b.key, bits), i)
      modifies this, used, keys
      ensures Valid() && Contents == old(Contents)[b.key := b.val] && count == old(count) + 1
      ensures keys == old(keys) && used == old(used) && used[i] && keys[i] == b && slots == old(slots)[b.key := i]
    {
      hide ProbesUnbroken;
      ghost var contents := Contents[b.key := b.val];
      WriteAt(used, keys, home, bits, slots, contents, b, i);
      Adopt(used, keys, bits, count + 1, slots[b.key := i], contents);
    }

    /** Deletes the entry at slot `i`, which the caller found with `Get`. */
    method Del(i: nat) returns (deleted: bool)
      requires Valid()
      requires keys != null ==> i < keys.Length && used[i]
      modifies this, used, keys
      ensures Valid()
      ensures deleted == (old(keys) != null)
      ensures deleted ==> old(keys[i].key) in old(Contents) && Contents == old(Contents) - {old(keys[i].key)}
      ensures !deleted ==> Contents == old(Contents)
      ensures keys == old(keys) && used == old(used) && bits == old(bits)
      ensures count == old(count) - if deleted then 1 else 0
    {
      if keys == null {
        return false;
      }
      hide ProbesUnbroken;
      assert Live([], used[..], i);
      ghost var contents := Contents - {keys[i].key};
      assert contents.Keys == Contents.Keys - {keys[i].key};
      ghost var newSlots := CloseHole(used, keys, home, bits, i, slots, contents);
      Adopt(used, keys, bits, count - 1, newSlots, contents);
      return true;
    }

    /** Overwrites the value at a slot. */
    method SetVal(i: nat, v: V)
      requires Valid() && keys != null && i < keys.Length && used[i]
      modifies this, keys
      ensures Valid() && keys == old(keys) && used == old(used) && count == old(count)
      ensures keys[i].key in old(Contents) && keys[i] == Bucket(old(keys[i].key), v)
      ensures Contents == old(Contents)[keys[i].key := v]
    {
      hide ProbesUnbroken;
      ghost var keys0 := keys[..];
      var key := keys[i].key;
      assert Live([], used[..], i);
      ghost var contents := Contents[key := v];
      assert contents.Keys == slots.Keys;
      keys[i] := Bucket(key, v);
      assert keys[..] == keys0[i := Bucket(key, v)];
      SetValStep(used[..], keys0, slots, home, bits, i, v, contents);
      Adopt(used, keys, bits, count, slots, contents);
    }

    /** Visits the used slots in slot order. */
    method ForEach() returns (visited: seq<Bucket<K, V>>)
      requires Valid()
      ensures |visited| == count == |Contents|
      ensures ExactlyOnce(visited, Contents)
    {
      if keys == null {
        return [];
      }
      ghost var at;
      visited, at := VisitUsed(used, keys);
      VisitedAll(used[..], keys[..], slots, at, visited, Contents);
    }

    /** Installs new marks and buckets in place of the old ones. */
    method Adopt(newUsed: array<bool>, newKeys: array<Bucket<K, V>>, newBits: nat, newCount: nat,
                 ghost newSlots: map<K, nat>, ghost contents: map<K, V>)
      requires HomeInRange(home) && newBits >= 2
      requires newUsed.Length == newKeys.Length == Pow2(newBits)
      requires Placed([], newUsed[..], newKeys[..], newSlots)
      requires ProbesUnbroken(newUsed[..], newKeys[..], home, newBits)
      requires AllPlaced(contents, newSlots, newKeys[..])
      requires CountUsed(newUsed[..]) == newCount == |contents| <= MaxCount(newKeys.Length)
      modifies this
      ensures Valid() && Contents == contents
      ensures keys == newKeys && used == newUsed && bits == newBits && count == newCount && slots == newSlots
    {
      keys, used, bits, count := newKeys, newUsed, newBits, newCount;
      slots, Contents := newSlots, contents;
    }
  }

  /** A request for one bucket more than the table has doubles it. */
  lemma NextBits(n: nat, bits: nat, count: nat)
    requires if n == 0 then bits == 0 else bits >= 2 && n == Pow2(bits)
    requires count <= MaxCount(n)
    ensures RoundedBits(n + 1) == if n == 0 then 2 else bits + 1
    ensures Pow2(RoundedBits(n + 1)) == if n == 0 then 4 else 2 * n
    ensures count < MaxCount(Pow2(RoundedBits(n + 1)))
  {
    if n == 0 {
      RoundedBitsLeast(1, 2);
    } else {
      Pow2Monotone(2, bits);
      RoundedBitsLeast(n + 1, bits + 1);
    }
  }

  /** The entries of a table, moved to a large enough array, are ready to be rehashed. */
  lemma RehashStart<K(!new), V>(ou: seq<bool>, nu: seq<bool>, ks: seq<Bucket<K, V>>, ks': seq<Bucket<K, V>>,
                                slots: map<K, nat>, home: (K, nat) -> nat, newBits: nat, m: map<K, V>)
    requires Placed([], ou, ks, slots) && |ou| == |ks|
    requires |nu| == Pow2(newBits) && forall i | 0 <= i < |nu| :: !nu[i]
    requires |nu| <= |ks'| && ks <= ks'
    requires AllPlaced(m, slots, ks)
    ensures Rehashing(ou, nu, ks', slots, home, newBits)
    ensures AllPlaced(m, slots, ks')
    ensures CountUsed(nu) == 0
  {
    NoneUsed(nu);
    forall i | 0 <= i < |ks'| && Live(ou, nu, i)
      ensures ks'[i].key in slots && slots[ks'[i].key] == i
    {
      assert Live([], ou, i);
    }
    forall k | k in slots
      ensures slots[k] < |ks'| && Live(ou, nu, slots[k]) && ks'[slots[k]].key == k
    {
      assert Live([], ou, slots[k]);
    }
  }

  /** When no old mark is left, the new marks alone describe a table of the new size. */
  lemma RehashDone<K(!new), V>(ou: seq<bool>, nu: seq<bool>, ks: seq<Bucket<K, V>>, slots: map<K, nat>, m: map<K, V>)
    requires Placed(ou, nu, ks, slots)
    requires |nu| <= |ks| && forall i | 0 <= i < |ou| :: !ou[i]
    requires AllPlaced(m, slots, ks)
    ensures Placed([], nu, ks[..|nu|], slots)
    ensures AllPlaced(m, slots, ks[..|nu|])
  {
  }

  // ----- Whole runs -----

  datatype Op<K, V> =
    | OpPut(key: K, val: V)   // insert if absent
    | OpSet(key: K, val: V)   // insert or overwrite
    | OpGet(key: K)
    | OpDel(key: K)           // look up, delete if found
    | OpClear
    | OpResize(request: nat)

  datatype Answer<V> = Found(val: V) | NotFound | Done

  /** What each operation does to the finite map a table stands for. */
  function MapAfter<K, V>(m: map<K, V>, op: Op<K, V>): map<K, V> {
    match op
    case OpPut(k, v) => if k in m then m else m[k := v]
    case OpSet(k, v) => m[k := v]
    case OpGet(_) => m
    case OpDel(k) => m - {k}
    case OpClear => map[]
    case OpResize(_) => m
  }

  function MapAnswer<K, V>(m: map<K, V>, op: Op<K, V>): Answer<V> {
    match op
    case OpClear => Done
    case OpResize(_) => Done
    case _ => if op.key in m then Found(m[op.key]) else NotFound
  }

  function MapAfterAll<K, V>(m: map<K, V>, ops: seq<Op<K, V>>): map<K, V> {
    if ops == [] then m else MapAfter(MapAfterAll(m, ops[..|ops| - 1]), ops[|ops| - 1])
  }

  lemma InsertThenUpdate<K, V>(m: map<K, V>, m': map<K, V>, k: K, v: V)
    requires m' == if k in m then m else m[k := v]
    ensures m'[k := v] == m[k := v]
  {
  }

  /** Insert or overwrite, as the users of the table combine put with a store to the value. */
  method Assign<K(!new, ==, 0), V(0)>(t: Table<K, V>, k: K, v: V) returns (a: Answer<V>)
    requires t.Valid()
    modifies t, t.used, t.keys
    ensures t.Valid() && t.Contents == old(t.Contents)[k := v]
    ensures a == if k in old(t.Contents) then Found(old(t.Contents)[k]) else NotFound
    ensures t.keys == old(t.keys) || fresh(t.keys)
    ensures t.used == old(t.used) || fresh(t.used)
  {
    hide *;
    var i, absent := t.Put(Bucket(k, v));
    a := if absent then NotFound else Found(t.keys[i].val);
    InsertThenUpdate(old(t.Contents), t.Contents, k, v);
    t.SetVal(i, v);
  }

  /** Look up and delete. */
  method Remove<K(!new, ==, 0), V(0)>(t: Table<K, V>, k: K) returns (a: Answer<V>)
    requires t.Valid()
    modifies t, t.used, t.keys
    ensures t.Valid() && t.Contents == old(t.Contents) - {k}
    ensures a == if k in old(t.Contents) then Found(old(t.Contents)[k]) else NotFound
    ensures t.keys == old(t.keys) && t.used == old(t.used)
  {
    var i := t.Get(k);
    if i < t.Capacity() {
      a := Found(t.keys[i].val);
      var _ := t.Del(i);
    } else {
      a := NotFound;
    }
  }

  method Perform<K(!new, ==, 0), V(0)>(t: Table<K, V>, op: Op<K, V>) returns (a: Answer<V>)
    requires t.Valid()
    modifies t, t.used, t.keys
    ensures t.Valid() && t.Contents == MapAfter(old(t.Contents), op)
    ensures a == MapAnswer(old(t.Contents), op)
    ensures t.keys == old(t.keys) || fresh(t.keys)
    ensures t.used == old(t.used) || fresh(t.used)
  {
    hide Table.Valid, Placed, ProbesUnbroken, AllPlaced, HomeInRange, MaxCount, Room;
    match op
    case OpPut(k, v) =>
      var i, absent := t.Put(Bucket(k, v));
      a := if absent then NotFound else Found(t.keys[i].val);
    case OpSet(k, v) =>
      a := Assign(t, k, v);
    case OpGet(k) =>
      var i := t.Get(k);
      a := if i < t.Capacity() then Found(t.keys[i].val) else NotFound;
    case OpDel(k) =>
      a := Remove(t, k);
    case OpClear =>
      t.Clear();
      a := Done;
    case OpResize(n) =>
      t.Resize(n);
      a := Done;
  }

  /** Any run on a new table answers as the finite map does, and leaves a valid table of its content. */
  method RunAll<K(!new, ==, 0), V(0)>(home: (K, nat) -> nat, ops: seq<Op<K, V>>)
    returns (t: Table<K, V>, answers: seq<Answer<V>>)
    requires HomeInRange(home)
    ensures fresh(t) && t.Valid() && t.Contents == MapAfterAll(map[], ops)
    ensures |answers| == |ops|
    ensures forall i | 0 <= i < |ops| :: answers[i] == MapAnswer(MapAfterAll(map[], ops[..i]), ops[i])
  {
    hide Table.Valid, MapAnswer, MapAfter;
    t := new Table(home);
    answers := [];
    for x := 0 to |ops|
      invariant fresh(t) && (t.used != null ==> fresh(t.used)) && (t.keys != null ==> fresh(t.keys))
      invariant t.Valid() && t.Contents == MapAfterAll(map[], ops[..x])
      invariant |answers| == x
      invariant forall i | 0 <= i < x :: answers[i] == MapAnswer(MapAfterAll(map[], ops[..i]), ops[i])
    {
      assert ops[..x + 1][..x] == ops[..x];
      var a := Perform(t, ops[x]);
      answers := answers + [a];
    }
    assert ops[..|ops|] == ops;
  }
}

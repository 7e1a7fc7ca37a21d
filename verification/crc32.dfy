/** The CRC-32 that guards the project pack, and what the reader's check of it detects.

    Word operations have names so that proofs over byte strings need only their laws. */
module Crc32 {
  const POLYNOMIAL: bv32 := 0xEDB88320

  function Xor(x: bv32, y: bv32): bv32 { x ^ y }

  function Not(x: bv32): bv32 { !x }

  function Wide(b: bv8): bv32 { b as bv32 }

  /** Moves a word one byte up. */
  function Up(x: bv32): bv32 { x << 8 }

  function Half(c: bv32): bv32 { c >> 1 }

  function Feedback(c: bv32): bv32 { if c & 1 == 1 then POLYNOMIAL else 0 }

  function BitStep(c: bv32): bv32 {
    Xor(Half(c), Feedback(c))
  }

  function Steps(c: bv32, n: nat): bv32 {
    if n == 0 then c else BitStep(Steps(c, n - 1))
  }

  function ByteStep(c: bv32): bv32 {
    Steps(c, 8)
  }

  /** The shift register after the bytes `s`, started at `c`. */
  function Register(c: bv32, s: seq<bv8>): bv32 {
    if s == [] then c else ByteStep(Xor(Register(c, s[..|s| - 1]), Wide(s[|s| - 1])))
  }

  function Crc(c: bv32, s: seq<bv8>): bv32 {
    Not(Register(Not(c), s))
  }

  /** `crc32_update` */
  method Crc32Update(crc: bv32, data: seq<bv8>) returns (r: bv32)
    ensures r == Crc(crc, data)
  {
    hide Xor, Not, Wide, ByteStep;
    r := Not(crc);
    for i := 0 to |data|
      invariant r == Register(Not(crc), data[..i])
    {
      assert data[..i + 1][..i] == data[..i];
      r := EightSteps(Xor(r, Wide(data[i])));
    }
    assert data[..|data|] == data;
    r := Not(r);
  }

  /** The inner loop, for one byte. */
  method EightSteps(c: bv32) returns (r: bv32)
    ensures r == ByteStep(c)
  {
    hide BitStep;
    r := c;
    for j := 0 to 8
      invariant r == Steps(c, j)
    {
      r := OneStep(r);
    }
  }

  method OneStep(c: bv32) returns (r: bv32)
    ensures r == BitStep(c)
  {
    hide Xor, Feedback;
    MaskIsFeedback(c);
    r := Xor(c >> 1, 0xEDB88320 & (0 - (c & 1)));
  }

  lemma MaskIsFeedback(c: bv32)
    ensures 0xEDB88320 & (0 - (c & 1)) == Feedback(c)
  {
    assert c & 1 == 0 || c & 1 == 1;
  }

  // ----- Laws of words -----

  lemma NotNot(c: bv32)
    ensures Not(Not(c)) == c
  {
  }

  lemma NotXor(x: bv32, y: bv32)
    ensures y == Not(x) <==> Xor(x, y) == 0xFFFF_FFFF
  {
    XorNot(x);
    if Xor(x, y) == 0xFFFF_FFFF {
      XorCancels(Not(x), y, x);
    }
    hide Xor, Not;
  }

  lemma XorNot(x: bv32)
    ensures Xor(x, Not(x)) == 0xFFFF_FFFF
  {
  }

  lemma XorAssociative(x: bv32, y: bv32, z: bv32)
    ensures Xor(Xor(x, y), z) == Xor(x, Xor(y, z))
  {
  }

  lemma XorCancels(x: bv32, y: bv32, z: bv32)
    requires Xor(x, z) == Xor(y, z) || Xor(z, x) == Xor(z, y)
    ensures x == y
  {
  }

  // ----- Composition -----

  lemma {:induction false} RegisterConcat(c: bv32, s: seq<bv8>, t: seq<bv8>)
    ensures Register(c, s + t) == Register(Register(c, s), t)
  {
    hide ByteStep, Xor, Wide;
    if t == [] {
      assert s + t == s;
    } else {
      var n := |t| - 1;
      assert (s + t)[..|s + t| - 1] == s + t[..n];
      RegisterConcat(c, s, t[..n]);
    }
  }

  /** A checksum can be continued: the checksum of a concatenation is that of its second
      part, started from that of its first. */
  lemma CrcConcat(c: bv32, s: seq<bv8>, t: seq<bv8>)
    ensures Crc(c, s + t) == Crc(Crc(c, s), t)
  {
    hide Not, Register;
    RegisterConcat(Not(c), s, t);
    NotNot(Register(Not(c), s));
  }

  // ----- The register is linear and loses nothing -----

  lemma BitStepLinear(x: bv32, y: bv32)
    ensures BitStep(Xor(x, y)) == Xor(BitStep(x), BitStep(y))
  {
    HalfXor(x, y);
    FeedbackXor(x, y);
    XorRegroup(Half(x), Half(y), Feedback(x), Feedback(y));
    hide Half, Feedback, Xor;
  }

  lemma HalfXor(x: bv32, y: bv32)
    ensures Half(Xor(x, y)) == Xor(Half(x), Half(y))
  {
  }

  lemma FeedbackXor(x: bv32, y: bv32)
    ensures Feedback(Xor(x, y)) == Xor(Feedback(x), Feedback(y))
  {
    assert (x & 1 == 0 || x & 1 == 1) && (y & 1 == 0 || y & 1 == 1);
    assert (x ^ y) & 1 == (x & 1) ^ (y & 1);
  }

  lemma XorRegroup(a: bv32, b: bv32, c: bv32, d: bv32)
    ensures Xor(Xor(a, b), Xor(c, d)) == Xor(Xor(a, c), Xor(b, d))
  {
    XorAssociative(a, b, Xor(c, d));
    XorAssociative(b, c, d);
    XorCommutative(b, c);
    XorAssociative(c, b, d);
    XorAssociative(a, c, Xor(b, d));
    hide Xor;
  }

  lemma XorCommutative(x: bv32, y: bv32)
    ensures Xor(x, y) == Xor(y, x)
  {
  }

  lemma BitStepInjective(x: bv32, y: bv32)
    requires BitStep(x) == BitStep(y)
    ensures x == y
  {
  }

  lemma {:induction false} StepsLinear(x: bv32, y: bv32, n: nat)
    ensures Steps(Xor(x, y), n) == Xor(Steps(x, n), Steps(y, n))
  {
    hide BitStep, Xor;
    if n != 0 {
      StepsLinear(x, y, n - 1);
      BitStepLinear(Steps(x, n - 1), Steps(y, n - 1));
    }
  }

  lemma {:induction false} StepsInjective(x: bv32, y: bv32, n: nat)
    requires Steps(x, n) == Steps(y, n)
    ensures x == y
  {
    hide BitStep;
    if n != 0 {
      BitStepInjective(Steps(x, n - 1), Steps(y, n - 1));
      StepsInjective(x, y, n - 1);
    }
  }

  lemma ByteStepInjective(x: bv32, y: bv32)
    requires ByteStep(x) == ByteStep(y)
    ensures x == y
  {
    hide Steps;
    StepsInjective(x, y, 8);
  }

  lemma {:induction false} RegisterInjective(c: bv32, d: bv32, s: seq<bv8>)
    requires Register(c, s) == Register(d, s)
    ensures c == d
  {
    hide ByteStep, Xor, Wide;
    if s != [] {
      var t, b := s[..|s| - 1], Wide(s[|s| - 1]);
      ByteStepInjective(Xor(Register(c, t), b), Xor(Register(d, t), b));
      XorCancels(Register(c, t), Register(d, t), b);
      RegisterInjective(c, d, t);
    }
  }

  // ----- Four bytes are absorbed as one little-endian word -----

  lemma ByteStepShiftsDown(v: bv32)
    requires v & 0xFF00_0000 == 0
    ensures ByteStep(Up(v)) == v
  {
    UnrollSteps(Up(v));
    ShiftedEight(v);
  }

  lemma UnrollSteps(v: bv32)
    ensures ByteStep(v) == BitStep(BitStep(BitStep(BitStep(BitStep(BitStep(BitStep(BitStep(v))))))))
  {
    hide BitStep;
    assert Steps(v, 1) == BitStep(Steps(v, 0));
    assert Steps(v, 2) == BitStep(Steps(v, 1));
    assert Steps(v, 3) == BitStep(Steps(v, 2));
    assert Steps(v, 4) == BitStep(Steps(v, 3));
    assert Steps(v, 5) == BitStep(Steps(v, 4));
    assert Steps(v, 6) == BitStep(Steps(v, 5));
    assert Steps(v, 7) == BitStep(Steps(v, 6));
  }

  lemma ShiftedEight(v: bv32)
    requires v & 0xFF00_0000 == 0
    ensures BitStep(BitStep(BitStep(BitStep(BitStep(BitStep(BitStep(BitStep(Up(v))))))))) == v
  {
  }

  /** A byte may be mixed in one byte higher, one step earlier. */
  lemma MixEarlier(z: bv32, v: bv32)
    requires v & 0xFF00_0000 == 0
    ensures Xor(ByteStep(z), v) == ByteStep(Xor(z, Up(v)))
  {
    hide Steps, Xor, Up;
    StepsLinear(z, Up(v), 8);
    ByteStepShiftsDown(v);
  }

  lemma MixTwoEarlier(z: bv32, v: bv32)
    requires v & 0xFFFF_0000 == 0
    ensures Xor(ByteStep(ByteStep(z)), v) == ByteStep(ByteStep(Xor(z, Up(Up(v)))))
  {
    UpFits(v);
    MixEarlier(ByteStep(z), v);
    MixEarlier(z, Up(v));
    hide Xor, Up, ByteStep;
  }

  lemma MixThreeEarlier(z: bv32, v: bv32)
    requires v & 0xFFFF_FF00 == 0
    ensures Xor(ByteStep(ByteStep(ByteStep(z))), v) == ByteStep(ByteStep(ByteStep(Xor(z, Up(Up(Up(v)))))))
  {
    UpFits(v);
    MixEarlier(ByteStep(ByteStep(z)), v);
    MixTwoEarlier(z, Up(v));
    hide Xor, Up, ByteStep;
  }

  lemma UpFits(v: bv32)
    ensures v & 0xFFFF_FF00 == 0 ==> v & 0xFFFF_0000 == 0 && Up(v) & 0xFFFF_0000 == 0
    ensures v & 0xFFFF_0000 == 0 ==> v & 0xFF00_0000 == 0 && Up(v) & 0xFF00_0000 == 0
  {
  }

  lemma WideFits(b: bv8)
    ensures Wide(b) & 0xFFFF_FF00 == 0 && Wide(b) & 0xFFFF_0000 == 0 && Wide(b) & 0xFF00_0000 == 0
  {
  }

  /** The word `memcpy` makes of four bytes, least significant first. */
  function Word(s: seq<bv8>): bv32
    requires |s| == 4
  {
    Xor(Xor(Xor(Wide(s[0]), Up(Wide(s[1]))), Up(Up(Wide(s[2])))), Up(Up(Up(Wide(s[3])))))
  }

  /** The bytes `bb_u32` writes. */
  function Bytes(x: bv32): (s: seq<bv8>)
    ensures |s| == 4
  {
    [(x & 0xFF) as bv8, ((x >> 8) & 0xFF) as bv8, ((x >> 16) & 0xFF) as bv8, ((x >> 24) & 0xFF) as bv8]
  }

  lemma WordOfBytes(x: bv32)
    ensures Word(Bytes(x)) == x
  {
  }

  lemma AbsorbWord(c: bv32, s: seq<bv8>)
    requires |s| == 4
    ensures Register(c, s) == ByteStep(ByteStep(ByteStep(ByteStep(Xor(c, Word(s))))))
  {
    var a, b, d, e := Wide(s[0]), Wide(s[1]), Wide(s[2]), Wide(s[3]);
    WideFits(s[1]);
    WideFits(s[2]);
    WideFits(s[3]);
    hide Xor, Up, ByteStep, Wide;
    RegisterOfFour(c, s);
    var z1 := Xor(c, a);
    MixEarlier(z1, b);
    var z2 := Xor(z1, Up(b));
    MixTwoEarlier(z2, d);
    var z3 := Xor(z2, Up(Up(d)));
    MixThreeEarlier(z3, e);
    XorAssociative(c, a, Up(b));
    XorAssociative(c, Xor(a, Up(b)), Up(Up(d)));
    XorAssociative(c, Xor(Xor(a, Up(b)), Up(Up(d))), Up(Up(Up(e))));
  }

  lemma RegisterOfFour(c: bv32, s: seq<bv8>)
    requires |s| == 4
    ensures Register(c, s) ==
      ByteStep(Xor(ByteStep(Xor(ByteStep(Xor(ByteStep(Xor(c, Wide(s[0]))), Wide(s[1]))), Wide(s[2]))), Wide(s[3])))
  {
    hide Xor, ByteStep, Wide;
    assert s[..3][..2] == s[..2] && s[..2][..1] == s[..1] && s[..1][..0] == [];
    assert Register(c, s[..1]) == ByteStep(Xor(c, Wide(s[0])));
    assert Register(c, s[..2]) == ByteStep(Xor(Register(c, s[..1]), Wide(s[1])));
    assert Register(c, s[..3]) == ByteStep(Xor(Register(c, s[..2]), Wide(s[2])));
  }

  // ----- The register bit by bit -----

  function BitWord(b: bool): bv32 { if b then 1 else 0 }

  /** The register after single bits. */
  function BitRegister(c: bv32, bits: seq<bool>): bv32
    decreases bits
  {
    if bits == [] then c else BitRegister(BitStep(Xor(c, BitWord(bits[0]))), bits[1..])
  }

  /** The bits of a byte, least significant first. */
  function ByteBits(b: bv8): (bits: seq<bool>)
    ensures |bits| == 8
  {
    [b & 1 != 0, b & 2 != 0, b & 4 != 0, b & 8 != 0, b & 16 != 0, b & 32 != 0, b & 64 != 0, b & 128 != 0]
  }

  /** The bits of a file in the order the register takes them. */
  function BitsOf(s: seq<bv8>): (bits: seq<bool>)
    ensures |bits| == 8 * |s|
  {
    if s == [] then [] else BitsOf(s[..|s| - 1]) + ByteBits(s[|s| - 1])
  }

  function Twice(x: bv32): bv32 { x << 1 }

  /** Up to 32 bits as a word, the first one lowest. */
  function Pack(bits: seq<bool>): bv32 {
    if bits == [] then 0 else Xor(Twice(Pack(bits[1..])), BitWord(bits[0]))
  }

  /** The highest `j` bits are zero. */
  predicate Clear(x: bv32, j: nat)
    decreases j
  {
    j == 0 || (x & 0x8000_0000 == 0 && Clear(Twice(x), j - 1))
  }

  lemma {:induction false} ClearXor(x: bv32, y: bv32, j: nat)
    requires Clear(x, j) && Clear(y, j)
    ensures Clear(Xor(x, y), j)
    decreases j
  {
    if j != 0 {
      TwiceXor(x, y);
      ClearXor(Twice(x), Twice(y), j - 1);
      TopXor(x, y);
    }
  }

  lemma TwiceXor(x: bv32, y: bv32)
    ensures Twice(Xor(x, y)) == Xor(Twice(x), Twice(y))
  {
  }

  lemma TopXor(x: bv32, y: bv32)
    requires x & 0x8000_0000 == 0 && y & 0x8000_0000 == 0
    ensures Xor(x, y) & 0x8000_0000 == 0
  {
  }

  lemma {:induction false} ClearZero(j: nat)
    ensures Clear(0, j)
  {
    if j != 0 {
      assert Twice(0) == 0;
      ClearZero(j - 1);
    }
  }

  lemma ClearOne(j: nat)
    requires j <= 31
    ensures Clear(1, j)
  {
    var w := Up(Up(Up(1)));
    assert w == 0x0100_0000;
    ClearSeven(w);
    ClearEight(Up(Up(1)), 7);
    ClearEight(Up(1), 15);
    ClearEight(1, 23);
    ClearFewer(1, 31, j);
  }

  function UpFour(x: bv32): bv32 { x << 4 }

  lemma ClearSeven(x: bv32)
    requires x & 0xFE00_0000 == 0
    ensures Clear(x, 7)
  {
    assert x & 0xF000_0000 == 0 && UpFour(x) & 0xE000_0000 == 0;
    hide Clear, UpFour;
    ClearThree(UpFour(x));
    ClearFour(x, 3);
  }

  lemma ClearThree(x: bv32)
    requires x & 0xE000_0000 == 0
    ensures Clear(x, 3)
  {
    assert Clear(Twice(Twice(Twice(x))), 0);
    assert Twice(Twice(x)) & 0x8000_0000 == 0 && Twice(x) & 0x8000_0000 == 0 && x & 0x8000_0000 == 0;
    hide Twice;
    assert Clear(Twice(Twice(x)), 1);
    assert Clear(Twice(x), 2);
  }

  lemma ClearEight(x: bv32, j: nat)
    requires x & 0xFF00_0000 == 0 && Clear(Up(x), j)
    ensures Clear(x, j + 8)
  {
    NibbleByNibble(x);
    hide Clear, Up, UpFour;
    ClearFour(UpFour(x), j);
    ClearFour(x, j + 4);
  }

  lemma NibbleByNibble(x: bv32)
    requires x & 0xFF00_0000 == 0
    ensures x & 0xF000_0000 == 0 && UpFour(x) & 0xF000_0000 == 0 && UpFour(UpFour(x)) == Up(x)
  {
  }

  lemma ClearFour(x: bv32, j: nat)
    requires x & 0xF000_0000 == 0 && Clear(UpFour(x), j)
    ensures Clear(x, j + 4)
  {
    var x1 := Twice(x);
    var x2 := Twice(x1);
    var x3 := Twice(x2);
    assert Twice(x3) == UpFour(x);
    assert x3 & 0x8000_0000 == 0 && x2 & 0x8000_0000 == 0 && x1 & 0x8000_0000 == 0 && x & 0x8000_0000 == 0;
    hide Twice, UpFour;
    assert Clear(x3, j + 1);
    assert Clear(x2, j + 2);
    assert Clear(x1, j + 3);
  }

  lemma {:induction false} ClearFewer(x: bv32, j: nat, k: nat)
    requires Clear(x, j) && k <= j
    ensures Clear(x, k)
    decreases k
  {
    if k != 0 {
      ClearFewer(Twice(x), j - 1, k - 1);
    }
  }

  lemma {:induction false} PackClear(bits: seq<bool>)
    requires |bits| <= 32
    ensures Clear(Pack(bits), 32 - |bits|)
  {
    if bits == [] {
      ClearZero(32);
    } else {
      hide Xor, Twice, BitWord;
      PackClear(bits[1..]);
      ClearBit(bits[0], 32 - |bits|);
      ClearXor(Twice(Pack(bits[1..])), BitWord(bits[0]), 32 - |bits|);
    }
  }

  lemma ClearBit(b: bool, j: nat)
    requires j <= 31
    ensures Clear(BitWord(b), j)
  {
    hide Clear;
    ClearZero(j);
    ClearOne(j);
  }

  /** Nothing falls out of a word whose lowest bit is zero. */
  lemma BitStepShiftsDown(v: bv32)
    requires v & 0x8000_0000 == 0
    ensures BitStep(Twice(v)) == v
  {
  }

  lemma {:induction false} StepsFirst(c: bv32, n: nat)
    ensures Steps(BitStep(c), n) == Steps(c, n + 1)
    decreases n
  {
    hide BitStep;
    if n != 0 {
      StepsFirst(c, n - 1);
    }
  }

  /** Up to 32 bits may be mixed in all at once, as one word. */
  lemma {:induction false} AbsorbBits(c: bv32, bits: seq<bool>)
    requires |bits| <= 32
    ensures BitRegister(c, bits) == Steps(Xor(c, Pack(bits)), |bits|)
    decreases bits
  {
    if bits == [] {
      XorZero(c);
    } else {
      var z, rest := Xor(c, BitWord(bits[0])), Pack(bits[1..]);
      AbsorbBits(BitStep(z), bits[1..]);
      PackClear(bits[1..]);
      BitStepShiftsDown(rest);
      hide BitStep, Xor, Twice, BitWord, Steps, Clear;
      BitStepLinear(z, Twice(rest));
      XorAssociative(c, BitWord(bits[0]), Twice(rest));
      XorCommutative(BitWord(bits[0]), Twice(rest));
      StepsFirst(Xor(z, Twice(rest)), |bits| - 1);
    }
  }

  lemma XorZero(c: bv32)
    ensures Xor(c, 0) == c
  {
  }

  lemma PackByte(b: bv8)
    ensures Pack(ByteBits(b)) == Wide(b)
  {
    var bits := ByteBits(b);
    hide ByteBits, Xor, Twice, BitWord;
    PackEight(bits);
    ByteIsItsBits(b);
  }

  function Mixed(bits: seq<bool>): bv32
    requires |bits| == 8
  {
    Xor(Twice(Xor(Twice(Xor(Twice(Xor(Twice(Xor(Twice(Xor(Twice(Xor(Twice(Xor(Twice(0),
      BitWord(bits[7]))), BitWord(bits[6]))), BitWord(bits[5]))), BitWord(bits[4]))),
      BitWord(bits[3]))), BitWord(bits[2]))), BitWord(bits[1]))), BitWord(bits[0]))
  }

  lemma PackEight(bits: seq<bool>)
    requires |bits| == 8
    ensures Pack(bits) == Mixed(bits)
  {
    hide Xor, Twice, BitWord;
    assert Pack(bits[8..]) == 0;
    PackAt(bits, 7);
    PackAt(bits, 6);
    PackAt(bits, 5);
    PackAt(bits, 4);
    PackAt(bits, 3);
    PackAt(bits, 2);
    PackAt(bits, 1);
    PackAt(bits, 0);
    assert bits[0..] == bits;
  }

  lemma PackAt(bits: seq<bool>, i: nat)
    requires i < |bits|
    ensures Pack(bits[i..]) == Xor(Twice(Pack(bits[i + 1..])), BitWord(bits[i]))
  {
    assert bits[i..][1..] == bits[i + 1..];
  }

  lemma ByteIsItsBits(b: bv8)
    ensures Mixed(ByteBits(b)) == Wide(b)
  {
  }

  lemma ByteBitsInjective(x: bv8, y: bv8)
    requires ByteBits(x) == ByteBits(y)
    ensures x == y
  {
    PackByte(x);
    PackByte(y);
    hide ByteBits, Pack;
  }

  lemma {:induction false} BitRegisterConcat(c: bv32, x: seq<bool>, y: seq<bool>)
    ensures BitRegister(c, x + y) == BitRegister(BitRegister(c, x), y)
    decreases x
  {
    hide BitStep, Xor, BitWord;
    if x == [] {
      assert x + y == y;
    } else {
      assert (x + y)[1..] == x[1..] + y;
      BitRegisterConcat(BitStep(Xor(c, BitWord(x[0]))), x[1..], y);
    }
  }

  lemma {:induction false} RegisterIsBitRegister(c: bv32, s: seq<bv8>)
    ensures Register(c, s) == BitRegister(c, BitsOf(s))
  {
    hide BitStep, Xor, BitRegister, ByteBits, Steps, Wide, Pack;
    if s == [] {
      NoBits(c);
    } else {
      var n := |s| - 1;
      RegisterIsBitRegister(c, s[..n]);
      BitRegisterConcat(c, BitsOf(s[..n]), ByteBits(s[n]));
      AbsorbBits(BitRegister(c, BitsOf(s[..n])), ByteBits(s[n]));
      PackByte(s[n]);
    }
  }

  lemma NoBits(c: bv32)
    ensures BitRegister(c, []) == c
  {
  }

  lemma {:induction false} BitsOfInjective(s: seq<bv8>, t: seq<bv8>)
    requires BitsOf(s) == BitsOf(t)
    ensures s == t
  {
    hide ByteBits;
    if s != [] {
      var n := |s| - 1;
      assert |t| == n + 1;
      var x, y := BitsOf(s[..n]), BitsOf(t[..n]);
      assert (x + ByteBits(s[n]))[..8 * n] == x && (y + ByteBits(t[n]))[..8 * n] == y;
      assert (x + ByteBits(s[n]))[8 * n..] == ByteBits(s[n]) && (y + ByteBits(t[n]))[8 * n..] == ByteBits(t[n]);
      BitsOfInjective(s[..n], t[..n]);
      ByteBitsInjective(s[n], t[n]);
      assert s == s[..n] + [s[n]] && t == t[..n] + [t[n]];
    }
  }

  lemma {:induction false} BitRegisterInjective(c: bv32, d: bv32, bits: seq<bool>)
    requires BitRegister(c, bits) == BitRegister(d, bits)
    ensures c == d
    decreases bits
  {
    hide BitStep, Xor, BitWord;
    if bits != [] {
      var b := BitWord(bits[0]);
      BitRegisterInjective(BitStep(Xor(c, b)), BitStep(Xor(d, b)), bits[1..]);
      BitStepInjective(Xor(c, b), Xor(d, b));
      XorCancels(c, d, b);
    }
  }

  lemma {:induction false} PackInjective(x: seq<bool>, y: seq<bool>)
    requires |x| == |y| <= 32 && Pack(x) == Pack(y)
    ensures x == y
  {
    if x != [] {
      PackClear(x[1..]);
      PackClear(y[1..]);
      assert x == [x[0]] + x[1..] && y == [y[0]] + y[1..];
      LowestBit(Pack(x[1..]), Pack(y[1..]), x[0], y[0]);
      PackInjective(x[1..], y[1..]);
    }
  }

  lemma LowestBit(u: bv32, v: bv32, a: bool, b: bool)
    requires u & 0x8000_0000 == 0 && v & 0x8000_0000 == 0
    requires Xor(Twice(u), BitWord(a)) == Xor(Twice(v), BitWord(b))
    ensures u == v && a == b
  {
    Unpacked(u, a);
    Unpacked(v, b);
    hide Xor, Twice, Half;
  }

  lemma Unpacked(u: bv32, a: bool)
    requires u & 0x8000_0000 == 0
    ensures Half(Xor(Twice(u), BitWord(a))) == u && Xor(Twice(u), BitWord(a)) & 1 == BitWord(a)
  {
    Doubled(u);
    hide Xor, Twice, Half;
  }

  lemma Doubled(u: bv32)
    requires u & 0x8000_0000 == 0
    ensures Half(Xor(Twice(u), 0)) == u && Xor(Twice(u), 0) & 1 == 0
    ensures Half(Xor(Twice(u), 1)) == u && Xor(Twice(u), 1) & 1 == 1
  {
  }

  /** Different bit strings of up to 32 bits leave the register different. */
  lemma BurstInjective(c: bv32, x: seq<bool>, y: seq<bool>)
    requires |x| == |y| <= 32 && BitRegister(c, x) == BitRegister(c, y)
    ensures x == y
  {
    hide Xor, Steps, Pack, BitRegister;
    AbsorbBits(c, x);
    AbsorbBits(c, y);
    StepsInjective(Xor(c, Pack(x)), Xor(c, Pack(y)), |x|);
    XorCancels(Pack(x), Pack(y), c);
    PackInjective(x, y);
  }

  // ----- What the checksum detects -----

  /** The files differ, and only within the `n` bits from bit `p` on. */
  predicate DifferInBurst(f: seq<bv8>, g: seq<bv8>, p: nat, n: nat) {
    var x, y := BitsOf(f), BitsOf(g);
    |f| == |g| && f != g && p + n <= |x| && x[..p] == y[..p] && x[p + n..] == y[p + n..]
  }

  lemma BurstDetected(c: bv32, f: seq<bv8>, g: seq<bv8>, p: nat, n: nat)
    requires n <= 32 && DifferInBurst(f, g, p, n)
    ensures Register(c, f) != Register(c, g)
  {
    if Register(c, f) == Register(c, g) {
      hide Register, BitRegister, BitsOf;
      RegisterIsBitRegister(c, f);
      RegisterIsBitRegister(c, g);
      var x, y := BitsOf(f), BitsOf(g);
      var front, back := x[..p], x[p + n..];
      var u, v := x[p..p + n], y[p..p + n];
      assert x == front + u + back && y == front + v + back;
      BitRegisterConcat(c, front + u, back);
      BitRegisterConcat(c, front + v, back);
      BitRegisterInjective(BitRegister(c, front + u), BitRegister(c, front + v), back);
      BitRegisterConcat(c, front, u);
      BitRegisterConcat(c, front, v);
      BurstInjective(BitRegister(c, front), u, v);
      BitsOfInjective(f, g);
    }
  }

  lemma CrcDetectsBurst(c: bv32, f: seq<bv8>, g: seq<bv8>, p: nat, n: nat)
    requires n <= 32 && DifferInBurst(f, g, p, n)
    ensures Crc(c, f) != Crc(c, g)
  {
    BurstDetected(Not(c), f, g, p, n);
    NotNot(Register(Not(c), f));
    NotNot(Register(Not(c), g));
    hide Register, Not;
  }

  // ----- The pack file -----

  /** At least twelve bytes, the last four of them the checksum of the rest. */
  predicate Accepted(file: seq<bv8>) {
    |file| >= 12 && Word(file[|file| - 4..]) == Crc(0, file[..|file| - 4])
  }

  /** The checks of `project_pack_read` before it looks at the payload. */
  method CheckPack(file: seq<bv8>) returns (ok: bool)
    ensures ok == Accepted(file)
  {
    if |file| < 12 {
      return false;
    }
    var stored := Word(file[|file| - 4..]);
    var computed := Crc32Update(0, file[..|file| - 4]);
    return stored == computed;
  }

  /** `project_pack_write`, once the payload is built. */
  method SealPack(payload: seq<bv8>) returns (file: seq<bv8>)
    ensures |file| == |payload| + 4 && file[..|payload|] == payload
    ensures Accepted(file) <==> |payload| >= 8
  {
    hide Register, Word, Bytes;
    var crc := Crc32Update(0, payload);
    file := payload + Bytes(crc);
    WordOfBytes(crc);
    assert file[|file| - 4..] == Bytes(crc);
  }

  /** The register a file leaves exactly when its last four bytes are the checksum of the rest. */
  const RESIDUE: bv32 := 0xDEBB_20E3

  lemma ResidueIs()
    ensures ByteStep(ByteStep(ByteStep(ByteStep(0xFFFF_FFFF)))) == RESIDUE
  {
    FourBytesIn();
    hide ByteStep;
  }

  lemma FourBytesIn()
    ensures ByteStep(0xFFFF_FFFF) == 0x2DFD_1072 && ByteStep(0x2DFD_1072) == 0xBE26_ED00
    ensures ByteStep(0xBE26_ED00) == 0x00BE_26ED && ByteStep(0x00BE_26ED) == 0xDEBB_20E3
  {
    UnrollSteps(0xFFFF_FFFF);
    UnrollSteps(0x2DFD_1072);
    UnrollSteps(0xBE26_ED00);
    UnrollSteps(0x00BE_26ED);
    hide ByteStep;
  }

  lemma AcceptedByResidue(file: seq<bv8>)
    ensures Accepted(file) <==> |file| >= 12 && Register(Not(0), file) == 0xDEBB_20E3
  {
    assert RESIDUE == 0xDEBB_20E3;
    if |file| >= 12 {
      var n := |file| - 4;
      var c, t := Register(Not(0), file[..n]), file[n..];
      assert file == file[..n] + t;
      hide Register, Xor, ByteStep, Word, Not, RESIDUE;
      ResidueIs();
      RegisterConcat(Not(0), file[..n], t);
      AbsorbWord(c, t);
      NotXor(c, Word(t));
      FourStepsInjective(Xor(c, Word(t)), 0xFFFF_FFFF);
    }
  }

  lemma FourStepsInjective(p: bv32, q: bv32)
    ensures ByteStep(ByteStep(ByteStep(ByteStep(p)))) == ByteStep(ByteStep(ByteStep(ByteStep(q)))) <==> p == q
  {
    hide ByteStep;
    if ByteStep(ByteStep(ByteStep(ByteStep(p)))) == ByteStep(ByteStep(ByteStep(ByteStep(q)))) {
      ByteStepInjective(ByteStep(ByteStep(ByteStep(p))), ByteStep(ByteStep(ByteStep(q))));
      ByteStepInjective(ByteStep(ByteStep(p)), ByteStep(ByteStep(q)));
      ByteStepInjective(ByteStep(p), ByteStep(q));
      ByteStepInjective(p, q);
    }
  }

  /** A file that was accepted is rejected after any change within 32 consecutive bits,
      wherever they are, the checksum's own bits and the seam before them included. */
  lemma ChangedPackRejected(f: seq<bv8>, g: seq<bv8>, p: nat, n: nat)
    requires Accepted(f) && n <= 32 && DifferInBurst(f, g, p, n)
    ensures !Accepted(g)
  {
    hide Register, Not, Accepted;
    AcceptedByResidue(f);
    AcceptedByResidue(g);
    BurstDetected(Not(0), f, g, p, n);
  }

  // ----- The check value of the polynomial -----

  lemma OneByteIn(c: bv32, s: seq<bv8>, t: seq<bv8>, before: bv32, after: bv32)
    requires |t| == |s| + 1 && s <= t && Register(c, s) == before && ByteStep(Xor(before, Wide(t[|s|]))) == after
    ensures Register(c, t) == after
  {
    assert t[..|s|] == s;
    hide ByteStep, Xor, Wide;
  }

  lemma NothingIn(c: bv32)
    ensures Register(c, []) == c
  {
  }

  /** CRC-32 of the digits 1 to 9. */
  lemma CheckValue()
    ensures Crc(0, [0x31, 0x32, 0x33, 0x34, 0x35, 0x36, 0x37, 0x38, 0x39]) == 0xCBF4_3926
  {
    hide Register, ByteStep, Xor, Wide;
    FirstDigits();
    LastDigits();
    var s: seq<bv8> := [0x31, 0x32, 0x33, 0x34, 0x35, 0x36, 0x37, 0x38, 0x39];
    NothingIn(0xFFFF_FFFF);
    assert s[..0] == [] && s[..9] == s;
    OneByteIn(0xFFFF_FFFF, s[..0], s[..1], 0xFFFF_FFFF, 0x7C23_1048);
    OneByteIn(0xFFFF_FFFF, s[..1], s[..2], 0x7C23_1048, 0xB0AC_BB32);
    OneByteIn(0xFFFF_FFFF, s[..2], s[..3], 0xB0AC_BB32, 0x77B7_9C2D);
    OneByteIn(0xFFFF_FFFF, s[..3], s[..4], 0x77B7_9C2D, 0x641C_1F5C);
    OneByteIn(0xFFFF_FFFF, s[..4], s[..5], 0x641C_1F5C, 0x340A_C5E3);
    OneByteIn(0xFFFF_FFFF, s[..5], s[..6], 0x340A_C5E3, 0xF68D_2C9E);
    OneByteIn(0xFFFF_FFFF, s[..6], s[..7], 0xF68D_2C9E, 0xAFFC_9660);
    OneByteIn(0xFFFF_FFFF, s[..7], s[..8], 0xAFFC_9660, 0x651F_2550);
    OneByteIn(0xFFFF_FFFF, s[..8], s[..9], 0x651F_2550, 0x340B_C6D9);
  }

  lemma FirstDigits()
    ensures ByteStep(Xor(0xFFFF_FFFF, Wide(0x31))) == 0x7C23_1048
    ensures ByteStep(Xor(0x7C23_1048, Wide(0x32))) == 0xB0AC_BB32
    ensures ByteStep(Xor(0xB0AC_BB32, Wide(0x33))) == 0x77B7_9C2D
    ensures ByteStep(Xor(0x77B7_9C2D, Wide(0x34))) == 0x641C_1F5C
    ensures ByteStep(Xor(0x641C_1F5C, Wide(0x35))) == 0x340A_C5E3
  {
    UnrollSteps(Xor(0xFFFF_FFFF, Wide(0x31)));
    UnrollSteps(Xor(0x7C23_1048, Wide(0x32)));
    UnrollSteps(Xor(0xB0AC_BB32, Wide(0x33)));
    UnrollSteps(Xor(0x77B7_9C2D, Wide(0x34)));
    UnrollSteps(Xor(0x641C_1F5C, Wide(0x35)));
    hide ByteStep;
  }

  lemma LastDigits()
    ensures ByteStep(Xor(0x340A_C5E3, Wide(0x36))) == 0xF68D_2C9E
    ensures ByteStep(Xor(0xF68D_2C9E, Wide(0x37))) == 0xAFFC_9660
    ensures ByteStep(Xor(0xAFFC_9660, Wide(0x38))) == 0x651F_2550
    ensures ByteStep(Xor(0x651F_2550, Wide(0x39))) == 0x340B_C6D9
  {
    UnrollSteps(Xor(0x340A_C5E3, Wide(0x36)));
    UnrollSteps(Xor(0xF68D_2C9E, Wide(0x37)));
    UnrollSteps(Xor(0xAFFC_9660, Wide(0x38)));
    UnrollSteps(Xor(0x651F_2550, Wide(0x39)));
    hide ByteStep;
  }

  // ----- The table-driven form of RFC 1952, section 8 -----

  function Low(c: bv32): bv32 { c & 0xFF }

  function Down(c: bv32): bv32 { c >> 8 }

  /** Entry `n` of the RFC's table is the register after `n` alone: one step per byte
      instead of eight. */
  lemma TableDriven(c: bv32, b: bv8)
    ensures ByteStep(Xor(c, Wide(b))) == Xor(ByteStep(Low(Xor(c, Wide(b)))), Down(c))
  {
    var z := Xor(c, Wide(b));
    SplitLow(z);
    DownOfMixed(c, b);
    hide Xor, Wide, Low, Up, Down, Steps;
    StepsLinear(Low(z), Up(Down(z)), 8);
    ByteStepShiftsDown(Down(z));
  }

  lemma SplitLow(z: bv32)
    ensures z == Xor(Low(z), Up(Down(z))) && Down(z) & 0xFF00_0000 == 0
  {
  }

  lemma DownOfMixed(c: bv32, b: bv8)
    ensures Down(Xor(c, Wide(b))) == Down(c)
  {
  }
}

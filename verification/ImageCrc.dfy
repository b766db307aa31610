/** The CRC-32 of a firmware image (tools/generate_crc32_of_image.py). */
module ImageCrc {
  import opened CrcRegisters
  import opened ImageCrcTable

  // ---- Words as bit sequences, lowest bit first: the highest power comes first ----

  predicate Odd(x: bv32) {
    x & 1 == 1
  }

  function WordBits(x: bv32, n: nat): (b: Bits)
    ensures |b| == n
  {
    if n == 0 then [] else [Odd(x)] + WordBits(x >> 1, n - 1)
  }

  predicate Fits(x: bv32, n: nat) {
    if n == 0 then x == 0 else Fits(x >> 1, n - 1)
  }

  lemma FitsEight(x: bv32, n: nat)
    requires Fits(x >> 8, n)
    ensures Fits(x, n + 8)
  {
    assert Fits(x >> 7, n + 1) && Fits(x >> 6, n + 2) && Fits(x >> 5, n + 3) && Fits(x >> 4, n + 4)
        && Fits(x >> 3, n + 5) && Fits(x >> 2, n + 6) && Fits(x >> 1, n + 7);
  }

  lemma WordFits(x: bv32)
    ensures Fits(x, 32)
    ensures x <= 0xff ==> Fits(x, 8)
  {
    FitsEight(x >> 24, 0);
    FitsEight(x >> 16, 8);
    FitsEight(x >> 8, 16);
    FitsEight(x, 24);
    if x <= 0xff {
      FitsEight(x, 0);
    }
  }

  lemma OddXor(x: bv32, y: bv32)
    ensures Odd(x ^ y) == (Odd(x) != Odd(y))
    ensures (x ^ y) >> 1 == (x >> 1) ^ (y >> 1)
  {
  }

  lemma OddInjective(x: bv32, y: bv32)
    requires Odd(x) == Odd(y) && x >> 1 == y >> 1
    ensures x == y
  {
  }

  lemma XorCons(a: bool, x: Bits, b: bool, y: Bits)
    requires |x| == |y|
    ensures Xor([a] + x, [b] + y) == [a != b] + Xor(x, y)
  {
  }

  lemma ConsInjective(a: bool, x: Bits, b: bool, y: Bits)
    requires [a] + x == [b] + y
    ensures a == b && x == y
  {
    assert ([a] + x)[0] == ([b] + y)[0];
    assert x == ([a] + x)[1..] == ([b] + y)[1..] == y;
  }

  lemma ConsTail(a: bool, x: Bits)
    ensures ([a] + x)[1..] == x
    ensures x != [] ==> ([a] + x)[1..] + [false] == [x[0]] + (x[1..] + [false])
  {
  }

  lemma {:induction false} BitsXor(x: bv32, y: bv32, n: nat)
    ensures WordBits(x ^ y, n) == Xor(WordBits(x, n), WordBits(y, n))
    decreases n
  {
    if n > 0 {
      OddXor(x, y);
      BitsXor(x >> 1, y >> 1, n - 1);
      XorCons(Odd(x), WordBits(x >> 1, n - 1), Odd(y), WordBits(y >> 1, n - 1));
    }
  }

  lemma BitsSplit(x: bv32, y: bv32, n: nat)
    requires n > 0 && WordBits(x, n) == WordBits(y, n)
    ensures Odd(x) == Odd(y) && WordBits(x >> 1, n - 1) == WordBits(y >> 1, n - 1)
  {
    ConsInjective(Odd(x), WordBits(x >> 1, n - 1), Odd(y), WordBits(y >> 1, n - 1));
  }

  lemma {:induction false} BitsInjective(x: bv32, y: bv32, n: nat)
    requires Fits(x, n) && Fits(y, n) && WordBits(x, n) == WordBits(y, n)
    ensures x == y
    decreases n
  {
    if n > 0 {
      BitsSplit(x, y, n);
      BitsInjective(x >> 1, y >> 1, n - 1);
      OddInjective(x, y);
    }
  }

  lemma {:induction false} BitsShift(x: bv32, n: nat)
    requires n > 0 && Fits(x, n)
    ensures WordBits(x >> 1, n) == WordBits(x, n)[1..] + [false]
    decreases n
  {
    var y := x >> 1;
    ConsTail(Odd(x), WordBits(y, n - 1));
    if n == 1 {
      assert y == 0 && !Odd(y);
    } else {
      BitsShift(y, n - 1);
      assert WordBits(y, n - 1)[0] == Odd(y);
    }
  }

  /** A word that fits in n bits, written with more of them. */
  lemma {:induction false} BitsPad(x: bv32, n: nat, m: nat)
    requires Fits(x, n) && n <= m
    ensures WordBits(x, m) == Pad(WordBits(x, n), m)
    decreases m
  {
    if n > 0 {
      BitsPad(x >> 1, n - 1, m - 1);
    } else if m > 0 {
      assert x >> 1 == 0;
      BitsPad(x >> 1, 0, m - 1);
    }
  }

  // ---- One table look-up is eight shifts of the register ----

  /** The powers of the generator below x^32 (section 3.2.9 of IEEE 802.3). */
  predicate HasPower(k: int) {
    k in {26, 23, 22, 16, 12, 11, 10, 8, 7, 5, 4, 2, 1, 0}
  }

  function GeneratorBits(): (g: Bits)
    ensures |g| == 32 && forall k | 0 <= k < 32 :: g[31 - k] == HasPower(k)
  {
    seq(32, i => HasPower(31 - i))
  }

  const GENERATOR: Bits := GeneratorBits()

  lemma Regroup(a: bool, b: bool, c: bool, d: bool, w: Bits)
    ensures [a] + ([b] + ([c] + ([d] + w))) == [a, b, c, d] + w
  {
  }

  lemma BitsStep(x: bv32, half: bv32, n: nat, a: bool)
    requires half == x >> 1 && a == Odd(x)
    ensures WordBits(x, n + 1) == [a] + WordBits(half, n)
  {
  }

  /** Four steps along a word. */
  lemma BitsNibble(x: bv32, x1: bv32, x2: bv32, x3: bv32, next: bv32, n: nat, a: bool, b: bool, c: bool, d: bool)
    requires x1 == x >> 1 && x2 == x1 >> 1 && x3 == x2 >> 1 && next == x3 >> 1
    requires a == Odd(x) && b == Odd(x1) && c == Odd(x2) && d == Odd(x3)
    ensures WordBits(x, n + 4) == [a, b, c, d] + WordBits(next, n)
  {
    BitsStep(x, x1, n + 3, a);
    BitsStep(x1, x2, n + 2, b);
    BitsStep(x2, x3, n + 1, c);
    BitsStep(x3, next, n, d);
    Regroup(a, b, c, d, WordBits(next, n));
  }

  lemma SpellGenerator(s: Bits, t: Bits)
    requires t == [false, false, false, true] + ([true, true, false, true]
                  + ([true, false, true, true] + ([false, true, true, true] + [])))
    requires s == [false, false, false, false] + ([false, true, false, false] + ([true, true, false, false]
                  + ([false, false, false, true] + t)))
    ensures s == GENERATOR
  {
    assert t == [false, false, false, true, true, true, false, true, true, false, true, true, false, true, true, true];
    assert s[..16] ==
      [false, false, false, false, false, true, false, false, true, true, false, false, false, false, false, true];
    assert s[16..] == t;
    forall i | 0 <= i < 32
      ensures s[i] == GENERATOR[i]
    {
      assert GENERATOR[i] == HasPower(31 - i);
      assert s[i] == if i < 16 then s[..16][i] else t[i - 16];
    }
  }

  /** The constant behind the table is the standard's generator. */
  lemma PolyIsGenerator()
    ensures WordBits(POLY, 32) == GENERATOR
  {
    BitsNibble(0xedb8_8320, 0x76dc_4190, 0x3b6e_20c8, 0x1db7_1064, 0xedb_8832, 28, false, false, false, false);
    BitsNibble(0xedb_8832, 0x76d_c419, 0x3b6_e20c, 0x1db_7106, 0xed_b883, 24, false, true, false, false);
    BitsNibble(0xed_b883, 0x76_dc41, 0x3b_6e20, 0x1d_b710, 0xe_db88, 20, true, true, false, false);
    BitsNibble(0xe_db88, 0x7_6dc4, 0x3_b6e2, 0x1_db71, 0xedb8, 16, false, false, false, true);
    BitsNibble(0xedb8, 0x76dc, 0x3b6e, 0x1db7, 0xedb, 12, false, false, false, true);
    BitsNibble(0xedb, 0x76d, 0x3b6, 0x1db, 0xed, 8, true, true, false, true);
    BitsNibble(0xed, 0x76, 0x3b, 0x1d, 0xe, 4, true, false, true, true);
    BitsNibble(0xe, 0x7, 0x3, 0x1, 0x0, 0, false, true, true, true);
    SpellGenerator(WordBits(POLY, 32), WordBits(0xedb8, 16));
  }

  lemma RoundIsShift(x: bv32)
    ensures WordBits(Round(x), 32) == Shift(GENERATOR, WordBits(x, 32))
  {
    WordFits(x);
    BitsShift(x, 32);
    BitsXor(x >> 1, POLY, 32);
    PolyIsGenerator();
  }

  lemma Round2IsShifts(x: bv32, n: nat)
    ensures Shifts(GENERATOR, n, WordBits(Round2(x), 32)) == Shifts(GENERATOR, n + 2, WordBits(x, 32))
  {
    RoundIsShift(x);
    RoundIsShift(Round(x));
  }

  lemma Round8IsShifts(x: bv32)
    ensures WordBits(Round8(x), 32) == Shifts(GENERATOR, 8, WordBits(x, 32))
  {
    Round2IsShifts(x, 6);
    var x2 := Round2(x);
    Round2IsShifts(x2, 4);
    var x4 := Round2(x2);
    Round2IsShifts(x4, 2);
    Round2IsShifts(Round2(x4), 0);
  }

  lemma {:induction false} BitsPrefix(x: bv32, n: nat, m: nat)
    requires n <= m
    ensures WordBits(x, m)[..n] == WordBits(x, n)
    decreases n
  {
    if n > 0 {
      BitsPrefix(x >> 1, n - 1, m - 1);
    }
  }

  predicate AllOnes(m: bv32, n: nat) {
    n == 0 || (Odd(m) && AllOnes(m >> 1, n - 1))
  }

  lemma OddMask(x: bv32, m: bv32)
    requires Odd(m)
    ensures Odd(x & m) == Odd(x) && (x & m) >> 1 == (x >> 1) & (m >> 1)
  {
  }

  /** A mask whose low bits are ones keeps the low bits. */
  lemma {:induction false} MaskBits(x: bv32, m: bv32, n: nat)
    requires AllOnes(m, n)
    ensures WordBits(x & m, n) == WordBits(x, n)
    decreases n
  {
    if n > 0 {
      OddMask(x, m);
      MaskBits(x >> 1, m >> 1, n - 1);
    }
  }

  function Halved(x: bv32, k: nat): bv32 {
    if k == 0 then x else Halved(x >> 1, k - 1)
  }

  lemma HalvedTwo(x: bv32, k: nat)
    ensures Halved(x, k + 2) == Halved(x >> 2, k)
  {
    assert (x >> 1) >> 1 == x >> 2;
    assert Halved(x, k + 2) == Halved(x >> 1, k + 1);
  }

  lemma HalvedFour(x: bv32, k: nat)
    ensures Halved(x, k + 4) == Halved(x >> 4, k)
  {
    assert (x >> 2) >> 2 == x >> 4;
    HalvedTwo(x, k + 2);
    HalvedTwo(x >> 2, k);
  }

  lemma HalvedEight(x: bv32)
    ensures Halved(x, 8) == x >> 8
  {
    assert (x >> 4) >> 4 == x >> 8;
    HalvedFour(x, 4);
    HalvedFour(x >> 4, 0);
  }

  lemma {:induction false} BitsDrop(x: bv32, k: nat, n: nat)
    ensures WordBits(x, n + k)[k..] == WordBits(Halved(x, k), n)
    decreases k
  {
    if k > 0 {
      ConsDrop(Odd(x), WordBits(x >> 1, n + k - 1), k);
      BitsDrop(x >> 1, k - 1, n);
    }
  }

  lemma ConsDrop(a: bool, w: Bits, k: nat)
    requires 0 < k <= |w| + 1
    ensures ([a] + w)[k..] == w[k - 1..]
  {
  }

  lemma ShiftBits(x: bv32)
    ensures WordBits(x >> 8, 32) == WordBits(x, 32)[8..] + Zeros(8)
  {
    BitsDrop(x, 8, 24);
    HalvedEight(x);
    UpperFits(x);
    BitsPad(x >> 8, 24, 32);
  }

  lemma UpperFits(x: bv32)
    ensures Fits(x >> 8, 24)
  {
    FitsEight(x >> 24, 0);
    FitsEight(x >> 16, 8);
    FitsEight(x >> 8, 16);
  }

  lemma EntryBits(x: bv32)
    ensures WordBits(Entry(x & 0xff), 32) == Shifts(GENERATOR, 8, Pad(WordBits(x, 32)[..8], 32))
  {
    var low := x & 0xff;
    assert low <= 0xff;
    EntryIsRound8(low);
    Round8IsShifts(low);
    WordFits(low);
    BitsPad(low, 8, 32);
    WordIsOnes();
    MaskBits(x, 0xff, 8);
    BitsPrefix(x, 8, 32);
  }

  lemma FeedByte(output: bv32, data: bv32)
    requires data <= 0xff
    ensures Serial(GENERATOR, WordBits(output, 32), WordBits(data, 8)) ==
            Shifts(GENERATOR, 8, WordBits(output ^ data, 32))
  {
    SerialIsShifts(GENERATOR, WordBits(output, 32), WordBits(data, 8));
    WordFits(data);
    BitsPad(data, 8, 32);
    BitsXor(output, data, 32);
  }

  lemma UpperBytes(output: bv32, data: bv32)
    requires data <= 0xff
    ensures (output ^ data) >> 8 == output >> 8
  {
  }

  lemma LookUpBits(x: bv32)
    ensures Shifts(GENERATOR, 8, WordBits(x, 32)) == Xor(WordBits(Entry(x & 0xff), 32), WordBits(x >> 8, 32))
  {
    ShiftsByTable(GENERATOR, 8, WordBits(x, 32));
    EntryBits(x);
    ShiftBits(x);
  }

  lemma LookUpInRegister(output: bv32, data: bv32)
    requires data <= 0xff
    ensures Shifts(GENERATOR, 8, WordBits(output ^ data, 32)) ==
            Xor(WordBits(Entry((output ^ data) & 0xff), 32), WordBits(output >> 8, 32))
  {
    UpperBytes(output, data);
    LookUpBits(output ^ data);
  }

  lemma JoinStep(output: bv32, data: bv32, e: bv32, up: bv32)
    requires data <= 0xff && up == output >> 8
    requires Shifts(GENERATOR, 8, WordBits(output ^ data, 32)) == Xor(WordBits(e, 32), WordBits(up, 32))
    ensures WordBits(e ^ up, 32) == Serial(GENERATOR, WordBits(output, 32), WordBits(data, 8))
  {
    FeedByte(output, data);
    BitsXor(e, up, 32);
  }

  /** One turn of the loop feeds the eight bits of the byte to the bit-serial register, lowest first. */
  lemma TableStep(output: bv32, data: bv32)
    requires data <= 0xff
    ensures WordBits(Entry((output ^ data) & 0xff) ^ (output >> 8), 32) ==
            Serial(GENERATOR, WordBits(output, 32), WordBits(data, 8))
  {
    LookUpInRegister(output, data);
    JoinStep(output, data, Entry((output ^ data) & 0xff), output >> 8);
  }

  // ---- The checksum ----

  /** The bits of a byte, lowest first. */
  function ByteBits(b: bv8): (r: Bits)
    ensures |r| == 8
  {
    WordBits(b as bv32, 8)
  }

  function MessageBits(m: seq<bv8>): (b: Bits)
    ensures |b| == 8 * |m|
  {
    if m == [] then [] else MessageBits(m[..|m| - 1]) + ByteBits(m[|m| - 1])
  }

  function Ones(n: nat): (r: Bits)
    ensures |r| == n && forall i | 0 <= i < n :: r[i]
  {
    seq(n, _ => true)
  }

  const ONES: Bits := Ones(32)

  /** The standard's checksum, one bit at a time: start with ones, complement the register at the end. */
  function Checksum(m: seq<bv8>): (c: Bits)
    ensures |c| == 32
  {
    Xor(Serial(GENERATOR, ONES, MessageBits(m)), ONES)
  }

  /** createcrc32: a table look-up for each byte. */
  method Createcrc32(array': seq<bv8>) returns (crc: bv32)
    ensures WordBits(crc, 32) == Checksum(array')
  {
    var output: bv32 := 0xffff_ffff;
    WordIsOnes();
    OnesAreBits(0xffff_ffff, 32);
    for i := 0 to |array'|
      invariant WordBits(output, 32) == Serial(GENERATOR, ONES, MessageBits(array'[..i]))
    {
      var data := array'[i] as bv32;
      TableStep(output, data);
      assert array'[..i + 1][..i] == array'[..i];
      SerialConcat(GENERATOR, ONES, MessageBits(array'[..i]), WordBits(data, 8));
      output := Entry((output ^ data) & 0xff) ^ (output >> 8);
    }
    assert array'[..|array'|] == array';
    BitsXor(output, 0xffff_ffff, 32);
    crc := output ^ 0xffff_ffff;
  }

  lemma {:induction false} OnesAreBits(m: bv32, n: nat)
    requires AllOnes(m, n)
    ensures WordBits(m, n) == Ones(n)
    decreases n
  {
    if n > 0 {
      OnesAreBits(m >> 1, n - 1);
    }
  }

  lemma AllOnesGrow(m: bv32, m': bv32, n: nat)
    requires AllOnes(m, n) && m' >> 2 == m && m' & 3 == 3
    ensures AllOnes(m', n + 2)
  {
    assert Odd(m') && Odd(m' >> 1) && (m' >> 1) >> 1 == m;
    assert AllOnes(m' >> 1, n + 1);
  }

  lemma WordIsOnes()
    ensures AllOnes(0xff, 8) && AllOnes(0xffff_ffff, 32)
  {
    AllOnesGrow(0x0, 0x3, 0);
    AllOnesGrow(0x3, 0xf, 2);
    AllOnesGrow(0xf, 0x3f, 4);
    AllOnesGrow(0x3f, 0xff, 6);
    AllOnesGrow(0xff, 0x3ff, 8);
    AllOnesGrow(0x3ff, 0xfff, 10);
    AllOnesGrow(0xfff, 0x3fff, 12);
    AllOnesGrow(0x3fff, 0xffff, 14);
    AllOnesGrow(0xffff, 0x3_ffff, 16);
    AllOnesGrow(0x3_ffff, 0xf_ffff, 18);
    AllOnesGrow(0xf_ffff, 0x3f_ffff, 20);
    AllOnesGrow(0x3f_ffff, 0xff_ffff, 22);
    AllOnesGrow(0xff_ffff, 0x3ff_ffff, 24);
    AllOnesGrow(0x3ff_ffff, 0xfff_ffff, 26);
    AllOnesGrow(0xfff_ffff, 0x3fff_ffff, 28);
    AllOnesGrow(0x3fff_ffff, 0xffff_ffff, 30);
  }

  /** The checksum is the complemented remainder of dividing the message, its first 32 bits complemented, times x^32. */
  lemma ChecksumIsRemainder(m: seq<bv8>)
    ensures Checksum(m) == Xor(Remainder(GENERATOR, Dividend(ONES, MessageBits(m))), ONES)
  {
    SerialIsRemainder(GENERATOR, ONES, MessageBits(m));
  }

  lemma XorInjective(a: Bits, b: Bits, c: Bits)
    requires |a| == |b| == |c| && Xor(a, c) == Xor(b, c)
    ensures a == b
  {
    forall i | 0 <= i < |a|
      ensures a[i] == b[i]
    {
      assert Xor(a, c)[i] == (a[i] != c[i]) && Xor(b, c)[i] == (b[i] != c[i]);
    }
  }

  /** Any two images that differ in one burst of up to 32 bits, and nowhere else, get different checksums. */
  lemma BurstIsDetected(m: seq<bv8>, m': seq<bv8>, before: Bits, x: Bits, y: Bits, after: Bits)
    requires MessageBits(m) == before + x + after && MessageBits(m') == before + y + after
    requires |x| == |y| <= 32 && x != y
    ensures Checksum(m) != Checksum(m')
  {
    BurstChangesSerial(GENERATOR, ONES, before, x, y, after);
    var a, b := Serial(GENERATOR, ONES, MessageBits(m)), Serial(GENERATOR, ONES, MessageBits(m'));
    if Xor(a, ONES) == Xor(b, ONES) {
      XorInjective(a, b, ONES);
    }
  }

  /** In particular an image differing in one stretch of up to four bytes. */
  lemma {:induction false} FourBytesAreDetected(head: seq<bv8>, x: seq<bv8>, y: seq<bv8>, tail: seq<bv8>)
    requires |x| == |y| <= 4 && x != y
    ensures Checksum(head + x + tail) != Checksum(head + y + tail)
  {
    BitsConcat(head + x, tail);
    BitsConcat(head, x);
    BitsConcat(head + y, tail);
    BitsConcat(head, y);
    if MessageBits(x) == MessageBits(y) {
      MessageBitsInjective(x, y);
    }
    BurstIsDetected(head + x + tail, head + y + tail,
                    MessageBits(head), MessageBits(x), MessageBits(y), MessageBits(tail));
  }

  lemma {:induction false} BitsConcat(a: seq<bv8>, b: seq<bv8>)
    ensures MessageBits(a + b) == MessageBits(a) + MessageBits(b)
    decreases |b|
  {
    if b == [] {
      assert a + b == a;
    } else {
      var k := |b| - 1;
      assert (a + b)[..|a| + k] == a + b[..k];
      BitsConcat(a, b[..k]);
    }
  }

  lemma ByteBitsInjective(x: bv8, y: bv8)
    requires ByteBits(x) == ByteBits(y)
    ensures x == y
  {
    var v: bv32, w: bv32 := x as bv32, y as bv32;
    WordFits(v);
    WordFits(w);
    BitsInjective(v, w, 8);
  }

  lemma {:induction false} MessageBitsInjective(a: seq<bv8>, b: seq<bv8>)
    requires |a| == |b| && MessageBits(a) == MessageBits(b)
    ensures a == b
    decreases |a|
  {
    if a != [] {
      var k := |a| - 1;
      assert MessageBits(a)[..8 * k] == MessageBits(a[..k]) && MessageBits(b)[..8 * k] == MessageBits(b[..k]);
      assert MessageBits(a)[8 * k..] == ByteBits(a[k]) && MessageBits(b)[8 * k..] == ByteBits(b[k]);
      MessageBitsInjective(a[..k], b[..k]);
      ByteBitsInjective(a[k], b[k]);
      assert a == a[..k] + [a[k]] && b == b[..k] + [b[k]];
    }
  }
}

/**
 * Cyclic redundancy checks over GF(2). A register or a message is a sequence of coefficients, the one of the highest
 * power first; the generator x^w + ... is given without its leading one.
 */
module CrcRegisters {

  type Bits = seq<bool>

  function Zeros(n: nat): (z: Bits)
    ensures |z| == n && forall i | 0 <= i < n :: !z[i]
  {
    seq(n, _ => false)
  }

  function Xor(a: Bits, b: Bits): (r: Bits)
    requires |a| == |b|
    ensures |r| == |a| && forall i | 0 <= i < |a| :: r[i] == (a[i] != b[i])
  {
    seq(|a|, i requires 0 <= i < |a| => a[i] != b[i])
  }

  /** A short word in front, zeros behind. */
  function Pad(x: Bits, n: nat): (r: Bits)
    requires |x| <= n
    ensures |r| == n
  {
    x + Zeros(n - |x|)
  }

  /** One shift of the register, minus the generator when a one falls out. */
  function Shift(poly: Bits, c: Bits): (r: Bits)
    requires |c| == |poly| > 0
    ensures |r| == |c|
  {
    var up := c[1..] + [false];
    if c[0] then Xor(up, poly) else up
  }

  function Shifts(poly: Bits, n: nat, c: Bits): (r: Bits)
    requires |c| == |poly| > 0
    ensures |r| == |c|
  {
    if n == 0 then c else Shifts(poly, n - 1, Shift(poly, c))
  }

  /** The bit-serial register: each message bit enters at the top before the shift. */
  function Feed(poly: Bits, c: Bits, b: bool): (r: Bits)
    requires |c| == |poly| > 0
    ensures |r| == |c|
  {
    Shift(poly, c[0 := c[0] != b])
  }

  function Serial(poly: Bits, c: Bits, msg: Bits): (r: Bits)
    requires |c| == |poly| > 0
    ensures |r| == |c|
    decreases |msg|
  {
    if msg == [] then c else Serial(poly, Feed(poly, c, msg[0]), msg[1..])
  }

  lemma {:induction false} SerialConcat(poly: Bits, c: Bits, x: Bits, y: Bits)
    requires |c| == |poly| > 0
    ensures Serial(poly, c, x + y) == Serial(poly, Serial(poly, c, x), y)
    decreases |x|
  {
    if x == [] {
      assert x + y == y;
    } else {
      assert (x + y)[0] == x[0] && (x + y)[1..] == x[1..] + y;
      SerialConcat(poly, Feed(poly, c, x[0]), x[1..], y);
    }
  }

  // ---- The register is the remainder of the schoolbook division ----

  /** Long division of polynomials: take the leading coefficient away until only the remainder is left. */
  function Remainder(poly: Bits, d: Bits): (r: Bits)
    requires |d| >= |poly| > 0
    ensures |r| == |poly|
    decreases |d|
  {
    if |d| == |poly| then d
    else if d[0] then Remainder(poly, Xor(d[1..], Pad(poly, |d| - 1)))
    else Remainder(poly, d[1..])
  }

  /** The message times x^w, with the start value added to its first w coefficients. */
  function Dividend(c: Bits, msg: Bits): (d: Bits)
    ensures |d| == |msg| + |c|
  {
    Xor(Pad(msg, |msg| + |c|), Pad(c, |msg| + |c|))
  }

  lemma DividendStep(poly: Bits, c: Bits, msg: Bits)
    requires |c| == |poly| > 0 && msg != []
    ensures Dividend(c, msg)[0] == (c[0] != msg[0])
    ensures Dividend(Feed(poly, c, msg[0]), msg[1..]) ==
            if c[0] != msg[0] then Xor(Dividend(c, msg)[1..], Pad(poly, |msg| + |c| - 1)) else Dividend(c, msg)[1..]
  {
  }

  /** The bit-serial register holds the remainder of the polynomial division. */
  lemma {:induction false} SerialIsRemainder(poly: Bits, c: Bits, msg: Bits)
    requires |c| == |poly| > 0
    ensures Serial(poly, c, msg) == Remainder(poly, Dividend(c, msg))
    decreases |msg|
  {
    if msg == [] {
      assert Dividend(c, msg) == c;
    } else {
      DividendStep(poly, c, msg);
      SerialIsRemainder(poly, Feed(poly, c, msg[0]), msg[1..]);
    }
  }

  // ---- Several bits at once: what a table computes ----

  lemma ShiftXor(poly: Bits, a: Bits, b: Bits)
    requires |a| == |b| == |poly| > 0
    ensures Shift(poly, Xor(a, b)) == Xor(Shift(poly, a), Shift(poly, b))
  {
  }

  lemma {:induction false} ShiftsXor(poly: Bits, n: nat, a: Bits, b: Bits)
    requires |a| == |b| == |poly| > 0
    ensures Shifts(poly, n, Xor(a, b)) == Xor(Shifts(poly, n, a), Shifts(poly, n, b))
    decreases n
  {
    if n > 0 {
      ShiftXor(poly, a, b);
      ShiftsXor(poly, n - 1, Shift(poly, a), Shift(poly, b));
    }
  }

  /** Feeding up to w bits is adding them in front and shifting that often. */
  lemma {:induction false} SerialIsShifts(poly: Bits, c: Bits, x: Bits)
    requires |x| <= |c| == |poly| && |poly| > 0
    ensures Serial(poly, c, x) == Shifts(poly, |x|, Xor(c, Pad(x, |c|)))
    decreases |x|
  {
    if x == [] {
      assert Xor(c, Pad(x, |c|)) == c;
    } else {
      var rest := x[1..];
      assert Xor(Feed(poly, c, x[0]), Pad(rest, |c|)) == Shift(poly, Xor(c, Pad(x, |c|)));
      SerialIsShifts(poly, Feed(poly, c, x[0]), rest);
    }
  }

  lemma {:induction false} ShiftsOfZeros(poly: Bits, n: nat, rest: Bits)
    requires n + |rest| == |poly| > 0
    ensures Shifts(poly, n, Zeros(n) + rest) == rest + Zeros(n)
    decreases n
  {
    if n == 0 {
      assert Zeros(0) + rest == rest == rest + Zeros(0);
    } else {
      assert Shift(poly, Zeros(n) + rest) == Zeros(n - 1) + (rest + [false]);
      ShiftsOfZeros(poly, n - 1, rest + [false]);
      assert rest + [false] + Zeros(n - 1) == rest + Zeros(n);
    }
  }

  lemma SplitWord(x: Bits, n: nat)
    requires n <= |x|
    ensures x == Xor(Pad(x[..n], |x|), Zeros(n) + x[n..])
  {
  }

  /** Why a table works: n shifts depend on the first n bits alone, and the rest only moves up. */
  lemma ShiftsByTable(poly: Bits, n: nat, x: Bits)
    requires n <= |x| == |poly| && |poly| > 0
    ensures Shifts(poly, n, x) == Xor(Shifts(poly, n, Pad(x[..n], |x|)), x[n..] + Zeros(n))
  {
    SplitWord(x, n);
    ShiftsXor(poly, n, Pad(x[..n], |x|), Zeros(n) + x[n..]);
    ShiftsOfZeros(poly, n, x[n..]);
  }

  // ---- Bursts ----

  /** A generator with constant term one: no shift loses information. */
  lemma ShiftInjective(poly: Bits, a: Bits, b: Bits)
    requires |a| == |b| == |poly| > 0 && poly[|poly| - 1]
    requires Shift(poly, a) == Shift(poly, b)
    ensures a == b
  {
    var w := |poly|;
    assert Shift(poly, a)[w - 1] == a[0] && Shift(poly, b)[w - 1] == b[0];
    forall i | 0 < i < w
      ensures a[i] == b[i]
    {
      assert Shift(poly, a)[i - 1] == (a[i] != (a[0] && poly[i - 1]));
      assert Shift(poly, b)[i - 1] == (b[i] != (b[0] && poly[i - 1]));
    }
  }

  lemma {:induction false} ShiftsInjective(poly: Bits, n: nat, a: Bits, b: Bits)
    requires |a| == |b| == |poly| > 0 && poly[|poly| - 1]
    requires Shifts(poly, n, a) == Shifts(poly, n, b)
    ensures a == b
    decreases n
  {
    if n > 0 {
      ShiftsInjective(poly, n - 1, Shift(poly, a), Shift(poly, b));
      ShiftInjective(poly, a, b);
    }
  }

  lemma {:induction false} SerialInjective(poly: Bits, a: Bits, b: Bits, msg: Bits)
    requires |a| == |b| == |poly| > 0 && poly[|poly| - 1]
    requires Serial(poly, a, msg) == Serial(poly, b, msg)
    ensures a == b
    decreases |msg|
  {
    if msg != [] {
      SerialInjective(poly, Feed(poly, a, msg[0]), Feed(poly, b, msg[0]), msg[1..]);
      ShiftInjective(poly, a[0 := a[0] != msg[0]], b[0 := b[0] != msg[0]]);
      assert forall i | 0 < i < |a| :: a[0 := a[0] != msg[0]][i] == a[i] && b[0 := b[0] != msg[0]][i] == b[i];
      assert a[0 := a[0] != msg[0]][0] == (a[0] != msg[0]) && b[0 := b[0] != msg[0]][0] == (b[0] != msg[0]);
    }
  }

  lemma SerialOfThree(poly: Bits, c: Bits, x: Bits, y: Bits, z: Bits)
    requires |c| == |poly| > 0
    ensures Serial(poly, c, x + y + z) == Serial(poly, Serial(poly, Serial(poly, c, x), y), z)
  {
    SerialConcat(poly, c, x + y, z);
    SerialConcat(poly, c, x, y);
  }

  lemma XorPadInjective(c: Bits, x: Bits, y: Bits)
    requires |x| == |y| <= |c| && Xor(c, Pad(x, |c|)) == Xor(c, Pad(y, |c|))
    ensures x == y
  {
    forall i | 0 <= i < |x|
      ensures x[i] == y[i]
    {
      assert Xor(c, Pad(x, |c|))[i] == (c[i] != x[i]) && Xor(c, Pad(y, |c|))[i] == (c[i] != y[i]);
    }
  }

  lemma ShortWordInjective(poly: Bits, c: Bits, x: Bits, y: Bits)
    requires |c| == |poly| > 0 && poly[|poly| - 1]
    requires |x| == |y| <= |poly| && Serial(poly, c, x) == Serial(poly, c, y)
    ensures x == y
  {
    SerialIsShifts(poly, c, x);
    SerialIsShifts(poly, c, y);
    ShiftsInjective(poly, |x|, Xor(c, Pad(x, |c|)), Xor(c, Pad(y, |c|)));
    XorPadInjective(c, x, y);
  }

  /** Two messages that differ only within a stretch no longer than the register never get the same remainder. */
  lemma BurstChangesSerial(poly: Bits, c: Bits, before: Bits, x: Bits, y: Bits, after: Bits)
    requires |c| == |poly| > 0 && poly[|poly| - 1]
    requires |x| == |y| <= |poly| && x != y
    ensures Serial(poly, c, before + x + after) != Serial(poly, c, before + y + after)
  {
    var c1 := Serial(poly, c, before);
    SerialOfThree(poly, c, before, x, after);
    SerialOfThree(poly, c, before, y, after);
    if Serial(poly, c, before + x + after) == Serial(poly, c, before + y + after) {
      SerialInjective(poly, Serial(poly, c1, x), Serial(poly, c1, y), after);
      ShortWordInjective(poly, c1, x, y);
    }
  }
}

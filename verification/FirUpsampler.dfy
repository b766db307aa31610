/** The polyphase filter that brings speech to 48 kHz (apps/audioplayers/upsampling_to_48k.cpp). */
module FirUpsampler {

  const COEF_NUM := 24
  const HISTORY := 23

  type Row = c: seq<int> | |c| == COEF_NUM witness seq(COEF_NUM, _ => 0)
  type History = h: seq<int> | |h| == HISTORY witness seq(HISTORY, _ => 0)

  const ROW_8K_0: Row := [
    64, -311, 210, -320, 363, -407, 410, -356, 196, 191, -1369, 30721,
    3861, -2265, 1680, -1321, 1049, -823, 625, -471, 297, -327, 34, 19]
  const ROW_8K_1: Row := [
    72, -254, 75, -117, 46, 58, -256, 583, -1141, 2197, -4866, 28131,
    10285, -4611, 2935, -2061, 1489, -1075, 755, -523, 310, -291, -19, 31]
  const ROW_8K_2: Row := [
    65, -175, -73, 84, -245, 457, -786, 1276, -2040, 3377, -6428, 23348,
    17094, -6200, 3592, -2347, 1588, -1073, 703, -447, 236, -203, -92, 49]
  const ROW_8K_3: Row := [
    49, -92, -203, 236, -447, 703, -1073, 1588, -2347, 3592, -6200, 17094,
    23348, -6428, 3377, -2040, 1276, -786, 457, -245, 84, -73, -175, 65]
  const ROW_8K_4: Row := [
    31, -19, -291, 310, -523, 755, -1075, 1489, -2061, 2935, -4611, 10285,
    28131, -4866, 2197, -1141, 583, -256, 58, 46, -117, 75, -254, 72]
  const ROW_8K_5: Row := [
    19, 34, -327, 297, -471, 625, -823, 1049, -1321, 1680, -2265, 3861,
    30721, -1369, 191, 196, -356, 410, -407, 363, -320, 210, -311, 64]

  const COEF_8K: seq<Row> := [ROW_8K_0, ROW_8K_1, ROW_8K_2, ROW_8K_3, ROW_8K_4, ROW_8K_5]

  const ROW_16K_0: Row := [
    1, -291, 248, -327, 383, -405, 362, -212, -129, 875, -2948, 29344,
    7324, -3795, 2603, -1913, 1418, -1031, 722, -478, 292, -220, -86, 16]
  const ROW_16K_1: Row := [
    26, -212, 6, 45, -185, 414, -764, 1290, -2099, 3470, -6431, 20320,
    20320, -6431, 3470, -2099, 1290, -764, 414, -185, 45, 6, -212, 26]
  const ROW_16K_2: Row := [
    16, -86, -220, 292, -478, 722, -1031, 1418, -1913, 2603, -3795, 7324,
    29344, -2948, 875, -129, -212, 362, -405, 383, -327, 248, -291, 1]

  const COEF_16K: seq<Row> := [ROW_16K_0, ROW_16K_1, ROW_16K_2]

  /** The rows of coefficients in use, one per phase. */
  type Bank = seq<Row>

  /** The tables are read inside their bounds for these ratios only. */
  predicate ValidRatio(ratio: nat) {
    ratio <= 3 || ratio == 6
  }

  /** us_get_coef_para */
  function BankOf(ratio: nat): (rows: Bank)
    requires ValidRatio(ratio)
    ensures |rows| == ratio
  {
    if ratio == 6 then COEF_8K else COEF_16K[..ratio]
  }

  // ---- Arithmetic of the machine ----

  const MAX32 := 0x7fff_ffff

  predicate In32(x: int) {
    -MAX32 - 1 <= x <= MAX32
  }

  /** The value of a 32-bit register. */
  function Wrap32(x: int): (r: int)
    ensures In32(r) && (In32(x) ==> r == x)
  {
    (x + 0x8000_0000) % 0x1_0000_0000 - 0x8000_0000
  }

  /** It differs by whole turns of the register. */
  lemma Wrap32IsModulo(x: int)
    ensures (Wrap32(x) - x) % 0x1_0000_0000 == 0
  {
    var q := (x + 0x8000_0000) / 0x1_0000_0000;
    assert x - Wrap32(x) == q * 0x1_0000_0000;
  }

  /** The accumulator after k coefficients. */
  function Acc(c: Row, w: seq<int>, k: nat): (a: int)
    requires |w| == COEF_NUM && k <= COEF_NUM
    ensures In32(a)
  {
    if k == 0 then 0 else Wrap32(Acc(c, w, k - 1) + w[k - 1] * c[k - 1])
  }

  /** The sum itself. */
  function Exact(c: Row, w: seq<int>, k: nat): int
    requires |w| == COEF_NUM && k <= COEF_NUM
  {
    if k == 0 then 0 else Exact(c, w, k - 1) + w[k - 1] * c[k - 1]
  }

  /** The upper half of the accumulator: an arithmetic shift by sixteen. */
  function UpperHalf(a: int): (s: int)
    requires In32(a)
    ensures -0x8000 <= s <= 0x7fff
  {
    a / 0x1_0000
  }

  function OutputOf(c: Row, w: seq<int>): (s: int)
    requires |w| == COEF_NUM
    ensures -0x8000 <= s <= 0x7fff
  {
    UpperHalf(Acc(c, w, COEF_NUM))
  }

  // ---- Runs ----

  /** The first n phases of the outputs for one input, from the 24 samples that end with it. */
  function Phases(rows: Bank, w: seq<int>, n: nat): (o: seq<int>)
    requires n <= |rows| && |w| == COEF_NUM
    ensures |o| == n
  {
    if n == 0 then [] else Phases(rows, w, n - 1) + [OutputOf(rows[n - 1], w)]
  }

  /** The 24 samples that end with input i. */
  function WindowAt(h: History, x: seq<int>, i: nat): (w: seq<int>)
    requires i < |x|
    ensures |w| == COEF_NUM
  {
    (h + x)[i..i + COEF_NUM]
  }

  lemma WindowSample(h: History, x: seq<int>, i: nat, k: nat)
    requires i < |x| && k < COEF_NUM
    ensures WindowAt(h, x, i)[k] == if k + i < HISTORY then h[k + i] else x[k + i - HISTORY]
  {
  }

  /** What the filter makes of the input, given the 23 samples before it. */
  function Filter(rows: Bank, h: History, x: seq<int>): seq<int> {
    if x == [] then []
    else Filter(rows, h, x[..|x| - 1]) + Phases(rows, WindowAt(h, x, |x| - 1), |rows|)
  }

  lemma {:induction false} FilterLength(rows: Bank, h: History, x: seq<int>)
    ensures |Filter(rows, h, x)| == |rows| * |x|
    decreases |x|
  {
    if x != [] {
      FilterLength(rows, h, x[..|x| - 1]);
      assert |rows| * (|x| - 1) + |rows| == |rows| * |x|;
    }
  }

  /** The last 23 samples ever seen. */
  function NextHistory(h: History, x: seq<int>): (h': History) {
    (h + x)[|x|..]
  }

  lemma HistoryOfConcat(h: History, a: seq<int>, b: seq<int>)
    ensures NextHistory(h, a + b) == NextHistory(NextHistory(h, a), b)
  {
    assert h + (a + b) == (h + a) + b;
    assert (h + a)[|a|..] + b == ((h + a) + b)[|a|..];
  }

  lemma WindowInPart(h: History, a: seq<int>, b: seq<int>, i: nat)
    requires i < |b|
    ensures WindowAt(h, a + b, |a| + i) == WindowAt(NextHistory(h, a), b, i)
  {
    assert h + (a + b) == (h + a) + b;
    assert (h + a)[|a|..] + b == ((h + a) + b)[|a|..];
  }

  /** Two calls in a row are one: the history carries everything over. */
  lemma {:induction false} FilterOfConcat(rows: Bank, h: History, a: seq<int>, b: seq<int>)
    ensures Filter(rows, h, a + b) == Filter(rows, h, a) + Filter(rows, NextHistory(h, a), b)
    decreases |b|
  {
    if b == [] {
      assert a + b == a;
    } else {
      var n := |b| - 1;
      assert (a + b)[..|a| + n] == a + b[..n];
      FilterOfConcat(rows, h, a, b[..n]);
      WindowInPart(h, a, b, n);
      WindowOfFront(NextHistory(h, a), b, n);
    }
  }

  lemma WindowOfFront(h: History, x: seq<int>, i: nat)
    requires i < |x|
    ensures WindowAt(h, x[..i + 1], i) == WindowAt(h, x, i)
  {
  }

  function Flatten(chunks: seq<seq<int>>): seq<int> {
    if chunks == [] then [] else Flatten(chunks[..|chunks| - 1]) + chunks[|chunks| - 1]
  }

  /** The outputs of a sequence of calls, one per chunk, and the history they leave. */
  function Calls(rows: Bank, h: History, chunks: seq<seq<int>>): (r: (seq<int>, History)) {
    if chunks == [] then ([], h) else
    var (o, h') := Calls(rows, h, chunks[..|chunks| - 1]);
    var x := chunks[|chunks| - 1];
    (o + Filter(rows, h', x), NextHistory(h', x))
  }

  /** However the input is cut into calls, of whatever lengths, the outputs are those of one call over all of it. */
  lemma {:induction false} ChunksDoNotMatter(rows: Bank, h: History, chunks: seq<seq<int>>)
    ensures Calls(rows, h, chunks) == (Filter(rows, h, Flatten(chunks)), NextHistory(h, Flatten(chunks)))
    decreases |chunks|
  {
    if chunks == [] {
      assert NextHistory(h, []) == h;
    } else {
      var front, x := chunks[..|chunks| - 1], chunks[|chunks| - 1];
      ChunksDoNotMatter(rows, h, front);
      FilterOfConcat(rows, h, Flatten(front), x);
      HistoryOfConcat(h, Flatten(front), x);
    }
  }

  /** Output i * ratio + phase is the filter of that phase over the 24 samples that end with input i. */
  lemma {:induction false} OutputAt(rows: Bank, h: History, x: seq<int>, i: nat, phase: nat)
    requires phase < |rows| && i < |x|
    ensures |rows| * i + phase < |Filter(rows, h, x)|
    ensures Filter(rows, h, x)[|rows| * i + phase] == OutputOf(rows[phase], WindowAt(h, x, i))
    decreases |x|
  {
    var n := |x| - 1;
    FilterLength(rows, h, x[..n]);
    if i < n {
      OutputAt(rows, h, x[..n], i, phase);
      assert WindowAt(h, x[..n], i) == WindowAt(h, x, i);
    } else {
      PhaseAt(rows, WindowAt(h, x, i), |rows|, phase);
    }
  }

  lemma {:induction false} PhaseAt(rows: Bank, w: seq<int>, n: nat, phase: nat)
    requires phase < n <= |rows| && |w| == COEF_NUM
    ensures Phases(rows, w, n)[phase] == OutputOf(rows[phase], w)
    decreases n
  {
    if phase < n - 1 {
      PhaseAt(rows, w, n - 1, phase);
    }
  }

  // ---- What the coefficients are ----

  /** One sample among zeros. */
  predicate Impulse(w: seq<int>, k: nat, a: int) {
    k < |w| && forall i | 0 <= i < |w| :: w[i] == if i == k then a else 0
  }

  lemma {:induction false} ImpulseSum(c: Row, w: seq<int>, k: nat, a: int, n: nat)
    requires |w| == COEF_NUM && Impulse(w, k, a) && n <= COEF_NUM && In32(a * c[k])
    ensures Acc(c, w, n) == if k < n then a * c[k] else 0
    decreases n
  {
    if n > 0 {
      ImpulseSum(c, w, k, a, n - 1);
      assert w[n - 1] * c[n - 1] == if n - 1 == k then a * c[k] else 0;
    }
  }

  /**
   * The impulse response: a single sample comes out of phase `phase`, as long as it is among the 24 last ones, times
   * that phase's coefficient; the newest sample meets the last coefficient. After that there is silence.
   */
  lemma ImpulseResponse(rows: Bank, x: seq<int>, j: nat, a: int, i: nat, phase: nat)
    requires phase < |rows| && Impulse(x, j, a) && i < |x|
    requires j <= i < j + COEF_NUM ==> In32(a * rows[phase][COEF_NUM - 1 - (i - j)])
    ensures |rows| * i + phase < |Filter(rows, seq(HISTORY, _ => 0), x)|
    ensures Filter(rows, seq(HISTORY, _ => 0), x)[|rows| * i + phase] ==
            if j <= i < j + COEF_NUM then a * rows[phase][COEF_NUM - 1 - (i - j)] / 0x1_0000 else 0
  {
    var h: History := seq(HISTORY, _ => 0);
    var w := WindowAt(h, x, i);
    OutputAt(rows, h, x, i, phase);
    forall k | 0 <= k < COEF_NUM
      ensures w[k] == if k + i - HISTORY == j then a else 0
    {
      WindowSample(h, x, i, k);
    }
    if j <= i < j + COEF_NUM {
      ImpulseSum(rows[phase], w, COEF_NUM - 1 - (i - j), a, COEF_NUM);
    } else {
      SilenceSum(rows[phase], w, COEF_NUM);
    }
  }

  lemma {:induction false} SilenceSum(c: Row, w: seq<int>, n: nat)
    requires |w| == COEF_NUM && n <= COEF_NUM && forall i | 0 <= i < |w| :: w[i] == 0
    ensures Acc(c, w, n) == 0
    decreases n
  {
    if n > 0 {
      SilenceSum(c, w, n - 1);
    }
  }

  predicate Mirrored(c: Row, d: Row) {
    forall k | 0 <= k < COEF_NUM :: c[k] == d[COEF_NUM - 1 - k]
  }

  lemma OuterMirrored8k()
    ensures Mirrored(ROW_8K_0, ROW_8K_5)
  {
  }

  lemma MiddleMirrored8k()
    ensures Mirrored(ROW_8K_1, ROW_8K_4)
  {
  }

  lemma InnerMirrored8k()
    ensures Mirrored(ROW_8K_2, ROW_8K_3)
  {
  }

  lemma Mirrored16k()
    ensures Mirrored(ROW_16K_0, ROW_16K_2) && Mirrored(ROW_16K_1, ROW_16K_1)
  {
  }

  /** Both tables are symmetric in time: each phase's row read backwards is the row of the phase opposite to it. */
  lemma TablesAreMirrored()
    ensures Mirrored(COEF_8K[0], COEF_8K[5]) && Mirrored(COEF_8K[1], COEF_8K[4]) && Mirrored(COEF_8K[2], COEF_8K[3])
    ensures Mirrored(COEF_16K[0], COEF_16K[2]) && Mirrored(COEF_16K[1], COEF_16K[1])
  {
    OuterMirrored8k();
    MiddleMirrored8k();
    InnerMirrored8k();
    Mirrored16k();
  }

  function Sum(c: Row, k: nat): int
    requires k <= COEF_NUM
  {
    if k == 0 then 0 else Sum(c, k - 1) + c[k - 1]
  }

  lemma SumIs(c: Row, a: int, b: int, d: int)
    requires a == c[0] + c[1] + c[2] + c[3] + c[4] + c[5] + c[6] + c[7]
    requires b == c[8] + c[9] + c[10] + c[11] + c[12] + c[13] + c[14] + c[15]
    requires d == c[16] + c[17] + c[18] + c[19] + c[20] + c[21] + c[22] + c[23]
    ensures Sum(c, COEF_NUM) == a + b + d
  {
    EightMoreOf(c, 0);
    EightMoreOf(c, 8);
    EightMoreOf(c, 16);
  }

  lemma EightMoreOf(c: Row, k: nat)
    requires k + 8 <= COEF_NUM
    ensures Sum(c, k + 8) == Sum(c, k) + (c[k] + c[k + 1] + c[k + 2] + c[k + 3]
                                          + c[k + 4] + c[k + 5] + c[k + 6] + c[k + 7])
  {
    assert Sum(c, k + 2) == Sum(c, k) + c[k] + c[k + 1];
    assert Sum(c, k + 4) == Sum(c, k + 2) + c[k + 2] + c[k + 3];
    assert Sum(c, k + 6) == Sum(c, k + 4) + c[k + 4] + c[k + 5];
  }

  /** A constant input comes out of a row times the row's sum. */
  lemma {:induction false} ConstantSum(c: Row, w: seq<int>, m: int, k: nat)
    requires |w| == COEF_NUM && k <= COEF_NUM && forall i | 0 <= i < |w| :: w[i] == m
    ensures Exact(c, w, k) == m * Sum(c, k)
    decreases k
  {
    if k > 0 {
      ConstantSum(c, w, m, k - 1);
      assert m * (Sum(c, k - 1) + c[k - 1]) == m * Sum(c, k - 1) + m * c[k - 1];
    }
  }

  lemma Sums8k()
    ensures Sum(ROW_8K_0, COEF_NUM) == Sum(ROW_8K_5, COEF_NUM) == 31750
    ensures Sum(ROW_8K_1, COEF_NUM) == Sum(ROW_8K_4, COEF_NUM) == 31753
    ensures Sum(ROW_8K_2, COEF_NUM) == Sum(ROW_8K_3, COEF_NUM) == 31760
  {
    SumIs(ROW_8K_0, -347, 31694, 403);
    SumIs(ROW_8K_1, 207, 30869, 677);
    SumIs(ROW_8K_2, 603, 30396, 761);
    SumIs(ROW_8K_3, 761, 30396, 603);
    SumIs(ROW_8K_4, 677, 30869, 207);
    SumIs(ROW_8K_5, 403, 31694, -347);
  }

  lemma Sums16k()
    ensures Sum(ROW_16K_0, COEF_NUM) == Sum(ROW_16K_2, COEF_NUM) == 31753
    ensures Sum(ROW_16K_1, COEF_NUM) == 31760
  {
    SumIs(ROW_16K_0, -241, 31361, 633);
    SumIs(ROW_16K_1, 620, 30520, 620);
    SumIs(ROW_16K_2, 633, 31361, -241);
  }

  // ---- Overflow ----

  function Abs(x: int): nat {
    if x < 0 then -x else x
  }

  function AbsSum(c: Row, k: nat): nat
    requires k <= COEF_NUM
  {
    if k == 0 then 0 else AbsSum(c, k - 1) + Abs(c[k - 1])
  }

  predicate Bounded(w: seq<int>, m: nat) {
    forall i | 0 <= i < |w| :: Abs(w[i]) <= m
  }

  lemma ProductBound(x: int, c: int, m: nat)
    requires Abs(x) <= m
    ensures Abs(x * c) <= m * Abs(c)
  {
    assert Abs(x * c) == Abs(x) * Abs(c);
    TimesGrows(Abs(x), m, Abs(c));
  }

  lemma TimesGrows(a: nat, b: nat, c: nat)
    requires a <= b
    ensures a * c <= b * c && c * a <= c * b
  {
  }

  lemma Distribute(m: nat, a: nat, b: nat)
    ensures m * (a + b) == m * a + m * b
  {
  }

  lemma {:induction false} SumBound(c: Row, w: seq<int>, m: nat, k: nat)
    requires |w| == COEF_NUM && k <= COEF_NUM && Bounded(w, m)
    ensures Abs(Exact(c, w, k)) <= m * AbsSum(c, k)
    decreases k
  {
    if k > 0 {
      SumBound(c, w, m, k - 1);
      ProductBound(w[k - 1], c[k - 1], m);
      Distribute(m, AbsSum(c, k - 1), Abs(c[k - 1]));
      AddBounds(Exact(c, w, k - 1), m * AbsSum(c, k - 1), w[k - 1] * c[k - 1], m * Abs(c[k - 1]));
    }
  }

  lemma AddBounds(x: int, a: nat, y: int, b: nat)
    requires Abs(x) <= a && Abs(y) <= b
    ensures Abs(x + y) <= a + b
  {
  }

  lemma {:induction false} AbsSumGrows(c: Row, k: nat, n: nat)
    requires k <= n <= COEF_NUM
    ensures AbsSum(c, k) <= AbsSum(c, n)
    decreases n
  {
    if k < n {
      AbsSumGrows(c, k, n - 1);
    }
  }

  /** The samples that drive a row to its largest sum. */
  function Peak(c: Row, m: nat): (w: seq<int>)
    ensures |w| == COEF_NUM && Bounded(w, m)
  {
    seq(COEF_NUM, k requires 0 <= k < COEF_NUM => if c[k] >= 0 then m as int else 0 - m)
  }

  lemma {:induction false} PeakSum(c: Row, m: nat, k: nat)
    requires k <= COEF_NUM
    ensures Exact(c, Peak(c, m), k) == m * AbsSum(c, k)
    decreases k
  {
    if k > 0 {
      PeakSum(c, m, k - 1);
      Distribute(m, AbsSum(c, k - 1), Abs(c[k - 1]));
      assert Peak(c, m)[k - 1] * c[k - 1] == m * Abs(c[k - 1]);
    }
  }

  /** No partial sum of any input leaves 32 bits. */
  ghost predicate NeverOverflows(c: Row, m: nat) {
    forall w, k: nat | |w| == COEF_NUM && Bounded(w, m) && k <= COEF_NUM :: In32(Exact(c, w, k))
  }

  /** A row keeps all inputs up to m inside 32 bits exactly when m times its absolute sum still fits. */
  lemma NeverOverflowsIff(c: Row, m: nat)
    ensures NeverOverflows(c, m) <==> m * AbsSum(c, COEF_NUM) <= MAX32
  {
    if m * AbsSum(c, COEF_NUM) <= MAX32 {
      forall w, k: nat | |w| == COEF_NUM && Bounded(w, m) && k <= COEF_NUM
        ensures In32(Exact(c, w, k))
      {
        StaysIn32(c, w, m, k);
      }
    } else {
      PeakSum(c, m, COEF_NUM);
      assert !In32(Exact(c, Peak(c, m), COEF_NUM));
    }
  }

  lemma StaysIn32(c: Row, w: seq<int>, m: nat, k: nat)
    requires |w| == COEF_NUM && Bounded(w, m) && k <= COEF_NUM && m * AbsSum(c, COEF_NUM) <= MAX32
    ensures In32(Exact(c, w, k))
  {
    SumBound(c, w, m, k);
    AbsSumGrows(c, k, COEF_NUM);
    TimesGrows(AbsSum(c, k), AbsSum(c, COEF_NUM), m);
  }

  /** Then the accumulator holds the sum itself. */
  lemma {:induction false} AccIsExact(c: Row, w: seq<int>, m: nat, k: nat)
    requires |w| == COEF_NUM && Bounded(w, m) && NeverOverflows(c, m) && k <= COEF_NUM
    ensures Acc(c, w, k) == Exact(c, w, k)
    decreases k
  {
    if k > 0 {
      AccIsExact(c, w, m, k - 1);
      assert In32(Exact(c, w, k));
    }
  }

  // ---- The tables ----

  /** AbsSum from the sums of three thirds. */
  lemma AbsSumIs(c: Row, a: nat, b: nat, d: nat)
    requires a == Abs(c[0]) + Abs(c[1]) + Abs(c[2]) + Abs(c[3]) + Abs(c[4]) + Abs(c[5]) + Abs(c[6]) + Abs(c[7])
    requires b == Abs(c[8]) + Abs(c[9]) + Abs(c[10]) + Abs(c[11]) + Abs(c[12]) + Abs(c[13]) + Abs(c[14]) + Abs(c[15])
    requires d == Abs(c[16]) + Abs(c[17]) + Abs(c[18]) + Abs(c[19]) + Abs(c[20]) + Abs(c[21]) + Abs(c[22]) + Abs(c[23])
    ensures AbsSum(c, COEF_NUM) == a + b + d
  {
    EightMore(c, 0);
    EightMore(c, 8);
    EightMore(c, 16);
  }

  lemma EightMore(c: Row, k: nat)
    requires k + 8 <= COEF_NUM
    ensures AbsSum(c, k + 8) == AbsSum(c, k) + (Abs(c[k]) + Abs(c[k + 1]) + Abs(c[k + 2]) + Abs(c[k + 3])
                                                + Abs(c[k + 4]) + Abs(c[k + 5]) + Abs(c[k + 6]) + Abs(c[k + 7]))
  {
    assert AbsSum(c, k + 2) == AbsSum(c, k) + Abs(c[k]) + Abs(c[k + 1]);
    assert AbsSum(c, k + 4) == AbsSum(c, k + 2) + Abs(c[k + 2]) + Abs(c[k + 3]);
    assert AbsSum(c, k + 6) == AbsSum(c, k + 4) + Abs(c[k + 4]) + Abs(c[k + 5]);
  }

  lemma RowNeverOverflowsIff(c: Row, a: nat, b: nat, d: nat, m: nat)
    requires a == Abs(c[0]) + Abs(c[1]) + Abs(c[2]) + Abs(c[3]) + Abs(c[4]) + Abs(c[5]) + Abs(c[6]) + Abs(c[7])
    requires b == Abs(c[8]) + Abs(c[9]) + Abs(c[10]) + Abs(c[11]) + Abs(c[12]) + Abs(c[13]) + Abs(c[14]) + Abs(c[15])
    requires d == Abs(c[16]) + Abs(c[17]) + Abs(c[18]) + Abs(c[19]) + Abs(c[20]) + Abs(c[21]) + Abs(c[22]) + Abs(c[23])
    ensures NeverOverflows(c, m) <==> m * (a + b + d) <= MAX32
  {
    AbsSumIs(c, a, b, d);
    NeverOverflowsIff(c, m);
  }

  lemma OuterRows8k(m: nat)
    ensures NeverOverflows(ROW_8K_0, m) <==> m * 47690 <= MAX32
    ensures NeverOverflows(ROW_8K_5, m) <==> m * 47690 <= MAX32
  {
    RowNeverOverflowsIff(ROW_8K_0, 2441, 41604, 3645, m);
    RowNeverOverflowsIff(ROW_8K_5, 3645, 41604, 2441, m);
  }

  lemma MiddleRows8k(m: nat)
    ensures NeverOverflows(ROW_8K_1, m) <==> m * 62181 <= MAX32
    ensures NeverOverflows(ROW_8K_4, m) <==> m * 62181 <= MAX32
  {
    RowNeverOverflowsIff(ROW_8K_1, 1461, 56227, 4493, m);
    RowNeverOverflowsIff(ROW_8K_4, 4493, 56227, 1461, m);
  }

  lemma InnerRows8k(m: nat)
    ensures NeverOverflows(ROW_8K_2, m) <==> m * 71978 <= MAX32
    ensures NeverOverflows(ROW_8K_3, m) <==> m * 71978 <= MAX32
  {
    RowNeverOverflowsIff(ROW_8K_2, 3161, 64426, 4391, m);
    RowNeverOverflowsIff(ROW_8K_3, 4391, 64426, 3161, m);
  }

  lemma Rows16k(m: nat)
    ensures NeverOverflows(ROW_16K_0, m) <==> m * 55423 <= MAX32
    ensures NeverOverflows(ROW_16K_1, m) <==> m * 70524 <= MAX32
    ensures NeverOverflows(ROW_16K_2, m) <==> m * 55423 <= MAX32
  {
    RowNeverOverflowsIff(ROW_16K_0, 2229, 48931, 4263, m);
    RowNeverOverflowsIff(ROW_16K_1, 2942, 64640, 2942, m);
    RowNeverOverflowsIff(ROW_16K_2, 4263, 48931, 2229, m);
  }

  ghost predicate BankNeverOverflows(rows: Bank, m: nat) {
    forall phase | 0 <= phase < |rows| :: NeverOverflows(rows[phase], m)
  }

  lemma SixRows(c0: Row, c1: Row, c2: Row, c3: Row, c4: Row, c5: Row, m: nat)
    ensures BankNeverOverflows([c0, c1, c2, c3, c4, c5], m) <==>
            && NeverOverflows(c0, m) && NeverOverflows(c1, m) && NeverOverflows(c2, m)
            && NeverOverflows(c3, m) && NeverOverflows(c4, m) && NeverOverflows(c5, m)
  {
    var rows := [c0, c1, c2, c3, c4, c5];
    if BankNeverOverflows(rows, m) {
      assert NeverOverflows(rows[0], m) && NeverOverflows(rows[1], m) && NeverOverflows(rows[2], m);
      assert NeverOverflows(rows[3], m) && NeverOverflows(rows[4], m) && NeverOverflows(rows[5], m);
    }
  }

  lemma ThreeRows(c0: Row, c1: Row, c2: Row, m: nat)
    ensures BankNeverOverflows([c0, c1, c2], m) <==>
            NeverOverflows(c0, m) && NeverOverflows(c1, m) && NeverOverflows(c2, m)
  {
    var rows := [c0, c1, c2];
    if BankNeverOverflows(rows, m) {
      assert NeverOverflows(rows[0], m) && NeverOverflows(rows[1], m) && NeverOverflows(rows[2], m);
    }
  }

  /** Sixfold upsampling is free of overflow for all inputs up to m exactly when m <= 29835. */
  lemma SixfoldNeverOverflowsIff(m: nat)
    ensures BankNeverOverflows(BankOf(6), m) <==> m <= 29835
  {
    OuterRows8k(m);
    MiddleRows8k(m);
    InnerRows8k(m);
    SixRows(ROW_8K_0, ROW_8K_1, ROW_8K_2, ROW_8K_3, ROW_8K_4, ROW_8K_5, m);
  }

  /** Threefold upsampling exactly when m <= 30450. */
  lemma ThreefoldNeverOverflowsIff(m: nat)
    ensures BankNeverOverflows(BankOf(3), m) <==> m <= 30450
  {
    Rows16k(m);
    ThreeRows(ROW_16K_0, ROW_16K_1, ROW_16K_2, m);
    assert COEF_16K[..3] == COEF_16K;
  }

  /** The convolution the filter stands for, without any register. */
  function Ideal(c: Row, w: seq<int>): int
    requires |w| == COEF_NUM
  {
    Exact(c, w, COEF_NUM) / 0x1_0000
  }

  lemma BankIsIdeal(rows: Bank, m: nat, h: History, x: seq<int>, i: nat, phase: nat)
    requires BankNeverOverflows(rows, m) && phase < |rows| && i < |x| && Bounded(h, m) && Bounded(x, m)
    ensures |rows| * i + phase < |Filter(rows, h, x)|
    ensures Filter(rows, h, x)[|rows| * i + phase] == Ideal(rows[phase], WindowAt(h, x, i))
  {
    OutputAt(rows, h, x, i, phase);
    AccIsExact(rows[phase], WindowAt(h, x, i), m, COEF_NUM);
  }

  /** For samples within the bound every output is the ideal one, at any place of any input. */
  lemma OutputIsIdeal(ratio: nat, h: History, x: seq<int>, i: nat, phase: nat)
    requires ratio == 6 || ratio == 3
    requires phase < ratio && i < |x| && Bounded(h, 29835) && Bounded(x, 29835)
    ensures var rows := BankOf(ratio);
      ratio * i + phase < |Filter(rows, h, x)|
      && Filter(rows, h, x)[ratio * i + phase] == Ideal(rows[phase], WindowAt(h, x, i))
  {
    SixfoldNeverOverflowsIff(29835);
    ThreefoldNeverOverflowsIff(29835);
    assert BankNeverOverflows(BankOf(ratio), 29835);
    BankIsIdeal(BankOf(ratio), 29835, h, x, i, phase);
  }

  // ---- In memory ----

  /** app_audio_memcpy_16bit, in ascending order: safe where source and target overlap with the target in front. */
  method Memcpy16(dst: array<int>, dstAt: nat, src: array<int>, srcAt: nat, len: nat)
    requires dstAt + len <= dst.Length && srcAt + len <= src.Length
    requires dst != src || dstAt <= srcAt
    modifies dst
    ensures dst[..] == old(dst[..dstAt]) + old(src[srcAt..srcAt + len]) + old(dst[dstAt + len..])
  {
    ghost var before, source := dst[..], src[srcAt..srcAt + len];
    for i := 0 to len
      invariant dst[..] == before[..dstAt] + source[..i] + before[dstAt + i..]
    {
      assert src[srcAt + i] == source[i] by {
        if dst == src {
          assert dst[..][srcAt + i] == before[srcAt + i];
        }
      }
      dst[dstAt + i] := src[srcAt + i];
    }
  }

  class Upsampler {
    const ratio: nat
    const paraLst: array<int>

    ghost predicate Valid()
      reads this
    {
      ValidRatio(ratio) && paraLst.Length == HISTORY
    }

    /** us_fir_init */
    constructor (ratio: nat)
      requires ValidRatio(ratio)
      ensures Valid() && this.ratio == ratio && fresh(paraLst) && paraLst[..] == seq(HISTORY, _ => 0)
    {
      this.ratio := ratio;
      paraLst := new int[HISTORY](_ => 0);
    }

    /** One sample of the window, from the history or from the input. */
    method Sample(src: array<int>, inIdx: nat, coefIdx: nat, len: nat) returns (para: int)
      requires Valid() && inIdx < len <= src.Length && coefIdx < COEF_NUM
      ensures para == WindowAt(paraLst[..], src[..len], inIdx)[coefIdx]
    {
      var realIdx := coefIdx + inIdx;
      para := if realIdx < HISTORY then paraLst[realIdx] else src[realIdx - HISTORY];
      WindowSample(paraLst[..], src[..len], inIdx, coefIdx);
    }

    /** The inner loop: one output before its upper half is taken. */
    method Accumulate(coefs: Row, src: array<int>, inIdx: nat, len: nat) returns (out: int)
      requires Valid() && inIdx < len <= src.Length
      ensures In32(out) && out == Acc(coefs, WindowAt(paraLst[..], src[..len], inIdx), COEF_NUM)
    {
      ghost var w := WindowAt(paraLst[..], src[..len], inIdx);
      out := 0;
      for coefIdx := 0 to COEF_NUM
        invariant out == Acc(coefs, w, coefIdx)
      {
        var para := Sample(src, inIdx, coefIdx, len);
        out := Wrap32(out + para * coefs[coefIdx]);
      }
    }

    /** All phases for one input. */
    method RunPhases(src: array<int>, dst: array<int>, inIdx: nat, len: nat, outIdx: nat)
      requires Valid() && inIdx < len <= src.Length && outIdx + ratio <= dst.Length
      requires dst != src && dst != paraLst
      modifies dst
      ensures dst[..outIdx + ratio]
           == old(dst[..outIdx]) + Phases(BankOf(ratio), WindowAt(paraLst[..], src[..len], inIdx), ratio)
      ensures dst[outIdx + ratio..] == old(dst[outIdx + ratio..])
    {
      ghost var w := WindowAt(paraLst[..], src[..len], inIdx);
      var rows := BankOf(ratio);
      for sampIdx := 0 to ratio
        invariant dst[..outIdx + sampIdx] == old(dst[..outIdx]) + Phases(rows, w, sampIdx)
        invariant dst[outIdx + ratio..] == old(dst[outIdx + ratio..])
      {
        var out := Accumulate(rows[sampIdx], src, inIdx, len);
        dst[outIdx + sampIdx] := UpperHalf(out);
        assert dst[..outIdx + sampIdx + 1] == dst[..outIdx + sampIdx] + [OutputOf(rows[sampIdx], w)];
      }
    }

    /** The history after a call: the last 23 samples, whether the call brought that many or not. */
    method UpdateHistory(src: array<int>, len: nat)
      requires Valid() && len <= src.Length && src != paraLst
      modifies paraLst
      ensures paraLst[..] == NextHistory(old(paraLst[..]), src[..len])
    {
      if len >= HISTORY {
        Memcpy16(paraLst, 0, src, len - HISTORY, HISTORY);
      } else {
        var startIdx := HISTORY - len;
        Memcpy16(paraLst, 0, paraLst, len, startIdx);
        Memcpy16(paraLst, startIdx, src, 0, len);
      }
    }

    /** us_fir_run */
    method Run(src: array<int>, dst: array<int>, len: nat) returns (outIdx: nat)
      requires Valid() && len <= src.Length && ratio * len <= dst.Length
      requires dst != src && dst != paraLst && src != paraLst
      modifies dst, paraLst
      ensures outIdx == ratio * len
      ensures dst[..outIdx] == Filter(BankOf(ratio), old(paraLst[..]), src[..len])
      ensures dst[outIdx..] == old(dst[outIdx..])
      ensures paraLst[..] == NextHistory(old(paraLst[..]), src[..len])
    {
      ghost var rows, h := BankOf(ratio), paraLst[..];
      outIdx := 0;
      for inIdx := 0 to len
        invariant outIdx == ratio * inIdx && outIdx <= dst.Length && paraLst[..] == h
        invariant dst[..outIdx] == Filter(rows, h, src[..inIdx])
        invariant dst[outIdx..] == old(dst[outIdx..])
      {
        TimesGrows(inIdx + 1, len, ratio);
        Distribute(ratio, inIdx, 1);
        RunPhases(src, dst, inIdx, len, outIdx);
        assert src[..inIdx + 1][..inIdx] == src[..inIdx];
        WindowOfFront(h, src[..len], inIdx);
        assert src[..len][..inIdx + 1] == src[..inIdx + 1];
        outIdx := outIdx + ratio;
      }
      UpdateHistory(src, len);
    }
  }
}

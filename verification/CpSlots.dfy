/**
 * The three output slots between the coprocessor's decoder and the MCU's player (apps/audioplayers/a2dpplay.cpp).
 * Each read or write of a slot state, a length, an index or a byte of the common output cache is a step of its own.
 */
module CpSlots {
  import opened Bytes

  const SLOT_CNT := 3

  datatype SlotState = Idle | Working | Done | Failed

  /** cp_dec_state and cp_out_len by slot, cp_out_cache and what stands behind it, the two indices, cp_out_loop_size. */
  datatype Slots = Slots(
    state: seq<SlotState>, outLen: seq<nat>, mem: seq<byte>, cpIdx: nat, mcuIdx: nat, loopSize: nat)

  /**
   * Begun: slot taken; Decoding: `data` written from byte `k` of the slot on; Added: counted; Sealed: state set, index
   * not yet moved.
   */
  datatype Cp = CpOut | Begun | Decoding(k: nat, data: seq<byte>) | Added(k: nat, data: seq<byte>) | Sealed

  /** How a call of mcu_decode_a2dp_process judged the slot it looked at. */
  datatype Verdict = Took(pcm: seq<byte>) | SawBad | SawUnfinished

  /** `seen` slots had been finished at the call's first look. */
  datatype Mcu =
    | McuOut | TestedDone(seen: nat) | Copying(seen: nat, buf: seq<byte>)
    | Judged(seen: nat, v: Verdict) | Freeing(seen: nat, v: Verdict) | Freed

  /** One finished slot: its outcome, the length it claims and the bytes of the turn that finished it. */
  datatype Product = Product(ok: bool, len: nat, data: seq<byte>)

  /** One released slot: what became of it, what the call had seen, and the bytes written over before they were copied. */
  datatype Released = Released(v: Verdict, seen: nat, spilled: map<nat, byte>)

  /** `made` logs the finished slots in order, `out` the released ones; `head` is released next, `spilled` lies on it. */
  datatype State = State(
    slots: Slots, cp: Cp, mcu: Mcu, made: seq<Product>, out: seq<Released>, head: nat, spilled: map<nat, byte>)

  datatype Action =
    | CpBegin | CpZeroLen | CpWrite(b: byte) | CpAddLen | CpRetry | CpSeal | CpAdvance
    | McuTestState | McuTestLen | McuCopyByte | McuCopied | McuLookAgain | McuSetIdle | McuAdvance

  function NextIdx(i: nat): nat {
    if i + 1 >= SLOT_CNT then 0 else i + 1
  }

  /** The first byte of a slot in the cache. */
  function Base(loopSize: nat, idx: nat): nat {
    if idx == 0 then 0 else if idx == 1 then loopSize else 2 * loopSize
  }

  function Verdicts(ok: bool): SlotState {
    if ok then Done else Failed
  }

  predicate Finished(x: SlotState) {
    x == Done || x == Failed
  }

  /** Behind the cache of three slots there is memory for a fourth, so that a write past the cache has a place. */
  predicate Shaped(s: State) {
    && |s.slots.state| == |s.slots.outLen| == SLOT_CNT
    && s.slots.cpIdx < SLOT_CNT && s.slots.mcuIdx < SLOT_CNT
    && 0 < s.slots.loopSize && 4 * s.slots.loopSize <= |s.slots.mem|
  }

  /** Where the coprocessor writes next. */
  function WritePos(s: State): nat
    requires s.cp.Decoding?
  {
    Base(s.slots.loopSize, s.slots.cpIdx) + s.cp.k + |s.cp.data|
  }

  predicate Enabled(s: State, a: Action)
    requires Shaped(s)
  {
    match a
    case CpBegin => s.cp.CpOut?
    case CpZeroLen => s.cp.Begun?
    case CpWrite(_) => s.cp.Decoding? && |s.cp.data| < s.slots.loopSize && WritePos(s) < |s.slots.mem|
    case CpAddLen => s.cp.Decoding?
    case CpRetry => s.cp.Added? && |s.cp.data| < s.slots.loopSize
    case CpSeal => s.cp.Added?
    case CpAdvance => s.cp.Sealed?
    case McuTestState => s.mcu.McuOut?
    case McuTestLen => s.mcu.TestedDone?
    case McuCopyByte => s.mcu.Copying? && |s.mcu.buf| < s.slots.loopSize
    case McuCopied => s.mcu.Copying? && |s.mcu.buf| == s.slots.loopSize
    case McuLookAgain => s.mcu.Judged?
    case McuSetIdle => s.mcu.Freeing?
    case McuAdvance => s.mcu.Freed?
  }

  /** Finished slots not yet released. */
  function Waiting(s: State): int {
    |s.made| - |s.out|
  }

  /** The MCU has yet to read byte `p` of the oldest finished slot. */
  predicate Uncopied(s: State, p: nat) {
    match s.mcu
    case Copying(_, buf) => p >= |buf|
    case Judged(_, v) => !v.Took?
    case Freeing(_, v) => !v.Took?
    case _ => true
  }

  /** The next write runs past the coprocessor's slot, into the oldest finished one. */
  predicate HitsOldest(s: State)
    requires s.cp.Decoding?
  {
    s.cp.k + |s.cp.data| >= s.slots.loopSize && s.slots.cpIdx + 1 == s.head && Waiting(s) == 2
  }

  function SpilledAfter(s: State, b: byte): map<nat, byte>
    requires s.cp.Decoding?
  {
    var p := s.cp.k + |s.cp.data| - s.slots.loopSize;
    if HitsOldest(s) && Uncopied(s, p) then s.spilled[p := b] else s.spilled
  }

  function Step(s: State, a: Action): State
    requires Shaped(s) && Enabled(s, a)
  {
    var x := s.slots;
    match a
    case CpBegin =>
      // cp_a2dp_main restarts an overfull resumed slot; cp_decode_a2dp_begin refuses a finished one
      if x.state[x.cpIdx] == Idle then s.(slots := x.(state := x.state[x.cpIdx := Working]), cp := Begun)
      else if x.state[x.cpIdx] == Working then
        if x.outLen[x.cpIdx] < x.loopSize then s.(cp := Decoding(x.outLen[x.cpIdx], [])) else s.(cp := Begun)
      else s
    case CpZeroLen => s.(slots := x.(outLen := x.outLen[x.cpIdx := 0]), cp := Decoding(0, []))
    case CpWrite(b) =>
      s.(slots := x.(mem := x.mem[WritePos(s) := b]), cp := Decoding(s.cp.k, s.cp.data + [b]),
         spilled := SpilledAfter(s, b))
    case CpAddLen =>
      s.(slots := x.(outLen := x.outLen[x.cpIdx := x.outLen[x.cpIdx] + |s.cp.data|]), cp := Added(s.cp.k, s.cp.data))
    case CpRetry => s.(cp := CpOut)
    case CpSeal =>
      // the turn is always asked for a whole loop of output, whatever the slot held already
      var ok := |s.cp.data| == x.loopSize;
      s.(slots := x.(state := x.state[x.cpIdx := Verdicts(ok)]), cp := Sealed,
         made := s.made + [Product(ok, x.outLen[x.cpIdx], s.cp.data)])
    case CpAdvance => s.(slots := x.(cpIdx := NextIdx(x.cpIdx)), cp := CpOut)
    case McuTestState =>
      s.(mcu := if x.state[x.mcuIdx] == Done then TestedDone(|s.made|)
                else Judged(|s.made|, if x.state[x.mcuIdx] == Failed then SawBad else SawUnfinished))
    case McuTestLen =>
      s.(mcu := if x.outLen[x.mcuIdx] == x.loopSize then Copying(s.mcu.seen, []) else Judged(s.mcu.seen, SawBad))
    case McuCopyByte =>
      s.(mcu := Copying(s.mcu.seen, s.mcu.buf + [x.mem[Base(x.loopSize, x.mcuIdx) + |s.mcu.buf|]]))
    case McuCopied => s.(mcu := Judged(s.mcu.seen, Took(s.mcu.buf)))
    case McuLookAgain =>
      s.(mcu := if Finished(x.state[x.mcuIdx]) then Freeing(s.mcu.seen, s.mcu.v) else McuOut)
    case McuSetIdle =>
      s.(slots := x.(state := x.state[x.mcuIdx := Idle]), mcu := Freed,
         out := s.out + [Released(s.mcu.v, s.mcu.seen, s.spilled)], head := NextIdx(s.head), spilled := map[])
    case McuAdvance => s.(slots := x.(mcuIdx := NextIdx(x.mcuIdx)), mcu := McuOut)
  }

  /** The slot `j` places after the next one to release. */
  function SlotAt(head: nat, j: nat): (k: nat)
    requires head < SLOT_CNT && j <= SLOT_CNT
    ensures k < SLOT_CNT
  {
    if head + j >= SLOT_CNT then head + j - SLOT_CNT else head + j
  }

  predicate IsGood(s: State, p: Product) {
    p.ok && p.len == s.slots.loopSize
  }

  // ---- States and indices ----

  /** The slot `j` places on is finished as logged, or free, or the one the coprocessor is working on. */
  predicate SlotAgrees(s: State, j: nat)
    requires Shaped(s) && s.head < SLOT_CNT && j < SLOT_CNT
  {
    var k := SlotAt(s.head, j);
    if j < Waiting(s) then
      var p := s.made[|s.out| + j];
      s.slots.state[k] == Verdicts(p.ok) && s.slots.outLen[k] == p.len
    else
      s.slots.state[k] == Idle || (j == Waiting(s) && s.slots.state[k] == Working)
  }

  predicate IdxInv(s: State)
    requires Shaped(s)
  {
    && s.head < SLOT_CNT && 0 <= Waiting(s) <= SLOT_CNT
    && SlotAt(s.head, Waiting(s)) == (if s.cp.Sealed? then NextIdx(s.slots.cpIdx) else s.slots.cpIdx)
    && s.head == (if s.mcu.Freed? then NextIdx(s.slots.mcuIdx) else s.slots.mcuIdx)
  }

  /** The coprocessor's own slot while it holds one. */
  predicate CpInv(s: State)
    requires Shaped(s)
  {
    var x := s.slots;
    && (s.cp.Begun? || s.cp.Decoding? || s.cp.Added? ==> Waiting(s) < SLOT_CNT && x.state[x.cpIdx] == Working)
    && (s.cp.Decoding? ==>
          s.cp.k < x.loopSize && |s.cp.data| <= x.loopSize && x.outLen[x.cpIdx] == s.cp.k)
    && (s.cp.Added? ==>
          s.cp.k < x.loopSize && |s.cp.data| <= x.loopSize && x.outLen[x.cpIdx] == s.cp.k + |s.cp.data|)
  }

  /** A verdict on the slot of production number `i`, by a call that had seen `seen` finished slots. */
  predicate VerdictFits(s: State, v: Verdict, seen: nat, i: nat) {
    && (v.SawUnfinished? <==> seen <= i)
    && (v.SawBad? ==> i < |s.made| && !IsGood(s, s.made[i]))
    && (v.Took? ==> i < |s.made| && IsGood(s, s.made[i]))
  }

  predicate McuInv(s: State) {
    var oldest := |s.out|;
    match s.mcu
    case TestedDone(seen) => oldest < seen <= |s.made| && s.made[oldest].ok
    case Copying(seen, buf) => oldest < seen <= |s.made| && IsGood(s, s.made[oldest]) && |buf| <= s.slots.loopSize
    case Judged(seen, v) => seen <= |s.made| && VerdictFits(s, v, seen, oldest)
    case Freeing(seen, v) => seen <= |s.made| && oldest < |s.made| && VerdictFits(s, v, seen, oldest)
    case _ => true
  }

  ghost predicate OutInv(s: State) {
    && |s.out| <= |s.made|
    && (forall i | 0 <= i < |s.out| :: VerdictFits(s, s.out[i].v, s.out[i].seen, i))
    && (forall i | 0 <= i < |s.made| :: IsGood(s, s.made[i]) ==> |s.made[i].data| == s.slots.loopSize)
  }

  ghost predicate Inv(s: State) {
    && Shaped(s) && IdxInv(s)
    && SlotAgrees(s, 0) && SlotAgrees(s, 1) && SlotAgrees(s, 2)
    && CpInv(s) && McuInv(s) && OutInv(s)
  }

  lemma BeginIdle(s: State)
    requires Inv(s) && Enabled(s, CpBegin) && s.slots.state[s.slots.cpIdx] == Idle
    ensures Inv(Step(s, CpBegin))
  {
  }

  lemma BeginResumed(s: State)
    requires Inv(s) && Enabled(s, CpBegin) && s.slots.state[s.slots.cpIdx] == Working
    requires s.slots.outLen[s.slots.cpIdx] < s.slots.loopSize
    ensures Inv(Step(s, CpBegin))
  {
  }

  lemma BeginOverfull(s: State)
    requires Inv(s) && Enabled(s, CpBegin) && s.slots.state[s.slots.cpIdx] == Working
    requires s.slots.outLen[s.slots.cpIdx] >= s.slots.loopSize
    ensures Inv(Step(s, CpBegin))
  {
  }

  lemma CpBeginKeepsInv(s: State)
    requires Inv(s) && Enabled(s, CpBegin)
    ensures Inv(Step(s, CpBegin))
  {
    if s.slots.state[s.slots.cpIdx] == Idle {
      BeginIdle(s);
    } else if s.slots.state[s.slots.cpIdx] == Working {
      if s.slots.outLen[s.slots.cpIdx] < s.slots.loopSize {
        BeginResumed(s);
      } else {
        BeginOverfull(s);
      }
    }
  }

  lemma CpZeroLenKeepsInv(s: State)
    requires Inv(s) && Enabled(s, CpZeroLen)
    ensures Inv(Step(s, CpZeroLen))
  {
  }

  lemma CpWriteKeepsInv(s: State, b: byte)
    requires Inv(s) && Enabled(s, CpWrite(b))
    ensures Inv(Step(s, CpWrite(b)))
  {
  }

  lemma CpAddLenKeepsInv(s: State)
    requires Inv(s) && Enabled(s, CpAddLen)
    ensures Inv(Step(s, CpAddLen))
  {
  }

  lemma CpRetryKeepsInv(s: State)
    requires Inv(s) && Enabled(s, CpRetry)
    ensures Inv(Step(s, CpRetry))
  {
  }

  lemma CpSealKeepsInv(s: State)
    requires Inv(s) && Enabled(s, CpSeal)
    ensures Inv(Step(s, CpSeal))
  {
    var t := Step(s, CpSeal);
    assert forall i | 0 <= i < |s.made| :: t.made[i] == s.made[i];
  }

  lemma CpAdvanceKeepsInv(s: State)
    requires Inv(s) && Enabled(s, CpAdvance)
    ensures Inv(Step(s, CpAdvance))
  {
  }

  /** The first look finds the oldest finished slot if there is one, and an unfinished slot if there is none. */
  lemma FirstLook(s: State)
    requires Inv(s) && s.mcu.McuOut?
    ensures Finished(s.slots.state[s.slots.mcuIdx]) <==> |s.out| < |s.made|
    ensures |s.out| < |s.made| ==> s.slots.state[s.slots.mcuIdx] == Verdicts(s.made[|s.out|].ok)
  {
    assert SlotAgrees(s, 0);
  }

  lemma McuTestStateKeepsInv(s: State)
    requires Inv(s) && Enabled(s, McuTestState)
    ensures Inv(Step(s, McuTestState))
  {
    FirstLook(s);
  }

  lemma McuReadKeepsInv(s: State, a: Action)
    requires Inv(s) && Enabled(s, a)
    requires a.McuTestLen? || a.McuCopyByte? || a.McuCopied?
    ensures Inv(Step(s, a))
  {
    assert SlotAgrees(s, 0);
  }

  lemma McuLookAgainKeepsInv(s: State)
    requires Inv(s) && Enabled(s, McuLookAgain)
    ensures Inv(Step(s, McuLookAgain))
  {
    assert SlotAgrees(s, 0);
  }

  lemma McuSetIdleKeepsInv(s: State)
    requires Inv(s) && Enabled(s, McuSetIdle)
    ensures Inv(Step(s, McuSetIdle))
  {
    var t := Step(s, McuSetIdle);
    assert forall i | 0 <= i < |s.out| :: t.out[i] == s.out[i];
  }

  lemma McuAdvanceKeepsInv(s: State)
    requires Inv(s) && Enabled(s, McuAdvance)
    ensures Inv(Step(s, McuAdvance))
  {
  }

  lemma StepKeepsInv(s: State, a: Action)
    requires Inv(s) && Enabled(s, a)
    ensures Inv(Step(s, a))
  {
    match a
    case CpBegin => CpBeginKeepsInv(s);
    case CpZeroLen => CpZeroLenKeepsInv(s);
    case CpWrite(b) => CpWriteKeepsInv(s, b);
    case CpAddLen => CpAddLenKeepsInv(s);
    case CpRetry => CpRetryKeepsInv(s);
    case CpSeal => CpSealKeepsInv(s);
    case CpAdvance => CpAdvanceKeepsInv(s);
    case McuTestState => McuTestStateKeepsInv(s);
    case McuTestLen | McuCopyByte | McuCopied => McuReadKeepsInv(s, a);
    case McuLookAgain => McuLookAgainKeepsInv(s);
    case McuSetIdle => McuSetIdleKeepsInv(s);
    case McuAdvance => McuAdvanceKeepsInv(s);
  }

  ghost predicate Runs(s: State, as': seq<Action>, t: State)
    decreases |as'|
  {
    if as' == [] then s == t
    else Shaped(s) && Enabled(s, as'[0]) && Runs(Step(s, as'[0]), as'[1..], t)
  }

  lemma LoopSizeStays(s: State, a: Action)
    requires Shaped(s) && Enabled(s, a)
    ensures Step(s, a).slots.loopSize == s.slots.loopSize
  {
  }

  lemma {:induction false} RunKeepsInv(s: State, as': seq<Action>, t: State)
    requires Inv(s) && Runs(s, as', t)
    ensures Inv(t) && t.slots.loopSize == s.slots.loopSize
    decreases |as'|
  {
    if as' != [] {
      StepKeepsInv(s, as'[0]);
      LoopSizeStays(s, as'[0]);
      RunKeepsInv(Step(s, as'[0]), as'[1..], t);
    }
  }

  predicate Startable(first: nat, loopSize: nat, mem: seq<byte>) {
    (first == 1 || first == 2) && 0 < loopSize && 4 * loopSize <= |mem|
  }

  /** mcu_decode_a2dp_init: playback starts `first` slots in (1 for LHDC, 2 otherwise); the rest count as finished. */
  function Initial(first: nat, loopSize: nat, mem: seq<byte>): State
    requires Startable(first, loopSize, mem)
  {
    var p1 := Product(true, loopSize, mem[loopSize..2 * loopSize]);
    var p2 := Product(true, loopSize, mem[2 * loopSize..3 * loopSize]);
    State(Slots(if first == 1 then [Idle, Done, Done] else [Idle, Idle, Done],
                if first == 1 then [0, loopSize, loopSize] else [0, 0, loopSize], mem, 0, first, loopSize),
          CpOut, McuOut, if first == 1 then [p1, p2] else [p2], [], first, map[])
  }

  /** Slot `k` lies in the run of `n` slots that starts at `from` and goes round. */
  predicate InRun(k: nat, from: nat, n: nat)
    requires k < SLOT_CNT && from < SLOT_CNT
  {
    (if k >= from then k - from else k + SLOT_CNT - from) < n
  }

  lemma SlotInRun(t: State, k: nat)
    requires Inv(t) && !t.cp.Sealed? && !t.mcu.Freed? && k < SLOT_CNT
    ensures Finished(t.slots.state[k]) <==> InRun(k, t.slots.mcuIdx, Waiting(t))
    ensures t.slots.state[k] == Working ==> k == t.slots.cpIdx
  {
    var j := if k >= t.head then k - t.head else k + SLOT_CNT - t.head;
    assert SlotAt(t.head, j) == k && SlotAgrees(t, j);
  }

  /**
   * Between updates the finished slots are the cyclic run from mcu_dec_idx up to cp_dec_idx, only cp_dec_idx can be
   * Working and the others are Idle.
   */
  lemma FinishedSlotsFormRun(first: nat, loopSize: nat, mem: seq<byte>, as': seq<Action>, t: State)
    requires Startable(first, loopSize, mem) && Runs(Initial(first, loopSize, mem), as', t)
    requires !t.cp.Sealed? && !t.mcu.Freed?
    ensures Inv(t) && t.slots.cpIdx == SlotAt(t.slots.mcuIdx, Waiting(t))
    ensures forall k | 0 <= k < SLOT_CNT :: Finished(t.slots.state[k]) <==> InRun(k, t.slots.mcuIdx, Waiting(t))
    ensures forall k | 0 <= k < SLOT_CNT && t.slots.state[k] == Working :: k == t.slots.cpIdx
  {
    RunKeepsInv(Initial(first, loopSize, mem), as', t);
    forall k | 0 <= k < SLOT_CNT
      ensures Finished(t.slots.state[k]) <==> InRun(k, t.slots.mcuIdx, Waiting(t))
      ensures t.slots.state[k] == Working ==> k == t.slots.cpIdx
    {
      SlotInRun(t, k);
    }
  }

  /** The index of a slot the MCU holds is not the coprocessor's, whose writes nevertheless may reach it. */
  lemma HeldSlotIsNotCps(first: nat, loopSize: nat, mem: seq<byte>, as': seq<Action>, t: State)
    requires Startable(first, loopSize, mem) && Runs(Initial(first, loopSize, mem), as', t)
    ensures Inv(t)
    ensures t.mcu.TestedDone? || t.mcu.Copying? || t.mcu.Freeing? ==>
              Finished(t.slots.state[t.slots.mcuIdx]) &&
              (t.cp.Begun? || t.cp.Decoding? || t.cp.Added? ==> t.slots.cpIdx != t.slots.mcuIdx)
  {
    RunKeepsInv(Initial(first, loopSize, mem), as', t);
    assert SlotAgrees(t, 0);
  }

  /**
   * Finished slots are released once each, in production order. A good slot is played exactly when it was finished
   * before the first look of the call that released it; one that was finished later is dropped.
   */
  lemma EachSlotOnceInOrder(first: nat, loopSize: nat, mem: seq<byte>, as': seq<Action>, t: State, i: nat)
    requires Startable(first, loopSize, mem) && Runs(Initial(first, loopSize, mem), as', t) && i < |t.out|
    ensures |t.out| <= |t.made| <= |t.out| + SLOT_CNT
    ensures t.out[i].v.Took? <==> IsGood(t, t.made[i]) && i < t.out[i].seen
    ensures t.out[i].v.SawUnfinished? <==> t.out[i].seen <= i
  {
    RunKeepsInv(Initial(first, loopSize, mem), as', t);
    assert VerdictFits(t, t.out[i].v, t.out[i].seen, i);
  }

  /** The MCU is between the first and the second look of a call. */
  predicate Looking(s: State) {
    s.mcu.TestedDone? || s.mcu.Copying? || s.mcu.Judged?
  }

  /** No slot is finished between the two looks of a call. */
  ghost predicate QuietLooks(s: State, as': seq<Action>, t: State)
    decreases |as'|
  {
    if as' == [] then s == t
    else && Shaped(s) && Enabled(s, as'[0]) && (as'[0].CpSeal? ==> !Looking(s))
         && QuietLooks(Step(s, as'[0]), as'[1..], t)
  }

  /** What a call saw is all there is, and every released slot was seen. */
  predicate SeenInv(s: State) {
    && (Looking(s) ==> s.mcu.seen == |s.made|)
    && (s.mcu.Freeing? ==> |s.out| < s.mcu.seen)
    && (forall i | 0 <= i < |s.out| :: i < s.out[i].seen)
  }

  lemma StepKeepsSeen(s: State, a: Action)
    requires Inv(s) && SeenInv(s) && Enabled(s, a) && (a.CpSeal? ==> !Looking(s))
    ensures SeenInv(Step(s, a))
  {
    var t := Step(s, a);
    if a.McuLookAgain? {
      assert SlotAgrees(s, 0);
    }
    forall i | 0 <= i < |t.out|
      ensures i < t.out[i].seen
    {
      assert i < |s.out| ==> t.out[i] == s.out[i];
    }
  }

  lemma {:induction false} QuietRunKeepsSeen(s: State, as': seq<Action>, t: State)
    requires Inv(s) && SeenInv(s) && QuietLooks(s, as', t)
    ensures SeenInv(t) && Runs(s, as', t)
    decreases |as'|
  {
    if as' != [] {
      StepKeepsInv(s, as'[0]);
      StepKeepsSeen(s, as'[0]);
      QuietRunKeepsSeen(Step(s, as'[0]), as'[1..], t);
    }
  }

  /** Then every good slot that is released has been played. */
  lemma QuietLooksPlayEveryGoodSlot(first: nat, loopSize: nat, mem: seq<byte>, as': seq<Action>, t: State, i: nat)
    requires Startable(first, loopSize, mem) && QuietLooks(Initial(first, loopSize, mem), as', t) && i < |t.out|
    ensures i < |t.made| && (t.out[i].v.Took? <==> IsGood(t, t.made[i]))
  {
    QuietRunKeepsSeen(Initial(first, loopSize, mem), as', t);
    EachSlotOnceInOrder(first, loopSize, mem, as', t, i);
  }

  /** A slot is good exactly when one turn filled it from its first byte: one resumed with bytes in it is lost. */
  lemma SealedIsGoodIff(first: nat, loopSize: nat, mem: seq<byte>, as': seq<Action>, t: State)
    requires Startable(first, loopSize, mem) && Runs(Initial(first, loopSize, mem), as', t) && t.cp.Added?
    ensures Shaped(t) && Enabled(t, CpSeal)
    ensures var u := Step(t, CpSeal);
      IsGood(u, u.made[|t.made|]) <==> t.cp.k == 0 && |t.cp.data| == loopSize
  {
    RunKeepsInv(Initial(first, loopSize, mem), as', t);
  }

  lemma {:induction false} Extend(s: State, as': seq<Action>, t: State, a: Action) returns (bs: seq<Action>, u: State)
    requires Runs(s, as', t) && Shaped(t) && Enabled(t, a)
    ensures bs == as' + [a] && u == Step(t, a) && Runs(s, bs, u)
    decreases |as'|
  {
    bs, u := as' + [a], Step(t, a);
    if as' == [] {
      assert Runs(u, bs[1..], u);
    } else {
      var cs, v := Extend(Step(s, as'[0]), as'[1..], t, a);
      assert bs[1..] == cs;
    }
  }

  // ---- A run that drops a good slot, with slots of one byte ----

  function Example(): State {
    Initial(2, 1, [7, 8, 9, 0])
  }

  const AFTER_PLAY := State(
    Slots([Idle, Idle, Idle], [0, 0, 1], [7, 8, 9, 0], 0, 0, 1), CpOut, McuOut,
    [Product(true, 1, [9])], [Released(Took([9]), 1, map[])], 0, map[])

  /** The MCU copies the slot that counts as finished at the start. */
  lemma CopyFirstSlot() returns (as': seq<Action>, t: State)
    ensures Runs(Example(), as', t) && t == Example().(mcu := Judged(1, Took([9])))
  {
    as', t := Extend(Example(), [], Example(), McuTestState);
    as', t := Extend(Example(), as', t, McuTestLen);
    as', t := Extend(Example(), as', t, McuCopyByte);
    assert t.mcu.buf == [9];
    as', t := Extend(Example(), as', t, McuCopied);
  }

  lemma PlayFirstSlot() returns (as': seq<Action>, t: State)
    ensures Runs(Example(), as', t) && t == AFTER_PLAY
  {
    as', t := CopyFirstSlot();
    as', t := Extend(Example(), as', t, McuLookAgain);
    as', t := Extend(Example(), as', t, McuSetIdle);
    assert t.slots.state == [Idle, Idle, Idle] && t.made[0].data == [9];
    assert t.made == AFTER_PLAY.made && t.out == AFTER_PLAY.out;
    as', t := Extend(Example(), as', t, McuAdvance);
  }

  /** The coprocessor fills the next slot up to its sealing. */
  lemma FillNextSlot() returns (as': seq<Action>, t: State)
    ensures Runs(Example(), as', t)
    ensures t == AFTER_PLAY.(
      slots := Slots([Working, Idle, Idle], [1, 0, 1], [5, 8, 9, 0], 0, 0, 1), cp := Added(0, [5]))
  {
    as', t := PlayFirstSlot();
    as', t := Extend(Example(), as', t, CpBegin);
    as', t := Extend(Example(), as', t, CpZeroLen);
    assert t.slots.state == [Working, Idle, Idle] && t.slots.outLen == [0, 0, 1];
    assert t == AFTER_PLAY.(
      slots := Slots([Working, Idle, Idle], [0, 0, 1], [7, 8, 9, 0], 0, 0, 1), cp := Decoding(0, []));
    as', t := Extend(Example(), as', t, CpWrite(5));
    assert t.slots.mem == [5, 8, 9, 0] && t.cp.data == [5];
    as', t := Extend(Example(), as', t, CpAddLen);
    assert t.slots.outLen == [1, 0, 1];
  }

  /** The exception is real: a good slot that finishes between the MCU's two looks is released without being played. */
  lemma GoodSlotCanBeDropped() returns (as': seq<Action>, t: State)
    ensures Runs(Example(), as', t)
    ensures |t.out| == |t.made| == 2 && IsGood(t, t.made[1]) && t.out[1].v == SawUnfinished
  {
    as', t := FillNextSlot();
    as', t := Extend(Example(), as', t, McuTestState);
    as', t := Extend(Example(), as', t, CpSeal);
    assert t.mcu == Judged(1, SawUnfinished) && t.made == AFTER_PLAY.made + [Product(true, 1, [5])];
    as', t := Extend(Example(), as', t, McuLookAgain);
    as', t := Extend(Example(), as', t, McuSetIdle);
  }
}

/**
 * The bytes in the output cache that all three slots share. A resumed turn starts behind the bytes its slot holds and is
 * still given room for a whole loop, so it can run into the next slot while that one waits to be played.
 */
module CpSlotMemory {
  import opened Bytes
  import opened CpSlots

  /** What stands at byte `p` of a finished slot: what its turn wrote, unless the coprocessor has written over it. */
  function Expected(data: seq<byte>, spilled: map<nat, byte>, p: nat): byte
    requires p < |data|
  {
    if p in spilled then spilled[p] else data[p]
  }

  /** Samples copied from a slot up to some byte. */
  ghost predicate CopiedFrom(buf: seq<byte>, data: seq<byte>, spilled: map<nat, byte>) {
    |buf| <= |data| && forall p | 0 <= p < |buf| :: buf[p] == Expected(data, spilled, p)
  }

  function Byte(s: State, idx: nat, p: nat): byte
    requires Shaped(s) && idx < SLOT_CNT && p < 2 * s.slots.loopSize
  {
    s.slots.mem[Base(s.slots.loopSize, idx) + p]
  }

  /** The oldest finished slot holds what is expected wherever it is still to be copied. */
  ghost predicate OldestHolds(s: State)
    requires Shaped(s) && s.head < SLOT_CNT
  {
    |s.out| < |s.made| && IsGood(s, s.made[|s.out|]) && |s.made[|s.out|].data| == s.slots.loopSize ==>
      forall p | 0 <= p < s.slots.loopSize && Uncopied(s, p) ::
        Byte(s, s.head, p) == Expected(s.made[|s.out|].data, s.spilled, p)
  }

  /** A later finished slot, `j` places on, holds what its turn wrote. */
  ghost predicate LaterHolds(s: State, j: nat)
    requires Shaped(s) && s.head < SLOT_CNT && 0 < j < SLOT_CNT
  {
    j < Waiting(s) && IsGood(s, s.made[|s.out| + j]) && |s.made[|s.out| + j].data| == s.slots.loopSize ==>
      forall p | 0 <= p < s.slots.loopSize ::
        Byte(s, SlotAt(s.head, j), p) == s.made[|s.out| + j].data[p]
  }

  /** The present turn's bytes are in their places. */
  ghost predicate TurnHolds(s: State)
    requires Shaped(s)
  {
    (s.cp.Decoding? || s.cp.Added?) && s.cp.k + |s.cp.data| <= 2 * s.slots.loopSize ==>
      forall p | 0 <= p < |s.cp.data| :: Byte(s, s.slots.cpIdx, s.cp.k + p) == s.cp.data[p]
  }

  ghost predicate CopyHolds(s: State) {
    match s.mcu
    case Copying(_, buf) => |s.out| < |s.made| && CopiedFrom(buf, s.made[|s.out|].data, s.spilled)
    case Judged(_, v) => v.Took? ==> |s.out| < |s.made| && PlayedFrom(s, v.pcm, s.made[|s.out|], s.spilled)
    case Freeing(_, v) => v.Took? ==> |s.out| < |s.made| && PlayedFrom(s, v.pcm, s.made[|s.out|], s.spilled)
    case _ => true
  }

  ghost predicate PlayedFrom(s: State, pcm: seq<byte>, p: Product, spilled: map<nat, byte>) {
    |pcm| == |p.data| == s.slots.loopSize && CopiedFrom(pcm, p.data, spilled)
  }

  ghost predicate OutHolds(s: State) {
    forall i | 0 <= i < |s.out| && s.out[i].v.Took? ::
      i < |s.made| && PlayedFrom(s, s.out[i].v.pcm, s.made[i], s.out[i].spilled)
  }

  ghost predicate MemInv(s: State) {
    && Inv(s)
    && OldestHolds(s) && LaterHolds(s, 1) && LaterHolds(s, 2) && TurnHolds(s) && CopyHolds(s) && OutHolds(s)
    && (s.spilled != map[] ==> Waiting(s) >= 2)
  }

  // ---- The coprocessor's writes ----

  /** A write changes its own slot, or the byte of the next slot in the cache that it runs into, and nothing else. */
  lemma WriteChanges(s: State, b: byte, idx: nat, p: nat)
    requires Inv(s) && Enabled(s, CpWrite(b)) && idx < SLOT_CNT && p < 2 * s.slots.loopSize
    ensures var a := s.cp.k + |s.cp.data|;
      Byte(Step(s, CpWrite(b)), idx, p) ==
      if Base(s.slots.loopSize, idx) + p == Base(s.slots.loopSize, s.slots.cpIdx) + a then b else Byte(s, idx, p)
  {
  }

  lemma WriteKeepsOldest(s: State, b: byte)
    requires MemInv(s) && Enabled(s, CpWrite(b))
    ensures OldestHolds(Step(s, CpWrite(b)))
  {
    var t := Step(s, CpWrite(b));
    if |s.out| < |s.made| && IsGood(s, s.made[|s.out|]) && |s.made[|s.out|].data| == s.slots.loopSize {
      forall p | 0 <= p < s.slots.loopSize && Uncopied(t, p)
        ensures Byte(t, t.head, p) == Expected(t.made[|t.out|].data, t.spilled, p)
      {
        WriteChanges(s, b, s.head, p);
        assert Uncopied(s, p);
      }
    }
  }

  lemma WriteKeepsLater(s: State, b: byte, j: nat)
    requires MemInv(s) && Enabled(s, CpWrite(b)) && 0 < j < SLOT_CNT && LaterHolds(s, j)
    ensures LaterHolds(Step(s, CpWrite(b)), j)
  {
    var t := Step(s, CpWrite(b));
    if j < Waiting(s) && IsGood(s, s.made[|s.out| + j]) && |s.made[|s.out| + j].data| == s.slots.loopSize {
      forall p | 0 <= p < s.slots.loopSize
        ensures Byte(t, SlotAt(t.head, j), p) == t.made[|t.out| + j].data[p]
      {
        WriteChanges(s, b, SlotAt(s.head, j), p);
      }
    }
  }

  lemma WriteKeepsTurn(s: State, b: byte)
    requires MemInv(s) && Enabled(s, CpWrite(b))
    ensures TurnHolds(Step(s, CpWrite(b)))
  {
    var t := Step(s, CpWrite(b));
    if t.cp.k + |t.cp.data| <= 2 * t.slots.loopSize {
      forall p | 0 <= p < |t.cp.data|
        ensures Byte(t, t.slots.cpIdx, t.cp.k + p) == t.cp.data[p]
      {
        WriteChanges(s, b, s.slots.cpIdx, s.cp.k + p);
      }
    }
  }

  lemma WriteKeepsCopy(s: State, b: byte)
    requires MemInv(s) && Enabled(s, CpWrite(b))
    ensures CopyHolds(Step(s, CpWrite(b)))
  {
  }

  lemma WriteKeepsMem(s: State, b: byte)
    requires MemInv(s) && Enabled(s, CpWrite(b))
    ensures MemInv(Step(s, CpWrite(b)))
  {
    CpWriteKeepsInv(s, b);
    WriteKeepsOldest(s, b);
    WriteKeepsLater(s, b, 1);
    WriteKeepsLater(s, b, 2);
    WriteKeepsTurn(s, b);
    WriteKeepsCopy(s, b);
  }

  // ---- The other steps ----

  /** Cache, logs and the slot to release next are as before. */
  predicate SameSlots(s: State, t: State) {
    && t.slots.mem == s.slots.mem && t.slots.loopSize == s.slots.loopSize && t.head == s.head
    && t.made == s.made && t.out == s.out && t.spilled == s.spilled
  }

  lemma LaterFramed(s: State, t: State, j: nat)
    requires Inv(s) && Inv(t) && SameSlots(s, t) && 0 < j < SLOT_CNT && LaterHolds(s, j)
    ensures LaterHolds(t, j)
  {
    if j < Waiting(s) && IsGood(s, s.made[|s.out| + j]) && |s.made[|s.out| + j].data| == s.slots.loopSize {
      forall p | 0 <= p < s.slots.loopSize
        ensures Byte(t, SlotAt(t.head, j), p) == t.made[|t.out| + j].data[p]
      {
        assert Byte(t, SlotAt(t.head, j), p) == Byte(s, SlotAt(s.head, j), p);
      }
    }
  }

  lemma OldestFramed(s: State, t: State)
    requires Inv(s) && Inv(t) && SameSlots(s, t) && OldestHolds(s)
    requires forall p: nat | Uncopied(t, p) :: Uncopied(s, p)
    ensures OldestHolds(t)
  {
    if |s.out| < |s.made| && IsGood(s, s.made[|s.out|]) && |s.made[|s.out|].data| == s.slots.loopSize {
      forall p | 0 <= p < s.slots.loopSize && Uncopied(t, p)
        ensures Byte(t, t.head, p) == Expected(t.made[|t.out|].data, t.spilled, p)
      {
        assert Uncopied(s, p) && Byte(t, t.head, p) == Byte(s, s.head, p);
      }
    }
  }

  /** A step of the coprocessor outside the cache and the log. */
  predicate CpAside(a: Action) {
    a.CpBegin? || a.CpZeroLen? || a.CpAddLen? || a.CpRetry? || a.CpAdvance?
  }

  lemma TurnFramed(s: State, t: State)
    requires Shaped(s) && Shaped(t) && SameSlots(s, t) && t.slots.cpIdx == s.slots.cpIdx && TurnHolds(s)
    requires t.cp.Decoding? || t.cp.Added? ==>
               t.cp.data == [] || ((s.cp.Decoding? || s.cp.Added?) && t.cp.k == s.cp.k && t.cp.data == s.cp.data)
    ensures TurnHolds(t)
  {
    if (t.cp.Decoding? || t.cp.Added?) && t.cp.k + |t.cp.data| <= 2 * t.slots.loopSize {
      forall p | 0 <= p < |t.cp.data|
        ensures Byte(t, t.slots.cpIdx, t.cp.k + p) == t.cp.data[p]
      {
        assert Byte(s, s.slots.cpIdx, s.cp.k + p) == s.cp.data[p];
      }
    }
  }

  lemma NoTurnAfter(s: State, a: Action)
    requires Shaped(s) && Enabled(s, a) && CpAside(a) && !a.CpAddLen?
    ensures var t := Step(s, a);
      Shaped(t) && SameSlots(s, t) && t.mcu == s.mcu && !t.cp.Added? && (t.cp.Decoding? ==> t.cp.data == [])
  {
  }

  lemma CpAsideKeepsTurn(s: State, a: Action)
    requires MemInv(s) && Enabled(s, a) && CpAside(a)
    ensures Shaped(Step(s, a)) && TurnHolds(Step(s, a)) && SameSlots(s, Step(s, a)) && Step(s, a).mcu == s.mcu
  {
    if a.CpAddLen? {
      TurnFramed(s, Step(s, a));
    } else {
      NoTurnAfter(s, a);
    }
  }

  lemma CpAsideKeepsMem(s: State, a: Action)
    requires MemInv(s) && Enabled(s, a) && CpAside(a)
    ensures MemInv(Step(s, a))
  {
    StepKeepsInv(s, a);
    CpAsideKeepsTurn(s, a);
    LaterFramed(s, Step(s, a), 1);
    LaterFramed(s, Step(s, a), 2);
    OldestFramed(s, Step(s, a));
  }

  /** A good slot is sealed with the bytes of its turn in place. */
  lemma SealedHolds(s: State, p: nat)
    requires MemInv(s) && Enabled(s, CpSeal) && p < s.slots.loopSize
    requires IsGood(s, Step(s, CpSeal).made[|s.made|])
    ensures s.cp.k == 0 && |s.cp.data| == s.slots.loopSize
    ensures Byte(Step(s, CpSeal), SlotAt(s.head, Waiting(s)), p) == s.cp.data[p]
  {
    assert Byte(s, s.slots.cpIdx, s.cp.k + p) == s.cp.data[p];
  }

  lemma SealKeepsOldest(s: State)
    requires MemInv(s) && Enabled(s, CpSeal)
    ensures OldestHolds(Step(s, CpSeal))
  {
    var t := Step(s, CpSeal);
    if IsGood(t, t.made[|t.out|]) && |t.made[|t.out|].data| == t.slots.loopSize {
      forall p | 0 <= p < t.slots.loopSize && Uncopied(t, p)
        ensures Byte(t, t.head, p) == Expected(t.made[|t.out|].data, t.spilled, p)
      {
        if Waiting(s) == 0 {
          SealedHolds(s, p);
        } else {
          assert Uncopied(s, p) && Byte(t, t.head, p) == Byte(s, s.head, p);
        }
      }
    }
  }

  lemma SealKeepsLater(s: State, j: nat)
    requires MemInv(s) && Enabled(s, CpSeal) && 0 < j < SLOT_CNT && LaterHolds(s, j)
    ensures LaterHolds(Step(s, CpSeal), j)
  {
    var t := Step(s, CpSeal);
    if j < Waiting(t) && IsGood(t, t.made[|t.out| + j]) && |t.made[|t.out| + j].data| == t.slots.loopSize {
      forall p | 0 <= p < t.slots.loopSize
        ensures Byte(t, SlotAt(t.head, j), p) == t.made[|t.out| + j].data[p]
      {
        if j == Waiting(s) {
          SealedHolds(s, p);
        } else {
          assert Byte(t, SlotAt(t.head, j), p) == Byte(s, SlotAt(s.head, j), p);
        }
      }
    }
  }

  lemma SealKeepsMem(s: State)
    requires MemInv(s) && Enabled(s, CpSeal)
    ensures MemInv(Step(s, CpSeal))
  {
    CpSealKeepsInv(s);
    SealKeepsOldest(s);
    SealKeepsLater(s, 1);
    SealKeepsLater(s, 2);
    var t := Step(s, CpSeal);
    assert forall i | 0 <= i < |s.made| :: t.made[i] == s.made[i];
  }

  lemma CopyByteKeepsCopy(s: State)
    requires MemInv(s) && Enabled(s, McuCopyByte)
    ensures CopyHolds(Step(s, McuCopyByte))
  {
    var t := Step(s, McuCopyByte);
    var n := |s.mcu.buf|;
    assert Uncopied(s, n) && t.mcu.buf[n] == Byte(s, s.head, n);
    assert forall p | 0 <= p < n :: t.mcu.buf[p] == s.mcu.buf[p];
  }

  lemma CopyByteKeepsMem(s: State)
    requires MemInv(s) && Enabled(s, McuCopyByte)
    ensures MemInv(Step(s, McuCopyByte))
  {
    McuReadKeepsInv(s, McuCopyByte);
    CopyByteKeepsCopy(s);
    McuFramed(s, Step(s, McuCopyByte));
  }

  /** What the MCU's reading leaves alone. */
  lemma McuFramed(s: State, t: State)
    requires MemInv(s) && Inv(t) && SameSlots(s, t) && t.cp == s.cp && t.slots.cpIdx == s.slots.cpIdx
    requires CopyHolds(t) && forall p: nat | Uncopied(t, p) :: Uncopied(s, p)
    ensures MemInv(t)
  {
    LaterFramed(s, t, 1);
    LaterFramed(s, t, 2);
    OldestFramed(s, t);
    TurnFramed(s, t);
  }

  /** A step of the MCU outside the cache and the log. */
  predicate McuAside(a: Action) {
    a.McuTestState? || a.McuTestLen? || a.McuCopied? || a.McuLookAgain? || a.McuAdvance?
  }

  /** A call that found the slot finished still finds it so; only one without samples can go round without releasing. */
  lemma LookAgainKeepsOldest(s: State)
    requires MemInv(s) && Enabled(s, McuLookAgain)
    ensures Step(s, McuLookAgain).mcu.McuOut? ==> !s.mcu.v.Took?
  {
    assert SlotAgrees(s, 0);
  }

  lemma McuAsideKeepsMem(s: State, a: Action)
    requires MemInv(s) && Enabled(s, a) && McuAside(a)
    ensures MemInv(Step(s, a))
  {
    StepKeepsInv(s, a);
    if a.McuLookAgain? {
      LookAgainKeepsOldest(s);
    }
    McuFramed(s, Step(s, a));
  }

  lemma SetIdleKeepsOldest(s: State)
    requires MemInv(s) && Enabled(s, McuSetIdle)
    ensures OldestHolds(Step(s, McuSetIdle))
  {
    var t := Step(s, McuSetIdle);
    if |t.out| < |t.made| && IsGood(t, t.made[|t.out|]) && |t.made[|t.out|].data| == t.slots.loopSize {
      forall p | 0 <= p < t.slots.loopSize && Uncopied(t, p)
        ensures Byte(t, t.head, p) == Expected(t.made[|t.out|].data, t.spilled, p)
      {
        assert Byte(s, SlotAt(s.head, 1), p) == s.made[|s.out| + 1].data[p];
      }
    }
  }

  lemma SetIdleKeepsLater(s: State)
    requires MemInv(s) && Enabled(s, McuSetIdle)
    ensures LaterHolds(Step(s, McuSetIdle), 1) && LaterHolds(Step(s, McuSetIdle), 2)
  {
    var t := Step(s, McuSetIdle);
    if 1 < Waiting(t) && IsGood(t, t.made[|t.out| + 1]) && |t.made[|t.out| + 1].data| == t.slots.loopSize {
      forall p | 0 <= p < t.slots.loopSize
        ensures Byte(t, SlotAt(t.head, 1), p) == t.made[|t.out| + 1].data[p]
      {
        assert Byte(s, SlotAt(s.head, 2), p) == s.made[|s.out| + 2].data[p];
      }
    }
  }

  lemma SetIdleKeepsOut(s: State)
    requires MemInv(s) && Enabled(s, McuSetIdle)
    ensures OutHolds(Step(s, McuSetIdle))
  {
    var t := Step(s, McuSetIdle);
    assert forall i | 0 <= i < |s.out| :: t.out[i] == s.out[i];
  }

  lemma SetIdleKeepsMem(s: State)
    requires MemInv(s) && Enabled(s, McuSetIdle)
    ensures MemInv(Step(s, McuSetIdle))
  {
    McuSetIdleKeepsInv(s);
    SetIdleKeepsOldest(s);
    SetIdleKeepsLater(s);
    SetIdleKeepsOut(s);
    var t := Step(s, McuSetIdle);
    assert t.slots.mem == s.slots.mem && t.cp == s.cp;
    assert forall p | 0 <= p < 2 * s.slots.loopSize :: Byte(t, t.slots.cpIdx, p) == Byte(s, s.slots.cpIdx, p);
  }

  lemma StepKeepsMem(s: State, a: Action)
    requires MemInv(s) && Enabled(s, a)
    ensures MemInv(Step(s, a))
  {
    match a
    case CpWrite(b) => WriteKeepsMem(s, b);
    case CpSeal => SealKeepsMem(s);
    case McuCopyByte => CopyByteKeepsMem(s);
    case McuSetIdle => SetIdleKeepsMem(s);
    case McuTestState | McuTestLen | McuCopied | McuLookAgain | McuAdvance => McuAsideKeepsMem(s, a);
    case _ => CpAsideKeepsMem(s, a);
  }

  lemma {:induction false} RunKeepsMem(s: State, as': seq<Action>, t: State)
    requires MemInv(s) && Runs(s, as', t)
    ensures MemInv(t) && t.slots.loopSize == s.slots.loopSize
    decreases |as'|
  {
    if as' != [] {
      StepKeepsMem(s, as'[0]);
      LoopSizeStays(s, as'[0]);
      RunKeepsMem(Step(s, as'[0]), as'[1..], t);
    }
  }

  lemma InitialHolds(first: nat, loopSize: nat, mem: seq<byte>)
    requires Startable(first, loopSize, mem)
    ensures MemInv(Initial(first, loopSize, mem))
  {
  }

  /**
   * The samples of a played slot are the bytes of the turn that finished it, byte by byte, except where the coprocessor
   * wrote over a byte before it was copied; so they are that turn's if and only if every such byte is the same again.
   */
  lemma PlayedIff(first: nat, loopSize: nat, mem: seq<byte>, as': seq<Action>, t: State, i: nat)
    requires Startable(first, loopSize, mem) && Runs(Initial(first, loopSize, mem), as', t)
    requires i < |t.out| && t.out[i].v.Took?
    ensures i < |t.made| && |t.out[i].v.pcm| == |t.made[i].data| == loopSize
    ensures forall p | 0 <= p < loopSize :: t.out[i].v.pcm[p] == Expected(t.made[i].data, t.out[i].spilled, p)
    ensures t.out[i].v.pcm == t.made[i].data <==>
            forall p | 0 <= p < loopSize && p in t.out[i].spilled :: t.out[i].spilled[p] == t.made[i].data[p]
  {
    InitialHolds(first, loopSize, mem);
    RunKeepsMem(Initial(first, loopSize, mem), as', t);
    var pcm, data, spilled := t.out[i].v.pcm, t.made[i].data, t.out[i].spilled;
    if forall p | 0 <= p < loopSize && p in spilled :: spilled[p] == data[p] {
      forall p | 0 <= p < loopSize
        ensures pcm[p] == data[p]
      {
        assert pcm[p] == Expected(data, spilled, p);
      }
    }
    if pcm == data {
      forall p | 0 <= p < loopSize && p in spilled
        ensures spilled[p] == data[p]
      {
        assert pcm[p] == Expected(data, spilled, p);
      }
    }
  }

  // ---- When nothing is written over ----

  /** No write runs into a slot that waits to be played. */
  ghost predicate Contained(s: State, as': seq<Action>, t: State)
    decreases |as'|
  {
    if as' == [] then s == t
    else && Shaped(s) && Enabled(s, as'[0]) && (as'[0].CpWrite? ==> !HitsOldest(s))
         && Contained(Step(s, as'[0]), as'[1..], t)
  }

  predicate NoneSpilled(s: State) {
    s.spilled == map[] && forall i | 0 <= i < |s.out| :: s.out[i].spilled == map[]
  }

  lemma StepKeepsNone(s: State, a: Action)
    requires Shaped(s) && Enabled(s, a) && NoneSpilled(s) && (a.CpWrite? ==> !HitsOldest(s))
    ensures NoneSpilled(Step(s, a))
  {
    var t := Step(s, a);
    forall i | 0 <= i < |t.out|
      ensures t.out[i].spilled == map[]
    {
      assert i < |s.out| ==> t.out[i] == s.out[i];
    }
  }

  lemma {:induction false} ContainedKeepsNone(s: State, as': seq<Action>, t: State)
    requires NoneSpilled(s) && Contained(s, as', t)
    ensures NoneSpilled(t) && Runs(s, as', t)
    decreases |as'|
  {
    if as' != [] {
      StepKeepsNone(s, as'[0]);
      ContainedKeepsNone(Step(s, as'[0]), as'[1..], t);
    }
  }

  /** Then every played slot has exactly the bytes of the turn that finished it. */
  lemma ContainedRunsPlayWhatWasMade(first: nat, loopSize: nat, mem: seq<byte>, as': seq<Action>, t: State, i: nat)
    requires Startable(first, loopSize, mem) && Contained(Initial(first, loopSize, mem), as', t)
    requires i < |t.out| && t.out[i].v.Took?
    ensures i < |t.made| && t.out[i].v.pcm == t.made[i].data
  {
    ContainedKeepsNone(Initial(first, loopSize, mem), as', t);
    PlayedIff(first, loopSize, mem, as', t, i);
  }

  /**
   * A write leaves its slot only in a turn that was resumed behind bytes the slot held. It then runs into the oldest
   * finished slot exactly when two are waiting and the slot is not the last of the cache, and out of the cache exactly
   * when it is the last.
   */
  lemma OnlyResumedTurnsRunOver(
      first: nat, loopSize: nat, mem: seq<byte>, as': seq<Action>, t: State, b: byte)
    requires Startable(first, loopSize, mem) && Runs(Initial(first, loopSize, mem), as', t)
    requires t.cp.Decoding? && |t.cp.data| < loopSize
    ensures Shaped(t) && Enabled(t, CpWrite(b))
    ensures var over := t.cp.k + |t.cp.data| >= loopSize;
      && (over ==> t.cp.k > 0)
      && (HitsOldest(t) <==> over && t.slots.cpIdx < 2 && Waiting(t) == 2)
      && (WritePos(t) >= 3 * loopSize <==> over && t.slots.cpIdx == 2)
  {
    RunKeepsInv(Initial(first, loopSize, mem), as', t);
  }

  // ---- A run that plays other samples than were made, with slots of two bytes ----

  function Example(): State {
    Initial(1, 2, [10, 11, 12, 13, 14, 15, 0, 0])
  }

  /** A turn leaves one byte in slot 0 and runs out of input. */
  lemma PartialTurn() returns (as': seq<Action>, t: State)
    ensures Runs(Example(), as', t)
    ensures t == Example().(
      slots := Slots([Working, Done, Done], [1, 2, 2], [1, 11, 12, 13, 14, 15, 0, 0], 0, 1, 2), cp := CpOut)
  {
    as', t := Extend(Example(), [], Example(), CpBegin);
    as', t := Extend(Example(), as', t, CpZeroLen);
    as', t := Extend(Example(), as', t, CpWrite(1));
    assert t.slots.mem == [1, 11, 12, 13, 14, 15, 0, 0] && t.cp.data == [1];
    as', t := Extend(Example(), as', t, CpAddLen);
    as', t := Extend(Example(), as', t, CpRetry);
  }

  /** It is resumed there and given room for two more, the second of them in slot 1. */
  lemma ResumedTurn() returns (as': seq<Action>, t: State)
    ensures Runs(Example(), as', t)
    ensures t == Example().(
      slots := Slots([Working, Done, Done], [1, 2, 2], [1, 2, 3, 13, 14, 15, 0, 0], 0, 1, 2),
      cp := Decoding(1, [2, 3]), spilled := map[0 := 3])
  {
    as', t := PartialTurn();
    as', t := Extend(Example(), as', t, CpBegin);
    as', t := Extend(Example(), as', t, CpWrite(2));
    assert t.slots.mem == [1, 2, 12, 13, 14, 15, 0, 0] && t.cp.data == [2];
    as', t := Extend(Example(), as', t, CpWrite(3));
    assert t.slots.mem == [1, 2, 3, 13, 14, 15, 0, 0] && t.cp.data == [2, 3];
  }

  lemma CopyAfterwards() returns (as': seq<Action>, t: State)
    ensures Runs(Example(), as', t)
    ensures t.mcu == Copying(2, [3, 13]) && t.spilled == map[0 := 3] && t.out == []
    ensures t.slots == Slots([Working, Done, Done], [1, 2, 2], [1, 2, 3, 13, 14, 15, 0, 0], 0, 1, 2)
    ensures t.made == Example().made
  {
    as', t := ResumedTurn();
    as', t := Extend(Example(), as', t, McuTestState);
    as', t := Extend(Example(), as', t, McuTestLen);
    as', t := Extend(Example(), as', t, McuCopyByte);
    assert t.mcu.buf == [3];
    as', t := Extend(Example(), as', t, McuCopyByte);
    assert t.mcu.buf == [3, 13];
  }

  /** The slot that waited is played with the other slot's byte in front. */
  lemma PlayedCanDiffer() returns (as': seq<Action>, t: State)
    ensures Runs(Example(), as', t)
    ensures |t.out| == 1 && t.out[0].v == Took([3, 13]) && t.made != [] && t.made[0].data == [12, 13]
  {
    as', t := CopyAfterwards();
    as', t := Extend(Example(), as', t, McuCopied);
    as', t := Extend(Example(), as', t, McuLookAgain);
    as', t := Extend(Example(), as', t, McuSetIdle);
    assert t.made[0].data == [12, 13];
  }
}

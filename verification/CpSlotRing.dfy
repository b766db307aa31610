/** The routines of both sides on the slots' arrays, as calls without interference (apps/audioplayers/a2dpplay.cpp). */
module CpSlotRing {
  import opened Bytes
  import opened CpSlots

  /** The coprocessor takes its slot. */
  function BeginCall(s: State): (t: State)
    requires Shaped(s) && s.cp.CpOut?
    ensures Shaped(t)
  {
    var t := Step(s, CpBegin);
    if t.cp.Begun? then Step(t, CpZeroLen) else t
  }

  /** Room for a turn's bytes behind those the slot holds. */
  predicate HasRoom(s: State, data: seq<byte>)
    requires Shaped(s) && s.cp.Decoding?
  {
    |s.cp.data| + |data| <= s.slots.loopSize && s.cp.k < s.slots.loopSize
  }

  /** The decoder writes its output. */
  function WriteCall(s: State, data: seq<byte>): (t: State)
    requires Shaped(s) && s.cp.Decoding? && HasRoom(s, data)
    ensures Shaped(t) && t.cp.Decoding? && t.cp.k == s.cp.k && t.cp.data == s.cp.data + data
    ensures t.slots == s.slots.(mem := t.slots.mem) && |t.slots.mem| == |s.slots.mem|
    decreases |data|
  {
    if data == [] then s else
    var t := WriteCall(s, data[..|data| - 1]);
    assert t.cp.data + [data[|data| - 1]] == s.cp.data + data;
    Step(t, CpWrite(data[|data| - 1]))
  }

  lemma {:induction false} WriteCallSplices(s: State, data: seq<byte>)
    requires Shaped(s) && s.cp.Decoding? && HasRoom(s, data)
    ensures var at, mem := WritePos(s), s.slots.mem;
      at + |data| <= |mem| && WriteCall(s, data).slots.mem == mem[..at] + data + mem[at + |data|..]
    decreases |data|
  {
    var at, mem := WritePos(s), s.slots.mem;
    if data == [] {
      assert mem == mem[..at] + [] + mem[at..];
    } else {
      var n := |data| - 1;
      WriteCallSplices(s, data[..n]);
      PutBehind(mem, at, data[..n], data[n]);
      assert data == data[..n] + [data[n]];
    }
  }

  lemma PutBehind(mem: seq<byte>, at: nat, front: seq<byte>, b: byte)
    requires at + |front| < |mem|
    ensures (mem[..at] + front + mem[at + |front|..])[at + |front| := b] ==
            mem[..at] + (front + [b]) + mem[at + |front| + 1..]
  {
  }

  /** The coprocessor ends its turn, keeping the slot if it ran out of input. */
  function EndCall(s: State, retry: bool): State
    requires Shaped(s) && s.cp.Decoding? && (retry ==> |s.cp.data| < s.slots.loopSize)
  {
    var t := Step(s, CpAddLen);
    if retry then Step(t, CpRetry) else Step(Step(t, CpSeal), CpAdvance)
  }

  /** The MCU copies the rest of its slot. */
  function CopyCall(s: State): (t: State)
    requires Shaped(s) && s.mcu.Copying? && |s.mcu.buf| <= s.slots.loopSize
    ensures t == s.(mcu := t.mcu) && t.mcu.Judged? && t.mcu.seen == s.mcu.seen
    decreases s.slots.loopSize - |s.mcu.buf|
  {
    if |s.mcu.buf| == s.slots.loopSize then Step(s, McuCopied) else CopyCall(Step(s, McuCopyByte))
  }

  /** The MCU looks at its slot and releases it when it is finished. */
  function ProcessCall(s: State): State
    requires Shaped(s) && s.mcu.McuOut?
  {
    var t := Step(s, McuTestState);
    var u := if t.mcu.TestedDone? then Step(t, McuTestLen) else t;
    var v := if u.mcu.Copying? then CopyCall(u) else u;
    var w := Step(v, McuLookAgain);
    if w.mcu.Freeing? then Step(Step(w, McuSetIdle), McuAdvance) else w
  }

  /** What a call changes: a finished slot is given back with the call's verdict on it. */
  lemma ProcessReleases(s: State)
    requires Shaped(s) && s.mcu.McuOut?
    ensures var x, t := s.slots, ProcessCall(s);
      var done := x.state[x.mcuIdx] == Done;
      && t.slots == (if Finished(x.state[x.mcuIdx])
                     then x.(state := x.state[x.mcuIdx := Idle], mcuIdx := NextIdx(x.mcuIdx)) else x)
      && (if Finished(x.state[x.mcuIdx])
          then |t.out| == |s.out| + 1
            && t.out[|s.out|].v == (if done && x.outLen[x.mcuIdx] == x.loopSize
                                    then CopyCall(Step(Step(s, McuTestState), McuTestLen)).mcu.v else SawBad)
          else t.out == s.out)
  {
  }

  lemma {:induction false} CopyIsSlice(s: State)
    requires Shaped(s) && s.mcu.Copying? && |s.mcu.buf| <= s.slots.loopSize
    ensures var from := Base(s.slots.loopSize, s.slots.mcuIdx);
      CopyCall(s).mcu.v == Took(s.mcu.buf + s.slots.mem[from + |s.mcu.buf|..from + s.slots.loopSize])
    decreases s.slots.loopSize - |s.mcu.buf|
  {
    var from, n := Base(s.slots.loopSize, s.slots.mcuIdx), |s.mcu.buf|;
    if n == s.slots.loopSize {
      assert s.mcu.buf + s.slots.mem[from + n..from + n] == s.mcu.buf;
    } else {
      CopyIsSlice(Step(s, McuCopyByte));
      OneMore(s.mcu.buf, s.slots.mem, from + n, from + s.slots.loopSize);
    }
  }

  lemma OneMore(buf: seq<byte>, mem: seq<byte>, at: nat, to: nat)
    requires at < to <= |mem|
    ensures buf + [mem[at]] + mem[at + 1..to] == buf + mem[at..to]
  {
  }

  /** A call that finds its slot good takes the slot's bytes. */
  lemma TakesSlice(s: State)
    requires Shaped(s) && s.mcu.McuOut?
    requires s.slots.state[s.slots.mcuIdx] == Done && s.slots.outLen[s.slots.mcuIdx] == s.slots.loopSize
    ensures Step(s, McuTestState).mcu.TestedDone?
    ensures var u, from := Step(Step(s, McuTestState), McuTestLen), Base(s.slots.loopSize, s.slots.mcuIdx);
      u.mcu.Copying? && u.slots == s.slots && u.mcu.buf == []
      && CopyCall(u).mcu.v == Took(s.slots.mem[from..from + s.slots.loopSize])
  {
    var u, from := Step(Step(s, McuTestState), McuTestLen), Base(s.slots.loopSize, s.slots.mcuIdx);
    CopyIsSlice(u);
    assert [] + s.slots.mem[from..from + s.slots.loopSize] == s.slots.mem[from..from + s.slots.loopSize];
  }

  class SlotRing {
    const cpDecState: array<SlotState>
    const cpOutLen: array<nat>
    const cpOutCache: array<byte>
    var cpDecIdx: nat
    var mcuDecIdx: nat
    const cpOutLoopSize: nat

    ghost predicate Valid()
      reads this
    {
      && cpDecState.Length == cpOutLen.Length == SLOT_CNT && cpDecIdx < SLOT_CNT && mcuDecIdx < SLOT_CNT
      && 0 < cpOutLoopSize && 4 * cpOutLoopSize <= cpOutCache.Length
    }

    ghost function View(): Slots
      reads this, cpDecState, cpOutLen, cpOutCache
    {
      Slots(cpDecState[..], cpOutLen[..], cpOutCache[..], cpDecIdx, mcuDecIdx, cpOutLoopSize)
    }

    constructor (first: nat, outMax: nat, mem: seq<byte>)
      requires Startable(first, outMax, mem)
      ensures Valid() && fresh(cpDecState) && fresh(cpOutLen) && fresh(cpOutCache)
      ensures View() == Initial(first, outMax, mem).slots
      ensures cpDecIdx == 0 && mcuDecIdx == first && cpOutLoopSize == outMax && cpOutCache[..] == mem
      ensures forall i | 0 <= i < 3 ::
                cpDecState[i] == (if i < first then Idle else Done) && cpOutLen[i] == if i < first then 0 else outMax
    {
      cpOutLoopSize := outMax;
      cpDecState := new SlotState[SLOT_CNT](i => if i < first then Idle else Done);
      cpOutLen := new nat[SLOT_CNT](i => if i < first then 0 else outMax);
      cpOutCache := new byte[|mem|](i requires 0 <= i < |mem| => mem[i]);
      cpDecIdx, mcuDecIdx := 0, first;
    }

    /** cp_a2dp_main up to its call: where the turn writes; an overfull slot starts again. */
    method OutPosition() returns (outWpos: nat)
      requires Valid()
      modifies cpOutLen
      ensures Valid()
      ensures var resumed := old(cpDecState[cpDecIdx]) == Working && old(cpOutLen[cpDecIdx]) < cpOutLoopSize;
        outWpos == Base(cpOutLoopSize, cpDecIdx) + if resumed then old(cpOutLen[cpDecIdx]) else 0
      ensures var overfull := old(cpDecState[cpDecIdx]) == Working && old(cpOutLen[cpDecIdx]) >= cpOutLoopSize;
        cpOutLen[..] == if overfull then old(cpOutLen[..])[cpDecIdx := 0] else old(cpOutLen[..])
    {
      var pcmLen := cpOutLoopSize;
      if cpDecState[cpDecIdx] == Working {
        if cpOutLen[cpDecIdx] < cpOutLoopSize {
          pcmLen := cpOutLoopSize - cpOutLen[cpDecIdx];
        } else {
          cpOutLen[cpDecIdx] := 0;
        }
      }
      outWpos := Base(cpOutLoopSize, cpDecIdx) + cpOutLoopSize - pcmLen;
    }

    /** cp_decode_a2dp_begin */
    method DecodeBegin() returns (ret: int)
      requires Valid()
      modifies cpDecState, cpOutLen
      ensures Valid() && (ret == 0 <==> !Finished(old(cpDecState[cpDecIdx])))
      ensures var idle := old(cpDecState[cpDecIdx]) == Idle;
        && cpDecState[..] == (if idle then old(cpDecState[..])[cpDecIdx := Working] else old(cpDecState[..]))
        && cpOutLen[..] == (if idle then old(cpOutLen[..])[cpDecIdx := 0] else old(cpOutLen[..]))
    {
      if cpDecState[cpDecIdx] != Idle && cpDecState[cpDecIdx] != Working {
        return 1;
      }
      if cpDecState[cpDecIdx] == Idle {
        cpDecState[cpDecIdx] := Working;
        cpOutLen[cpDecIdx] := 0;
      }
      ret := 0;
    }

    /** The beginning of a turn: its place in the cache, and whether the slot is to be had. */
    method StartTurn(ghost s: State) returns (outWpos: nat, ret: int)
      requires Valid() && s.slots == View() && s.cp.CpOut?
      modifies cpDecState, cpOutLen
      ensures Valid() && View() == BeginCall(s).slots
      ensures ret == 0 <==> BeginCall(s).cp.Decoding?
      ensures ret == 0 ==> outWpos == WritePos(BeginCall(s)) && HasRoom(BeginCall(s), [])
    {
      outWpos := OutPosition();
      ret := DecodeBegin();
    }

    /** One byte of the decoder's output. */
    method PutByte(at: nat, b: byte)
      requires Valid() && at < cpOutCache.Length
      modifies cpOutCache
      ensures Valid() && View() == old(View()).(mem := old(cpOutCache[..])[at := b])
    {
      cpOutCache[at] := b;
    }

    /** The decoder's output goes to `outWpos` and on; it may be as long as a loop wherever that is. */
    method WriteOutput(outWpos: nat, data: seq<byte>, ghost s: State)
      requires Valid() && s.slots == View() && s.cp.Decoding? && HasRoom(s, data) && outWpos == WritePos(s)
      modifies cpOutCache
      ensures Valid() && View() == WriteCall(s, data).slots
    {
      for i := 0 to |data|
        invariant Valid() && View() == WriteCall(s, data[..i]).slots
      {
        assert data[..i + 1][..i] == data[..i];
        PutByte(outWpos + i, data[i]);
      }
      assert data[..|data|] == data;
    }

    /** cp_decode_a2dp_end, which expects a whole loop of output. */
    method DecodeEnd(outLen: nat, retry: bool, ghost s: State)
      requires Valid() && s.slots == View() && s.cp.Decoding? && outLen == |s.cp.data|
      requires retry ==> outLen < cpOutLoopSize
      modifies this`cpDecIdx, cpDecState, cpOutLen
      ensures Valid() && View() == EndCall(s, retry).slots
      ensures cpOutLen[..] == old(cpOutLen[..])[old(cpDecIdx) := old(cpOutLen[cpDecIdx]) + outLen]
      ensures retry ==> cpDecIdx == old(cpDecIdx) && cpDecState[..] == old(cpDecState[..])
      ensures !retry ==>
                var x := if outLen == cpOutLoopSize then Done else Failed;
                cpDecIdx == (old(cpDecIdx) + 1) % 3 && cpDecState[..] == old(cpDecState[..])[old(cpDecIdx) := x]
    {
      cpOutLen[cpDecIdx] := cpOutLen[cpDecIdx] + outLen;
      if !retry {
        cpDecState[cpDecIdx] := if cpOutLoopSize == outLen then Done else Failed;
        cpDecIdx := cpDecIdx + 1;
        if cpDecIdx >= SLOT_CNT {
          cpDecIdx := 0;
        }
      }
    }

    /** The copy of mcu_decode_a2dp_process. */
    method CopyOut() returns (ret: int, out: seq<byte>)
      requires Valid()
      ensures ret == 0 <==> cpDecState[mcuDecIdx] == Done && cpOutLen[mcuDecIdx] == cpOutLoopSize
      ensures ret == 0 ==>
        var from := Base(cpOutLoopSize, mcuDecIdx); out == cpOutCache[..][from..from + cpOutLoopSize]
    {
      out := [];
      if cpDecState[mcuDecIdx] != Done {
        ret := 1;
      } else if cpOutLen[mcuDecIdx] != cpOutLoopSize {
        ret := 2;
      } else {
        ret := 0;
        var outRpos := Base(cpOutLoopSize, mcuDecIdx);
        out := cpOutCache[outRpos..outRpos + cpOutLoopSize];
      }
    }

    /** mcu_decode_a2dp_process with `out_max` equal to the loop size it was initialised with. */
    method Process(ghost s: State) returns (ret: int, out: seq<byte>)
      requires Valid() && s.slots == View() && s.mcu.McuOut?
      modifies this`mcuDecIdx, cpDecState
      ensures Valid() && View() == ProcessCall(s).slots
      ensures ret == 0 <==> |ProcessCall(s).out| > |s.out| && ProcessCall(s).out[|s.out|].v == Took(out)
    {
      ret, out := CopyOut();
      if ret == 0 {
        TakesSlice(s);
      }
      ProcessReleases(s);
      Release();
    }

    /** The exit of mcu_decode_a2dp_process. */
    method Release()
      requires Valid()
      modifies this`mcuDecIdx, cpDecState
      ensures Valid()
      ensures var x := old(View());
        View() == if Finished(x.state[x.mcuIdx])
                  then x.(state := x.state[x.mcuIdx := Idle], mcuIdx := NextIdx(x.mcuIdx)) else x
    {
      if cpDecState[mcuDecIdx] == Done || cpDecState[mcuDecIdx] == Failed {
        cpDecState[mcuDecIdx] := Idle;
        mcuDecIdx := mcuDecIdx + 1;
        if mcuDecIdx >= SLOT_CNT {
          mcuDecIdx := 0;
        }
      }
    }
  }
}

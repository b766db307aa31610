/** The sample queues of apps/audioplayers/bt_sco_chain_reframe.c and the routines that move them in place. */
module ScoReframe {

  const PROCESS_FRAME_LEN := 320
  const QUEUE_BUF_PCM_NUM := 1280
  const PRE_CACHE_OUT_PCM := 640

  /** One sampling instant of the four input channels. */
  datatype Sample = Sample(ff: int, fb: int, vp: int, ref: int)

  /** The processing in this build: the voice pick-up channel goes through. */
  function Vp(ss: seq<Sample>): (r: seq<int>)
    ensures |r| == |ss|
  {
    seq(|ss|, i requires 0 <= i < |ss| => ss[i].vp)
  }

  /** Sample by sample, whatever the other channels carry. */
  lemma VpIsVoicePickUp(ff: seq<int>, fb: seq<int>, vp: seq<int>, ref: seq<int>)
    requires |ff| == |fb| == |vp| == |ref|
    ensures Vp(seq(|vp|, i requires 0 <= i < |vp| => Sample(ff[i], fb[i], vp[i], ref[i]))) == vp
  {
  }

  lemma VpConcat(xs: seq<Sample>, ys: seq<Sample>)
    ensures Vp(xs + ys) == Vp(xs) + Vp(ys)
  {
  }

  /** What one wake-up of the thread does to both queues when nobody interferes; a block without room is lost. */
  function Drain(i: seq<Sample>, o: seq<int>): (seq<Sample>, seq<int>)
    decreases |i|
  {
    if |i| < PROCESS_FRAME_LEN then (i, o)
    else if |o| + PROCESS_FRAME_LEN > QUEUE_BUF_PCM_NUM then (i[PROCESS_FRAME_LEN..], o)
    else Drain(i[PROCESS_FRAME_LEN..], o + Vp(i[..PROCESS_FRAME_LEN]))
  }

  /** How many whole blocks are queued, and for how many there is room. */
  function Blocks(i: seq<Sample>): nat {
    |i| / PROCESS_FRAME_LEN
  }

  function Room(o: seq<int>): nat
    requires |o| <= QUEUE_BUF_PCM_NUM
  {
    (QUEUE_BUF_PCM_NUM - |o|) / PROCESS_FRAME_LEN
  }

  /**
   * All whole blocks move over when there is room for them; otherwise those for which there is, and one more is taken
   * from the input and lost.
   */
  ghost predicate DrainedTo(i: seq<Sample>, o: seq<int>, i': seq<Sample>, o': seq<int>)
    requires |o| <= QUEUE_BUF_PCM_NUM
  {
    var n, room := PROCESS_FRAME_LEN * Blocks(i), PROCESS_FRAME_LEN * Room(o);
    if n <= room then i' == i[n..] && o' == o + Vp(i[..n])
    else room + PROCESS_FRAME_LEN <= |i| && i' == i[room + PROCESS_FRAME_LEN..] && o' == o + Vp(i[..room])
  }

  lemma SliceInTwo(i: seq<Sample>, m: nat, n: nat)
    requires m + n <= |i|
    ensures i[..m + n] == i[..m] + i[m..][..n] && i[m..][n..] == i[m + n..]
  {
  }

  /** One block more in front of `n` samples. */
  lemma VpOfTwo(i: seq<Sample>, o: seq<int>, n: nat)
    requires PROCESS_FRAME_LEN + n <= |i|
    ensures o + Vp(i[..PROCESS_FRAME_LEN]) + Vp(i[PROCESS_FRAME_LEN..][..n]) == o + Vp(i[..PROCESS_FRAME_LEN + n])
  {
    var b, c := i[..PROCESS_FRAME_LEN], i[PROCESS_FRAME_LEN..][..n];
    SliceInTwo(i, PROCESS_FRAME_LEN, n);
    VpConcat(b, c);
    assert o + Vp(b) + Vp(c) == o + (Vp(b) + Vp(c));
  }

  lemma DrainedToGoesOn(i: seq<Sample>, o: seq<int>, i': seq<Sample>, o': seq<int>)
    requires |i| >= PROCESS_FRAME_LEN && |o| + PROCESS_FRAME_LEN <= QUEUE_BUF_PCM_NUM
    requires DrainedTo(i[PROCESS_FRAME_LEN..], o + Vp(i[..PROCESS_FRAME_LEN]), i', o')
    ensures DrainedTo(i, o, i', o')
  {
    var j, p := i[PROCESS_FRAME_LEN..], o + Vp(i[..PROCESS_FRAME_LEN]);
    assert Blocks(i) == Blocks(j) + 1 && Room(o) == Room(p) + 1;
    var n, room := PROCESS_FRAME_LEN * Blocks(j), PROCESS_FRAME_LEN * Room(p);
    if n <= room {
      VpOfTwo(i, o, n);
      SliceInTwo(i, PROCESS_FRAME_LEN, n);
    } else {
      VpOfTwo(i, o, room);
      SliceInTwo(i, PROCESS_FRAME_LEN, room + PROCESS_FRAME_LEN);
    }
  }

  lemma {:induction false} DrainDrains(i: seq<Sample>, o: seq<int>)
    requires |o| <= QUEUE_BUF_PCM_NUM
    ensures DrainedTo(i, o, Drain(i, o).0, Drain(i, o).1)
    decreases |i|
  {
    if |i| < PROCESS_FRAME_LEN {
      assert i[0..] == i && o + Vp(i[..0]) == o;
    } else if |o| + PROCESS_FRAME_LEN > QUEUE_BUF_PCM_NUM {
      assert o + Vp(i[..0]) == o;
    } else {
      DrainDrains(i[PROCESS_FRAME_LEN..], o + Vp(i[..PROCESS_FRAME_LEN]));
      DrainedToGoesOn(i, o, Drain(i, o).0, Drain(i, o).1);
    }
  }

  /** With room nothing is lost: the rest of a block stays, and the stream through both queues is what it was. */
  lemma DrainedToKeepsStream(i: seq<Sample>, o: seq<int>, i': seq<Sample>, o': seq<int>)
    requires |o| + PROCESS_FRAME_LEN * Blocks(i) <= QUEUE_BUF_PCM_NUM && DrainedTo(i, o, i', o')
    ensures |i'| == |i| % PROCESS_FRAME_LEN && o' + Vp(i') == o + Vp(i)
  {
    var n := PROCESS_FRAME_LEN * Blocks(i);
    assert i == i[..n] + i[n..];
    VpConcat(i[..n], i[n..]);
    assert o + Vp(i[..n]) + Vp(i[n..]) == o + (Vp(i[..n]) + Vp(i[n..]));
  }

  /** speech_copy_pcm onto the start of the same buffer: ascending, so overlapping ranges are safe. */
  method ShiftDown<T>(a: array<T>, from: nat, n: nat)
    requires from + n <= a.Length
    modifies a
    ensures a[..n] == old(a[from..from + n])
  {
    for i := 0 to n
      invariant forall k | 0 <= k < i :: a[k] == old(a[from + k])
      invariant forall k | i <= k < a.Length :: a[k] == old(a[k])
    {
      a[i] := a[from + i];
    }
  }

  class Queues {
    const inBuf: array<Sample>
    const outBuf: array<int>
    var inLen: nat
    var outLen: nat

    ghost predicate Valid()
      reads this
    {
      && inBuf.Length == outBuf.Length == QUEUE_BUF_PCM_NUM
      && inLen <= QUEUE_BUF_PCM_NUM && outLen <= QUEUE_BUF_PCM_NUM
    }

    ghost function In(): seq<Sample>
      requires Valid()
      reads this, inBuf
    {
      inBuf[..inLen]
    }

    ghost function Out(): seq<int>
      requires Valid()
      reads this, outBuf
    {
      outBuf[..outLen]
    }

    /** bt_sco_chain_reframe_open: the output queue starts with 640 samples, of whatever content. */
    constructor (preCache: seq<int>)
      requires |preCache| == PRE_CACHE_OUT_PCM
      ensures Valid() && fresh(inBuf) && fresh(outBuf) && In() == [] && Out() == preCache
    {
      inBuf := new Sample[QUEUE_BUF_PCM_NUM](_ => Sample(0, 0, 0, 0));
      outBuf := new int[QUEUE_BUF_PCM_NUM](i => if 0 <= i < |preCache| then preCache[i] else 0);
      inLen, outLen := 0, PRE_CACHE_OUT_PCM;
    }

    method WriteInput(pcm: seq<Sample>) returns (ret: int)
      requires Valid()
      modifies this`inLen, inBuf
      ensures Valid()
      ensures ret == if |old(In())| + |pcm| > QUEUE_BUF_PCM_NUM then -1 else 0
      ensures In() == if ret == 0 then old(In()) + pcm else old(In())
    {
      if inLen + |pcm| > QUEUE_BUF_PCM_NUM {
        return -1;
      }
      forall k | 0 <= k < |pcm| {
        inBuf[inLen + k] := pcm[k];
      }
      inLen := inLen + |pcm|;
      ret := 0;
    }

    method ReadInput(n: nat) returns (ret: int, pcm: seq<Sample>)
      requires Valid()
      modifies this`inLen, inBuf
      ensures Valid()
      ensures ret == if |old(In())| >= n then 0 else -1
      ensures pcm == if ret == 0 then old(In())[..n] else seq(n, _ => Sample(0, 0, 0, 0))
      ensures In() == if ret == 0 then old(In())[n..] else old(In())
    {
      if inLen < n {
        return -1, seq(n, _ => Sample(0, 0, 0, 0));
      }
      pcm := inBuf[..n];
      ShiftDown(inBuf, n, inLen - n);
      inLen := inLen - n;
      ret := 0;
    }

    method WriteOutput(pcm: seq<int>) returns (ret: int)
      requires Valid()
      modifies this`outLen, outBuf
      ensures Valid()
      ensures ret == if |old(Out())| + |pcm| > QUEUE_BUF_PCM_NUM then -1 else 0
      ensures Out() == if ret == 0 then old(Out()) + pcm else old(Out())
    {
      if outLen + |pcm| > QUEUE_BUF_PCM_NUM {
        return -1;
      }
      forall k | 0 <= k < |pcm| {
        outBuf[outLen + k] := pcm[k];
      }
      outLen := outLen + |pcm|;
      ret := 0;
    }

    method ReadOutput(n: nat) returns (ret: int, pcm: seq<int>)
      requires Valid()
      modifies this`outLen, outBuf
      ensures Valid()
      ensures ret == if |old(Out())| >= n then 0 else -1
      ensures pcm == if ret == 0 then old(Out())[..n] else seq(n, _ => 0)
      ensures Out() == if ret == 0 then old(Out())[n..] else old(Out())
    {
      if outLen < n {
        return -1, seq(n, _ => 0);
      }
      pcm := outBuf[..n];
      ShiftDown(outBuf, n, outLen - n);
      outLen := outLen - n;
      ret := 0;
    }

    /**
     * bt_sco_chain_reframe_tx_process up to the signal: a frame goes in, or is lost when there is no room, and a frame
     * comes out, or zeros when there is none.
     */
    method TxProcess(frame: seq<Sample>) returns (out: seq<int>)
      requires Valid()
      modifies this, inBuf, outBuf
      ensures Valid()
      ensures In() == if |old(In())| + |frame| <= 1280 then old(In()) + frame else old(In())
      ensures if |old(Out())| >= |frame| then out == old(Out())[..|frame|] && Out() == old(Out())[|frame|..]
              else out == seq(|frame|, _ => 0) && Out() == old(Out())
    {
      var _ := WriteInput(frame);
      var ret;
      ret, out := ReadOutput(|frame|);
    }

    /** The inner loop of the thread, run to its end. */
    method RunThread()
      requires Valid()
      modifies this, inBuf, outBuf
      ensures Valid() && (In(), Out()) == Drain(old(In()), old(Out()))
      ensures DrainedTo(old(In()), old(Out()), In(), Out())
      ensures |old(Out())| + 320 * (|old(In())| / 320) <= 1280 ==>
                |In()| == |old(In())| % 320 && Out() + Vp(In()) == old(Out()) + Vp(old(In()))
    {
      DrainDrains(In(), Out());
      if |Out()| + PROCESS_FRAME_LEN * Blocks(In()) <= QUEUE_BUF_PCM_NUM {
        DrainedToKeepsStream(In(), Out(), Drain(In(), Out()).0, Drain(In(), Out()).1);
      }
      while true
        invariant Valid() && Drain(In(), Out()) == Drain(old(In()), old(Out()))
        decreases inLen
      {
        var ret, block := ReadInput(PROCESS_FRAME_LEN);
        if ret == 0 && outLen + PROCESS_FRAME_LEN <= QUEUE_BUF_PCM_NUM {
          var _ := WriteOutput(Vp(block));
        } else {
          return;
        }
      }
    }
  }
}

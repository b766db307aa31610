/** LHDC fragments on their way into the byte queue: reassembly, and the frame buffer the packets pass through. */
module LhdcStore {
  import opened Bytes
  import opened CQueues
  import opened A2dpFrames
  import opened LhdcAssembler
  import opened A2dpPipeline

  /** The reassembler and the queued bytes; or a copy has left the packet buffer or the frame buffer. */
  datatype Stored = Queued(asm: LhdcAssembler.State, contents: seq<byte>) | Overrun

  function StoreStep(s: LhdcAssembler.State, contents: seq<byte>, capacity: nat, f: Fragment): Stored {
    var o := Receive(s, f);
    var frame := LhdcFrame(o.ret > 0, o.packet);
    if Overruns(s, f) || |frame| > LHDC_READBUF_SIZE then Overrun
    else Queued(o.next, if |contents| + |frame| <= capacity then contents + frame else contents)
  }

  function StoreRun(s: LhdcAssembler.State, contents: seq<byte>, capacity: nat, fs: seq<Fragment>): Stored {
    if fs == [] then Queued(s, contents) else
    var before := StoreRun(s, contents, capacity, fs[..|fs| - 1]);
    if before.Overrun? then Overrun else StoreStep(before.asm, before.contents, capacity, fs[|fs| - 1])
  }

  const LONGEST_PACKET := LHDC_READBUF_SIZE - LHDC_HEADER_SIZE

  /** In any state, a fragment's packet stays inside the buffers exactly when the loader has room for it. */
  lemma StaysInsideIff(s: LhdcAssembler.State, contents: seq<byte>, capacity: nat, f: Fragment)
    ensures var o := Receive(s, f);
      StoreStep(s, contents, capacity, f).Overrun? == (o.ret > 0 && o.packet != [] && !Storable(Lhdc, o.packet))
  {
    var o := Receive(s, f);
    if o.ret > 0 && o.packet != [] {
      assert |Encode(Lhdc, o.packet)| == LHDC_HEADER_SIZE + |o.packet|;
    }
    assert Overruns(s, f) ==> o.ret == 1 && o.packet == f.payload;
  }

  /** One fragment that completes nothing leaves the queue alone. */
  lemma NothingStored(s: LhdcAssembler.State, contents: seq<byte>, capacity: nat, f: Fragment)
    requires Receive(s, f).ret <= 0
    ensures StoreStep(s, contents, capacity, f) == Queued(Receive(s, f).next, contents)
  {
    StaysInsideIff(s, contents, capacity, f);
    assert contents + [] == contents;
  }

  lemma {:induction false} PrefixStored(s: LhdcAssembler.State, contents: seq<byte>, capacity: nat, fs: seq<Fragment>,
                                        n: nat)
    requires InOrder(fs) && Ready(s, fs[0]) && n < |fs|
    ensures StoreRun(s, contents, capacity, fs[..n]) == Queued(Emissions(s, fs[..n]).1, contents)
    ensures Emissions(s, fs[..n]).0 == []
    decreases n
  {
    if n > 0 {
      PrefixStored(s, contents, capacity, fs, n - 1);
      PrefixState(s, fs, n);
      assert fs[..n][..n - 1] == fs[..n - 1] && fs[..n][n - 1] == fs[n - 1];
      NothingStored(Emissions(s, fs[..n - 1]).1, contents, capacity, fs[n - 1]);
    }
  }

  /** What the last fragment of a packet sent in order is answered. */
  lemma LastEmits(s: LhdcAssembler.State, fs: seq<Fragment>)
    requires InOrder(fs) && Ready(s, fs[0])
    ensures var o, p := Receive(Emissions(s, fs[..|fs| - 1]).1, fs[|fs| - 1]), Payloads(fs);
      if |p| < PACKET_BUFFER_LENGTH then o.ret == 1 && o.packet == p else o.ret <= 0 && o.packet == []
  {
    PrefixState(s, fs, |fs| - 1);
    assert Follows(fs, |fs| - 1) && IsMiddle(fs[|fs| - 1]);
  }

  /**
   * A packet sent in order leaves the frame buffer exactly between 4089 and 4095 bytes; up to 4088 its frame joins the
   * queue when there is room, and from 4096 on the reassembler has dropped it.
   */
  lemma InOrderPacketStored(s: LhdcAssembler.State, contents: seq<byte>, capacity: nat, fs: seq<Fragment>)
    requires InOrder(fs) && Ready(s, fs[0])
    ensures var p, r := Payloads(fs), StoreRun(s, contents, capacity, fs);
      && (r.Overrun? <==> LONGEST_PACKET < |p| < PACKET_BUFFER_LENGTH)
      && (r.Queued? ==>
            r.contents == if p != [] && |p| <= LONGEST_PACKET && |contents| + |Encode(Lhdc, p)| <= capacity
                          then contents + Encode(Lhdc, p) else contents)
  {
    var last := |fs| - 1;
    PrefixStored(s, contents, capacity, fs, last);
    InOrderPacketEmittedIff(s, fs);
    var t := Emissions(s, fs[..last]).1;
    var o := Receive(t, fs[last]);
    LastEmits(s, fs);
    StaysInsideIff(t, contents, capacity, fs[last]);
    assert contents + [] == contents;
  }

  /** Two fragments of 2000 and 2089 bytes, one behind the other. */
  lemma TwoFragmentsOverrun(capacity: nat)
    ensures var fs := [Fragment(0x40, 0, seq<byte>(2000, _ => 0)), Fragment(0x20, 1, seq<byte>(2089, _ => 0))];
      InOrder(fs) && |Payloads(fs)| == 4089 && StoreRun(INITIAL, [], capacity, fs).Overrun?
  {
    var fs := [Fragment(0x40, 0, seq<byte>(2000, _ => 0)), Fragment(0x20, 1, seq<byte>(2089, _ => 0))];
    assert Follows(fs, 1);
    assert fs[..1] == [fs[0]] && [fs[0]][..0] == [];
    assert Payloads([fs[0]]) == Payloads([]) + fs[0].payload;
    InOrderPacketStored(INITIAL, [], capacity, fs);
  }

  // ---- Packets in one fragment each ----

  /** The frames of packets that are not empty. */
  function FramesOf(fs: seq<Fragment>): seq<byte> {
    if fs == [] then [] else FramesOf(fs[..|fs| - 1]) + LhdcFrame(true, fs[|fs| - 1].payload)
  }

  predicate SomeTooLong(fs: seq<Fragment>) {
    exists k | 0 <= k < |fs| :: |fs[k].payload| > LONGEST_PACKET
  }

  lemma TooLongAppend(fs: seq<Fragment>)
    requires fs != []
    ensures SomeTooLong(fs) <==> SomeTooLong(fs[..|fs| - 1]) || |fs[|fs| - 1].payload| > LONGEST_PACKET
  {
    var front := fs[..|fs| - 1];
    if SomeTooLong(front) {
      var k :| 0 <= k < |front| && |front[k].payload| > LONGEST_PACKET;
      assert fs[k] == front[k];
    }
    if SomeTooLong(fs) && |fs[|fs| - 1].payload| <= LONGEST_PACKET {
      var k :| 0 <= k < |fs| && |fs[k].payload| > LONGEST_PACKET;
      assert front[k] == fs[k];
    }
  }

  lemma SingleStored(s: LhdcAssembler.State, contents: seq<byte>, capacity: nat, f: Fragment)
    requires IsSingle(f) && Breaks(s, f)
    ensures var frame := LhdcFrame(true, f.payload);
      StoreStep(s, contents, capacity, f) ==
      if |f.payload| > LONGEST_PACKET then Overrun
      else Queued(Receive(s, f).next, if |contents| + |frame| <= capacity then contents + frame else contents)
  {
    SingleIsHandedOutIff(s, f);
    StaysInsideIff(s, contents, capacity, f);
  }

  lemma OneMoreStored(
      s: LhdcAssembler.State, contents: seq<byte>, frames: seq<byte>, capacity: nat, f: Fragment)
    requires IsSingle(f) && Breaks(s, f) && |contents| + |frames + LhdcFrame(true, f.payload)| <= capacity
    ensures var r := StoreStep(s, contents + frames, capacity, f);
      && (r.Overrun? <==> |f.payload| > LONGEST_PACKET)
      && (r.Queued? ==> r.contents == contents + (frames + LhdcFrame(true, f.payload)) && r.asm.wait == ForStart)
  {
    var r, frame := StoreStep(s, contents + frames, capacity, f), LhdcFrame(true, f.payload);
    assert r == if |f.payload| > LONGEST_PACKET then Overrun
                else Queued(Receive(s, f).next, (contents + frames) + frame) by {
      SingleStored(s, contents + frames, capacity, f);
    }
    assert Receive(s, f).next.wait == ForStart by {
      SingleIsHandedOutIff(s, f);
    }
    AppendTwice(contents, frames, frame);
  }

  /** With room for all, the frames of all of them join the queue in order, exactly unless one leaves the buffer. */
  lemma {:induction false} SinglesStored(
      s: LhdcAssembler.State, contents: seq<byte>, capacity: nat, fs: seq<Fragment>)
    requires AllSingle(fs) && (fs != [] ==> Breaks(s, fs[0])) && |contents| + |FramesOf(fs)| <= capacity
    ensures var r := StoreRun(s, contents, capacity, fs);
      && (r.Overrun? <==> SomeTooLong(fs))
      && (r.Queued? ==> r.contents == contents + FramesOf(fs) && (fs != [] ==> r.asm.wait == ForStart))
    decreases |fs|
  {
    if fs == [] {
      assert contents + [] == contents;
    } else {
      var front, f := fs[..|fs| - 1], fs[|fs| - 1];
      SinglesStored(s, contents, capacity, front);
      TooLongAppend(fs);
      var before := StoreRun(s, contents, capacity, front);
      if before.Queued? {
        assert front != [] ==> front[0] == fs[0];
        OneMoreStored(before.asm, contents, FramesOf(front), capacity, f);
      }
    }
  }

  /** store_sbc_buffer's part for one LHDC fragment, with one try to queue the frame. */
  method StoreFragment(a: Assembler, q: CQueue, input: seq<byte>) returns (ok: bool, overrun: bool)
    requires a.Valid() && q.Valid() && a.packetBuffer != q.base && |input| >= 2
    modifies a`serialNo, a`synced, a`wait, a`packetBufLen, a.packetBuffer, q`len, q`write, q.base
    ensures a.Valid() && q.Valid()
    ensures var f := Fragment(input[0], input[1], input[2..]);
            var r := StoreStep(old(a.View()), old(q.Contents()), q.base.Length, f);
            && overrun == r.Overrun?
            && (r.Queued? ==>
                  && a.View() == r.asm && q.Contents() == r.contents
                  && var o := Receive(old(a.View()), f);
                     ok == (|old(q.Contents())| + |LhdcFrame(o.ret > 0, o.packet)| <= q.base.Length))
  {
    var ret, outLen;
    ret, outLen, overrun := a.Assemble(input);
    ok := false;
    if !overrun {
      ok, overrun := StoreLhdc(q, ret > 0, a.packetBuffer[..outLen]);
    }
  }
}

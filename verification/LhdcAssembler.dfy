/** The reassembly of LHDC packets from sequence-numbered fragments (assemble_lhdc_packet in a2dpplay.cpp). */
module LhdcAssembler {
  import opened Bytes

  const PACKET_BUFFER_LENGTH := 4096

  datatype Fragment = Fragment(hdr: byte, seqno: byte, payload: seq<byte>)

  /** No flag of 0x80, 0x40, 0x20: a packet in one fragment. */
  predicate IsSingle(f: Fragment) {
    f.hdr < 0x20
  }

  /** Flag 0x40. */
  predicate IsStart(f: Fragment) {
    f.hdr / 0x40 % 2 == 1
  }

  /** Flag 0x20. */
  predicate IsLast(f: Fragment) {
    f.hdr / 0x20 % 2 == 1
  }

  function Succ(seqno: byte): byte {
    (seqno + 1) % 256
  }

  datatype Wait = ForStart | ForLast

  /** serial_no, is_synced, asm_pkt_st and the filled part of packet_buffer. */
  datatype State = State(serialNo: byte, synced: bool, wait: Wait, buffer: seq<byte>)

  datatype Outcome = Outcome(ret: int, packet: seq<byte>, next: State)

  const INITIAL := State(0xff, false, ForStart, [])

  function Reset(s: State): State {
    s.(synced := false, wait := ForStart, buffer := [])
  }

  /** A fragment while no packet is open. An overflow leaves the switch before the synchronisation. */
  function AtStart(s: State, f: Fragment): Outcome {
    var synced := if s.synced then s else s.(synced := true, serialNo := Succ(f.seqno));
    if IsSingle(f) then Outcome(1, f.payload, synced.(wait := ForStart, buffer := []))
    else if IsStart(f) then
      if |s.buffer| + |f.payload| >= PACKET_BUFFER_LENGTH then Outcome(0, [], s.(buffer := []))
      else Outcome(0, [], synced.(wait := ForLast, buffer := f.payload))
    else Outcome(-1, [], s)
  }

  /** A fragment while a packet is open. */
  function AtLast(s: State, f: Fragment): Outcome {
    if |s.buffer| + |f.payload| >= PACKET_BUFFER_LENGTH then Outcome(-1, [], s.(wait := ForStart, buffer := []))
    else if IsLast(f) then Outcome(1, s.buffer + f.payload, s.(wait := ForStart, buffer := []))
    else Outcome(0, [], s.(buffer := s.buffer + f.payload))
  }

  function Receive(s: State, f: Fragment): Outcome {
    if s.synced && f.seqno != s.serialNo then
      if IsSingle(f) || IsStart(f) then AtStart(Reset(s), f) else Outcome(0, [], Reset(s))
    else
      var t := if s.synced then s.(serialNo := Succ(f.seqno)) else s;
      if t.wait == ForStart then AtStart(t, f) else AtLast(t, f)
  }

  /** A packet in one fragment is copied without a test: this one leaves the packet buffer. */
  predicate Overruns(s: State, f: Fragment) {
    && |f.payload| > PACKET_BUFFER_LENGTH && IsSingle(f)
    && (s.wait == ForStart || (s.synced && f.seqno != s.serialNo))
  }

  /** The state after a history of fragments. */
  function After(h: seq<Fragment>): State {
    if h == [] then INITIAL else Receive(After(h[..|h| - 1]), h[|h| - 1]).next
  }

  function Payloads(fs: seq<Fragment>): seq<byte> {
    if fs == [] then [] else Payloads(fs[..|fs| - 1]) + fs[|fs| - 1].payload
  }

  /** Fragment `k` carries the number after its predecessor's. */
  predicate Follows(h: seq<Fragment>, k: nat) {
    0 < k < |h| && h[k].seqno == Succ(h[k - 1].seqno)
  }

  /** Fragments from number `i` on: a start, then consecutive numbers. */
  ghost predicate Chain(h: seq<Fragment>, i: nat) {
    && i < |h| && IsStart(h[i]) && !IsSingle(h[i])
    && forall k | i < k < |h| :: Follows(h, k)
  }

  /** No last-fragment after number `i`. */
  ghost predicate Open(h: seq<Fragment>, i: nat) {
    forall k | i < k < |h| :: !IsLast(h[k])
  }

  /** What an open packet holds: everything since some start fragment, no gap and no last-fragment in between. */
  ghost predicate Holds(h: seq<Fragment>, i: nat, s: State) {
    && Chain(h, i) && Open(h, i) && s.buffer == Payloads(h[i..])
    && s.synced && s.serialNo == Succ(h[|h| - 1].seqno)
  }

  ghost predicate Inv(h: seq<Fragment>, s: State) {
    if s.wait == ForStart then s.buffer == [] else exists i :: Holds(h, i, s)
  }

  /** A fragment that continues an open packet extends its chain. */
  lemma ChainGrows(h: seq<Fragment>, i: nat, s: State, f: Fragment)
    requires Holds(h, i, s) && f.seqno == s.serialNo
    ensures Chain(h + [f], i) && Payloads((h + [f])[i..]) == s.buffer + f.payload
    ensures Open(h + [f], i) <==> !IsLast(f)
  {
    var g := h + [f];
    assert g[i..] == h[i..] + [f];
    assert g[i..][..|g[i..]| - 1] == h[i..];
    assert forall k | i < k < |h| :: Follows(g, k) == Follows(h, k);
    assert Follows(g, |h|) && forall k | i < k < |h| :: g[k] == h[k];
  }

  lemma {:induction false} HistoryInv(h: seq<Fragment>)
    ensures Inv(h, After(h))
    decreases |h|
  {
    if h != [] {
      var g, f := h[..|h| - 1], h[|h| - 1];
      var s, t := After(g), After(h);
      HistoryInv(g);
      assert h == g + [f];
      if t.wait == ForLast {
        if s.wait == ForLast && (!s.synced || f.seqno == s.serialNo) {
          var i :| Holds(g, i, s);
          ChainGrows(g, i, s, f);
          assert Holds(h, i, t);
        } else {
          assert h[|g|..] == [f] && Payloads([f]) == Payloads([f][..0]) + f.payload;
          assert Holds(h, |g|, t);
        }
      }
    }
  }

  /** `p` is one whole packet that ends with the last fragment of `h`. */
  ghost predicate EndsPacket(h: seq<Fragment>, p: seq<byte>)
    requires h != []
  {
    || (IsSingle(h[|h| - 1]) && p == h[|h| - 1].payload)
    || (exists i: nat ::
          i < |h| - 1 && Chain(h, i) && Open(h[..|h| - 1], i) && IsLast(h[|h| - 1]) && p == Payloads(h[i..]))
  }

  /**
   * Whatever arrived, an emitted packet is a single payload, or the payloads from a start fragment to the first
   * last-fragment after it, with consecutive numbers all the way: nothing is stitched across a gap or an overflow.
   */
  lemma EmittedPacketsAreWhole(h: seq<Fragment>, f: Fragment)
    requires Receive(After(h), f).ret == 1
    ensures EndsPacket(h + [f], Receive(After(h), f).packet)
    ensures IsSingle(f) || |Receive(After(h), f).packet| < PACKET_BUFFER_LENGTH
  {
    var s := After(h);
    HistoryInv(h);
    if s.wait == ForLast && (!s.synced || f.seqno == s.serialNo) {
      var i :| Holds(h, i, s);
      ChainGrows(h, i, s, f);
      assert (h + [f])[..|h|] == h;
    }
  }

  /** The fragments of a packet that go between its start and its last one. */
  predicate IsMiddle(f: Fragment) {
    !IsSingle(f) && !IsStart(f)
  }

  /** A whole packet sent in order: start, middles, and a last-fragment that is a middle as well. */
  ghost predicate InOrder(fs: seq<Fragment>) {
    && |fs| >= 2 && Chain(fs, 0) && !IsLast(fs[0]) && IsLast(fs[|fs| - 1])
    && (forall k | 0 < k < |fs| :: IsMiddle(fs[k]))
    && (forall k | 0 < k < |fs| - 1 :: !IsLast(fs[k]))
  }

  /** The next fragment `f` opens a packet: none is open, or `f` does not continue the open one. */
  predicate Ready(s: State, f: Fragment) {
    (s.wait == ForStart && s.buffer == []) || (s.synced && f.seqno != s.serialNo)
  }

  function Emissions(s: State, fs: seq<Fragment>): (r: (seq<seq<byte>>, State)) {
    if fs == [] then ([], s) else
    var (ps, t) := Emissions(s, fs[..|fs| - 1]);
    var o := Receive(t, fs[|fs| - 1]);
    (if o.ret == 1 then ps + [o.packet] else ps, o.next)
  }

  lemma {:induction false} PrefixState(s: State, fs: seq<Fragment>, n: nat)
    requires InOrder(fs) && Ready(s, fs[0]) && 0 < n < |fs|
    ensures var (ps, t) := Emissions(s, fs[..n]);
            && ps == []
            && (if |Payloads(fs[..n])| < PACKET_BUFFER_LENGTH
                then t == State(Succ(fs[n - 1].seqno), true, ForLast, Payloads(fs[..n]))
                else t.wait == ForStart && t.buffer == [])
    decreases n
  {
    assert fs[..n][..n - 1] == fs[..n - 1];
    if n == 1 {
      assert Emissions(s, []) == ([], s) && Payloads(fs[..0]) == [];
    } else {
      PrefixState(s, fs, n - 1);
      assert IsMiddle(fs[n - 1]) && !IsLast(fs[n - 1]) && Follows(fs, n - 1);
    }
  }

  /** In order, a packet is emitted once and exactly, if and only if it stays below the buffer's 4096 bytes. */
  lemma InOrderPacketEmittedIff(s: State, fs: seq<Fragment>)
    requires InOrder(fs) && Ready(s, fs[0])
    ensures Emissions(s, fs).0 == if |Payloads(fs)| < PACKET_BUFFER_LENGTH then [Payloads(fs)] else []
  {
    PrefixState(s, fs, |fs| - 1);
    assert Follows(fs, |fs| - 1);
  }

  // ---- Packets in one fragment, gaps and overflows ----

  /** No packet is open, or `f` breaks the sequence of the open one. */
  predicate Breaks(s: State, f: Fragment) {
    s.wait == ForStart || (s.synced && f.seqno != s.serialNo)
  }

  /** In any state, a packet in one fragment is emitted at once and the number after its own is due next. */
  predicate HandedOut(s: State, f: Fragment) {
    Receive(s, f) == Outcome(1, f.payload, State(Succ(f.seqno), true, ForStart, []))
  }

  /** It is exactly unless it takes its place in the sequence of an open packet, and then nothing is emitted at all. */
  lemma SingleIsHandedOutIff(s: State, f: Fragment)
    requires IsSingle(f)
    ensures HandedOut(s, f) <==> Breaks(s, f)
    ensures !Breaks(s, f) ==> Receive(s, f).ret <= 0 && Receive(s, f).packet == []
  {
  }

  ghost predicate AllSingle(fs: seq<Fragment>) {
    forall k | 0 <= k < |fs| :: IsSingle(fs[k])
  }

  function PayloadsOf(fs: seq<Fragment>): (ps: seq<seq<byte>>)
    ensures |ps| == |fs| && forall k | 0 <= k < |fs| :: ps[k] == fs[k].payload
  {
    seq(|fs|, k requires 0 <= k < |fs| => fs[k].payload)
  }

  /** Whatever numbers they carry, packets in one fragment each come out as sent, none lost and none twice. */
  lemma {:induction false} SinglesComeOutInOrder(s: State, fs: seq<Fragment>)
    requires AllSingle(fs) && (fs != [] ==> Breaks(s, fs[0]))
    ensures Emissions(s, fs).0 == PayloadsOf(fs)
    ensures fs != [] ==> Emissions(s, fs).1 == State(Succ(fs[|fs| - 1].seqno), true, ForStart, [])
    decreases |fs|
  {
    if fs != [] {
      var front, f := fs[..|fs| - 1], fs[|fs| - 1];
      SinglesComeOutInOrder(s, front);
      SingleIsHandedOutIff(Emissions(s, front).1, f);
      assert PayloadsOf(fs) == PayloadsOf(front) + [f.payload];
    }
  }

  /** After a gap a first fragment does what it does in a new reassembler; any other leaves it without a packet. */
  lemma GapStartsOver(s: State, f: Fragment)
    requires s.synced && f.seqno != s.serialNo
    ensures var o := Receive(s, f);
      if IsSingle(f) || IsStart(f) then o == Receive(State(s.serialNo, false, ForStart, []), f)
      else o == Outcome(0, [], State(s.serialNo, false, ForStart, []))
  {
  }

  /** An error is answered for a fragment that is none of a packet's first, and for one too long for its packet. */
  lemma ErrorIff(s: State, f: Fragment)
    ensures Receive(s, f).ret < 0 <==>
            && !(s.synced && f.seqno != s.serialNo)
            && if s.wait == ForStart then !IsSingle(f) && !IsStart(f)
               else |s.buffer| + |f.payload| >= PACKET_BUFFER_LENGTH
    ensures -1 <= Receive(s, f).ret <= 1
  {
  }

  /** A start that is too long for the buffer leaves the synchronisation as it was. */
  lemma LongStartKeepsSync(s: State, f: Fragment)
    requires s.wait == ForStart && s.buffer == [] && !(s.synced && f.seqno != s.serialNo)
    requires IsStart(f) && !IsSingle(f) && |f.payload| >= PACKET_BUFFER_LENGTH
    ensures var o := Receive(s, f);
      o.ret == 0 && o.next == State(if s.synced then Succ(f.seqno) else s.serialNo, s.synced, ForStart, [])
  {
  }

  class Assembler {
    var serialNo: byte
    var synced: bool
    var wait: Wait
    const packetBuffer: array<byte>
    var packetBufLen: nat

    ghost predicate Valid()
      reads this
    {
      packetBuffer.Length == PACKET_BUFFER_LENGTH && packetBufLen <= PACKET_BUFFER_LENGTH
    }

    ghost function View(): State
      requires Valid()
      reads this, packetBuffer
    {
      State(serialNo, synced, wait, packetBuffer[..packetBufLen])
    }

    constructor ()
      ensures Valid() && fresh(packetBuffer) && View() == INITIAL
    {
      packetBuffer := new byte[PACKET_BUFFER_LENGTH](_ => 0);
      serialNo, synced, wait, packetBufLen := 0xff, false, ForStart, 0;
    }

    method ResetAssembly()
      requires Valid()
      modifies this`synced, this`wait, this`packetBufLen
      ensures Valid() && View() == Reset(old(View()))
    {
      synced, wait, packetBufLen := false, ForStart, 0;
    }

    /** Copies a payload into the packet buffer. */
    method Put(at: nat, payload: seq<byte>)
      requires Valid() && at + |payload| <= PACKET_BUFFER_LENGTH
      modifies packetBuffer
      ensures packetBuffer[..at] == old(packetBuffer[..at])
      ensures packetBuffer[at..at + |payload|] == payload
    {
      forall k | 0 <= k < |payload| {
        packetBuffer[at + k] := payload[k];
      }
    }

    /**
     * One fragment; when it completes a packet, the first `outLen` bytes of the buffer are that packet. Nothing is
     * described once the copy leaves the buffer.
     */
    method Assemble(input: seq<byte>) returns (ret: int, outLen: nat, overrun: bool)
      requires Valid() && |input| >= 2
      modifies this`serialNo, this`synced, this`wait, this`packetBufLen, packetBuffer
      ensures Valid() && outLen <= PACKET_BUFFER_LENGTH
      ensures overrun <==> Overruns(old(View()), Fragment(input[0], input[1], input[2..]))
      ensures !overrun ==>
                var o := Receive(old(View()), Fragment(input[0], input[1], input[2..]));
                ret == o.ret && View() == o.next && packetBuffer[..outLen] == o.packet
    {
      var f := Fragment(input[0], input[1], input[2..]);
      outLen, overrun := 0, false;
      if synced {
        if f.seqno != serialNo {
          ResetAssembly();
          if !IsSingle(f) && !IsStart(f) {
            ret := 0;
            return;
          }
          ret, outLen, overrun := Start(f);
          return;
        }
        serialNo := Succ(f.seqno);
      }
      if wait == ForStart {
        ret, outLen, overrun := Start(f);
      } else {
        ret, outLen := Continue(f);
      }
    }

    method Start(f: Fragment) returns (ret: int, outLen: nat, overrun: bool)
      requires Valid() && wait == ForStart
      modifies this`serialNo, this`synced, this`wait, this`packetBufLen, packetBuffer
      ensures Valid() && outLen <= PACKET_BUFFER_LENGTH
      ensures overrun <==> IsSingle(f) && |f.payload| > PACKET_BUFFER_LENGTH
      ensures !overrun ==>
                var o := AtStart(old(View()), f);
                ret == o.ret && View() == o.next && packetBuffer[..outLen] == o.packet
    {
      outLen, overrun := 0, false;
      if IsSingle(f) {
        if |f.payload| > PACKET_BUFFER_LENGTH {
          return 1, 0, true;
        }
        Put(0, f.payload);
        outLen := |f.payload|;
        packetBufLen := 0;
        ret := 1;
      } else if IsStart(f) {
        ret := 0;
        if packetBufLen + |f.payload| >= PACKET_BUFFER_LENGTH {
          packetBufLen := 0;
          return;
        }
        Put(0, f.payload);
        packetBufLen := |f.payload|;
        wait := ForLast;
      } else {
        ret := -1;
      }
      if ret >= 0 && !synced {
        synced, serialNo := true, Succ(f.seqno);
      }
    }

    method Continue(f: Fragment) returns (ret: int, outLen: nat)
      requires Valid()
      modifies this`wait, this`packetBufLen, packetBuffer
      ensures Valid() && outLen <= PACKET_BUFFER_LENGTH
      ensures var o := AtLast(old(View()), f);
              ret == o.ret && View() == o.next && packetBuffer[..outLen] == o.packet
    {
      outLen := 0;
      if packetBufLen + |f.payload| >= PACKET_BUFFER_LENGTH {
        packetBufLen := 0;
        wait := ForStart;
        return -1, 0;
      }
      Put(packetBufLen, f.payload);
      assert packetBuffer[..packetBufLen + |f.payload|] == packetBuffer[..packetBufLen] + f.payload;
      packetBufLen := packetBufLen + |f.payload|;
      ret := 0;
      if IsLast(f) {
        outLen := packetBufLen;
        packetBufLen := 0;
        ret := 1;
        wait := ForStart;
      }
    }
  }
}

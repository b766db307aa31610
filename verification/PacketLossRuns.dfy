/** What the packet loss detection says over whole streams of packets. */
module PacketLossRuns {
  import opened Bytes
  import opened CrcRegisters
  import opened MsbcPackets
  import opened PacketLoss

  /** A packet with the transmitter's offset at the time. */
  datatype Received = Received(p: Pkt, index: nat)

  type Receipts = rs: seq<Received> | forall r | r in rs :: r.index < PACKET_SIZE

  function Fold<S, A>(step: (S, A) -> S, start: S, inputs: seq<A>): S {
    if inputs == [] then start
    else step(Fold(step, start, inputs[..|inputs| - 1]), inputs[|inputs| - 1])
  }

  lemma {:induction false} FoldGoesOn<S, A>(step: (S, A) -> S, start: S, a: seq<A>, b: seq<A>)
    ensures Fold(step, start, a + b) == Fold(step, Fold(step, start, a), b)
    decreases |b|
  {
    if b == [] {
      assert a + b == a;
    } else {
      var n := |b| - 1;
      assert (a + b)[..|a| + n] == a + b[..n];
      FoldGoesOn(step, start, a, b[..n]);
    }
  }

  function JudgeStep(pattern: byte): (Detector, Received) -> Detector {
    (d: Detector, r: Received) => if r.index < PACKET_SIZE then Judge(d, r.p, pattern, r.index).0 else d
  }

  /** The detector after a stream. */
  function After(pattern: byte, d0: Detector, rs: Receipts): Detector {
    Fold(JudgeStep(pattern), d0, rs)
  }

  /** The verdict on packet k of a stream. */
  function Verdict(pattern: byte, d0: Detector, rs: Receipts, k: nat): PlcType
    requires k < |rs|
  {
    Judge(After(pattern, d0, rs[..k]), rs[k].p, pattern, rs[k].index).1
  }

  lemma AfterStep(pattern: byte, d0: Detector, rs: Receipts, k: nat)
    requires k < |rs|
    ensures After(pattern, d0, rs[..k + 1]) == Judge(After(pattern, d0, rs[..k]), rs[k].p, pattern, rs[k].index).0
  {
    assert rs[..k + 1][..k] == rs[..k];
  }

  /** The verdicts behind a first part of the stream start from where that part ended. */
  lemma AfterGoesOn(pattern: byte, d0: Detector, rs: Receipts, g: nat, k: nat)
    requires g + k <= |rs|
    ensures After(pattern, After(pattern, d0, rs[..g]), rs[g..][..k]) == After(pattern, d0, rs[..g + k])
  {
    assert rs[..g + k] == rs[..g] + rs[g..][..k];
    FoldGoesOn(JudgeStep(pattern), d0, rs[..g], rs[g..][..k]);
  }

  lemma VerdictGoesOn(pattern: byte, d0: Detector, rs: Receipts, g: nat, k: nat)
    requires g + k < |rs|
    ensures Verdict(pattern, After(pattern, d0, rs[..g]), rs[g..], k) == Verdict(pattern, d0, rs, g + k)
  {
    AfterGoesOn(pattern, d0, rs, g, k);
  }

  // ---- Sequence numbers ----

  /** One packet: the new last number is kept for a PASS only, and follows the one before if there was one. */
  lemma PassKeepsNumber(d: Detector, p: Pkt, pattern: byte, index: nat)
    requires index < PACKET_SIZE
    ensures var (d', t) := Judge(d, p, pattern, index);
      && (t == Pass <==> d'.lastSeq != NO_SEQ)
      && (t == Pass ==> ParseHeader(p) == Sequence(d'.lastSeq))
      && (t == Pass && d.lastSeq != NO_SEQ ==> d'.lastSeq == NextSeq(d.lastSeq))
  {
  }

  /** There is a last number exactly after a PASS, and it is the number of that packet. */
  lemma LastSeqIsOfPass(pattern: byte, d0: Detector, rs: Receipts, k: nat)
    requires k < |rs|
    ensures After(pattern, d0, rs[..k + 1]).lastSeq != NO_SEQ <==> Verdict(pattern, d0, rs, k) == Pass
    ensures Verdict(pattern, d0, rs, k) == Pass ==>
              ParseHeader(rs[k].p) == Sequence(After(pattern, d0, rs[..k + 1]).lastSeq)
  {
    AfterStep(pattern, d0, rs, k);
    PassKeepsNumber(After(pattern, d0, rs[..k]), rs[k].p, pattern, rs[k].index);
  }

  /** Two PASS verdicts in a row are on packets with consecutive numbers modulo four. */
  lemma AdjacentPassesAreConsecutive(pattern: byte, d0: Detector, rs: Receipts, k: nat)
    requires k + 1 < |rs| && Verdict(pattern, d0, rs, k) == Pass && Verdict(pattern, d0, rs, k + 1) == Pass
    ensures ParseHeader(rs[k].p).Sequence? && ParseHeader(rs[k + 1].p).Sequence?
    ensures ParseHeader(rs[k + 1].p).sn == NextSeq(ParseHeader(rs[k].p).sn)
  {
    LastSeqIsOfPass(pattern, d0, rs, k);
    PassKeepsNumber(After(pattern, d0, rs[..k + 1]), rs[k + 1].p, pattern, rs[k + 1].index);
  }

  /** The packet is what an encoder makes with number n, whatever its padding. */
  predicate IsEncoded(p: Pkt, n: nat) {
    ValidFrame(p[2..59]) && p[..PACKET_SIZE - 1] == Packet(n, p[2..59])[..PACKET_SIZE - 1]
  }

  /** Nothing but the header is left to be judged. */
  predicate HeaderCounts(d: Detector, p: Pkt, pattern: byte, index: nat)
    requires index < PACKET_SIZE
  {
    !Muted(p, pattern, 0, PACKET_SIZE - 1) && !OffsetMuted(p, pattern, index) && !Conflict(d, p)
  }

  /** An encoder's packet with the number that is due, or any number where none is. */
  predicate IsDue(last: nat, p: Pkt) {
    exists n: nat :: n < 4 && IsEncoded(p, n) && (last == NO_SEQ || n == NextSeq(last))
  }

  lemma HeaderPassesIff(last: nat, p: Pkt)
    ensures JudgeHeader(last, p).1 == Pass <==> IsDue(last, p)
  {
    if JudgeHeader(last, p).1 == Pass {
      HeaderAcceptsIff(p, ParseHeader(p).sn);
      assert IsEncoded(p, ParseHeader(p).sn);
    }
    if IsDue(last, p) {
      var n: nat :| n < 4 && IsEncoded(p, n) && (last == NO_SEQ || n == NextSeq(last));
      HeaderAcceptsIff(p, n);
    }
  }

  /** A packet passes exactly when it is an encoder's with the next number, and neither muted nor repeated. */
  lemma PassIff(d: Detector, p: Pkt, pattern: byte, index: nat)
    requires index < PACKET_SIZE
    ensures Judge(d, p, pattern, index).1 == Pass <==> HeaderCounts(d, p, pattern, index) && IsDue(d.lastSeq, p)
  {
    HeaderPassesIff(d.lastSeq, p);
  }

  /** Why a packet is refused for its header, its CRC or its number: the reasons are asked in this order. */
  lemma RefusalIs(d: Detector, p: Pkt, pattern: byte, index: nat)
    requires index < PACKET_SIZE
    ensures var t := Judge(d, p, pattern, index).1;
      && (t == HeaderError <==> HeaderCounts(d, p, pattern, index) && !StartsLikePacket(p))
      && (t == CrcError <==> HeaderCounts(d, p, pattern, index) && StartsLikePacket(p)
                             && !(p[3] == 0 && p[4] == 0 && HeaderCrc(p) == ByteBits(p[5])))
      && (t == SequenceDiscontinue <==> HeaderCounts(d, p, pattern, index) && ParseHeader(p).Sequence?
                                        && d.lastSeq != NO_SEQ && ParseHeader(p).sn != NextSeq(d.lastSeq))
      && t != PadError && t != DataMissing && t != DecoderError
  {
    ErrorCodeIs(p);
  }

  /** A packet that does not count for its header is muted, muted at the offset, or repeated, asked in this order. */
  lemma NotCountedIs(d: Detector, p: Pkt, pattern: byte, index: nat)
    requires index < PACKET_SIZE
    ensures var t := Judge(d, p, pattern, index).1;
      && (t == ControllerMute <==> p[..59] == seq(59, _ => pattern))
      && (t == TransmitterOffset <==> p[..59] != seq(59, _ => pattern) && OffsetMuted(p, pattern, index))
      && (t == BleConflict <==> p[..59] != seq(59, _ => pattern) && !OffsetMuted(p, pattern, index) && Conflict(d, p))
  {
    MutedSlice(p, pattern, 0, 59);
  }

  lemma MutedSlice(p: Pkt, pattern: byte, lo: nat, hi: nat)
    requires lo <= hi <= PACKET_SIZE
    ensures Muted(p, pattern, lo, hi) <==> p[lo..hi] == seq(hi - lo, _ => pattern)
  {
    if p[lo..hi] == seq(hi - lo, _ => pattern) {
      forall i | lo <= i < hi
        ensures p[i] == pattern
      {
        assert p[i] == p[lo..hi][i - lo];
      }
    }
  }

  /**
   * A packet is found muted at an offset when its front part, up to the offset from the end, is, or, unless it starts
   * with the mute pattern, when all behind that is. Offset 0 is not asked, nor is 1 with the pattern 0.
   */
  lemma OffsetMutedIff(p: Pkt, pattern: byte, index: nat)
    requires index < PACKET_SIZE
    ensures OffsetMuted(p, pattern, index) <==>
            && index != 0 && !(index == 1 && pattern == 0)
            && (p[..60 - index] == seq(60 - index, _ => pattern)
                || (p[0] != pattern && p[60 - index..] == seq(index, _ => pattern)))
  {
    MutedSlice(p, pattern, 0, PACKET_SIZE - index);
    MutedSlice(p, pattern, PACKET_SIZE - index, PACKET_SIZE);
    assert p[0..PACKET_SIZE - index] == p[..60 - index] && p[PACKET_SIZE - index..PACKET_SIZE] == p[60 - index..];
    if p[..60 - index] == seq(60 - index, _ => pattern) {
      assert p[0] == p[..60 - index][0];
    }
    if index > 0 && p[60 - index..] == seq(index, _ => pattern) {
      assert p[59] == p[60 - index..][index - 1];
    }
  }

  /** A good packet with a burst of up to eight bits in its protected bytes is judged a CRC error. */
  lemma BurstIsCrcError(
      d: Detector, p: Pkt, q: Pkt, pattern: byte, index: nat, before: Bits, x: Bits, y: Bits, after: Bits)
    requires index < PACKET_SIZE && ParseHeader(p).Sequence? && q[..3] == p[..3] && q[5] == p[5]
    requires Protected(p) == before + x + after && Protected(q) == before + y + after
    requires |x| == |y| <= 8 && x != y && HeaderCounts(d, q, pattern, index)
    ensures Judge(d, q, pattern, index).1 == CrcError
  {
    HeaderBurstIsDetected(p, q, before, x, y, after);
  }

  // ---- Repeated packets ----

  predicate Asked(t: PlcType) {
    t != ControllerMute && t != TransmitterOffset
  }

  lemma JudgeRemembers(d: Detector, p: Pkt, pattern: byte, index: nat)
    requires index < PACKET_SIZE
    ensures var d' := Judge(d, p, pattern, index).0;
      d'.newer == p && d'.older == d.newer
  {
  }

  lemma NewerIsLast(pattern: byte, d0: Detector, rs: Receipts, k: nat)
    requires k < |rs|
    ensures After(pattern, d0, rs[..k + 1]).newer == rs[k].p
    ensures After(pattern, d0, rs[..k + 1]).older == After(pattern, d0, rs[..k]).newer
  {
    AfterStep(pattern, d0, rs, k);
    JudgeRemembers(After(pattern, d0, rs[..k]), rs[k].p, pattern, rs[k].index);
  }

  lemma MemoryIsLastTwo(pattern: byte, d0: Detector, rs: Receipts, k: nat)
    requires k <= |rs|
    ensures k >= 2 ==> After(pattern, d0, rs[..k]).older == rs[k - 2].p
    ensures k == 1 ==> After(pattern, d0, rs[..k]).older == d0.newer
    ensures k == 0 ==> After(pattern, d0, rs[..k]).older == d0.older
  {
    if k > 0 {
      NewerIsLast(pattern, d0, rs, k - 1);
    }
    if k >= 2 {
      NewerIsLast(pattern, d0, rs, k - 2);
    }
  }

  lemma FlagsRemember(d: Detector, p: Pkt, pattern: byte, index: nat)
    requires index < PACKET_SIZE
    ensures var (d', t) := Judge(d, p, pattern, index);
      && (t == BleConflict ==> !d.flag1 && d.older[..PACKET_SIZE - 1] == p[..PACKET_SIZE - 1])
      && (Asked(t) ==> (d'.flag0 <==> t == BleConflict) && d'.flag1 == d.flag0)
  {
  }

  lemma FlagsAfter(pattern: byte, d0: Detector, rs: Receipts, k: nat)
    requires k < |rs|
    ensures Verdict(pattern, d0, rs, k) == BleConflict ==> !After(pattern, d0, rs[..k]).flag1
    ensures Asked(Verdict(pattern, d0, rs, k)) ==>
              && (After(pattern, d0, rs[..k + 1]).flag0 <==> Verdict(pattern, d0, rs, k) == BleConflict)
              && After(pattern, d0, rs[..k + 1]).flag1 == After(pattern, d0, rs[..k]).flag0
  {
    AfterStep(pattern, d0, rs, k);
    FlagsRemember(After(pattern, d0, rs[..k]), rs[k].p, pattern, rs[k].index);
  }

  /** A packet that is not asked about repetition: it is muted, or its part at the offset is. */
  predicate IsMute(pattern: byte, r: Received)
    requires r.index < PACKET_SIZE
  {
    Muted(r.p, pattern, 0, PACKET_SIZE - 1) || OffsetMuted(r.p, pattern, r.index)
  }

  /** What becomes of the flags, and when a packet is judged a conflict. */
  lemma FlagsOfStep(pattern: byte, d0: Detector, rs: Receipts, k: nat)
    requires k < |rs|
    ensures var d, d', t := After(pattern, d0, rs[..k]), After(pattern, d0, rs[..k + 1]), Verdict(pattern, d0, rs, k);
      && (t == BleConflict <==> !IsMute(pattern, rs[k]) && Conflict(d, rs[k].p))
      && (if IsMute(pattern, rs[k]) then d'.flag0 == d.flag0 && d'.flag1 == d.flag1
          else d'.flag0 == (t == BleConflict) && d'.flag1 == d.flag0)
  {
    AfterStep(pattern, d0, rs, k);
  }

  /** A conflict verdict means the packet before the last came again. */
  lemma ConflictIsRepetition(pattern: byte, d0: Detector, rs: Receipts, k: nat)
    requires k + 2 < |rs| && Verdict(pattern, d0, rs, k + 2) == BleConflict
    ensures rs[k + 2].p[..PACKET_SIZE - 1] == rs[k].p[..PACKET_SIZE - 1]
  {
    MemoryIsLastTwo(pattern, d0, rs, k + 2);
    FlagsOfStep(pattern, d0, rs, k + 2);
  }

  /** Where the packet between is asked, a conflict is not reported again two packets later. */
  lemma ConflictIsNotReportedTwice(pattern: byte, d0: Detector, rs: Receipts, k: nat)
    requires k + 2 < |rs| && Asked(Verdict(pattern, d0, rs, k + 1))
    requires Verdict(pattern, d0, rs, k) == BleConflict
    ensures Verdict(pattern, d0, rs, k + 2) != BleConflict
  {
    FlagsAfter(pattern, d0, rs, k);
    FlagsAfter(pattern, d0, rs, k + 1);
    FlagsAfter(pattern, d0, rs, k + 2);
  }

  /** The last packet before k that was asked, or -1. */
  function LastAsked(pattern: byte, rs: Receipts, k: nat): (j: int)
    requires k <= |rs|
    ensures -1 <= j < k
  {
    if k == 0 then -1 else if !IsMute(pattern, rs[k - 1]) then k - 1 else LastAsked(pattern, rs, k - 1)
  }

  /** The last packet before k that was asked was judged a conflict. */
  predicate ConflictBefore(pattern: byte, d0: Detector, rs: Receipts, k: nat)
    requires k <= |rs|
  {
    var j := LastAsked(pattern, rs, k);
    if j < 0 then d0.flag0 else Verdict(pattern, d0, rs, j) == BleConflict
  }

  lemma {:induction false} FlagIsConflictBefore(pattern: byte, d0: Detector, rs: Receipts, k: nat)
    requires k <= |rs|
    ensures After(pattern, d0, rs[..k]).flag0 <==> ConflictBefore(pattern, d0, rs, k)
    decreases k
  {
    if k > 0 {
      FlagIsConflictBefore(pattern, d0, rs, k - 1);
      FlagsOfStep(pattern, d0, rs, k - 1);
    }
  }

  /**
   * A conflict is reported again two packets later exactly when the same packet comes a third time and is asked, the
   * one between is not, and the last one asked before the first report was no conflict.
   */
  lemma SecondReportIff(pattern: byte, d0: Detector, rs: Receipts, k: nat)
    requires k + 2 < |rs| && Verdict(pattern, d0, rs, k) == BleConflict
    ensures Verdict(pattern, d0, rs, k + 2) == BleConflict <==>
            && IsMute(pattern, rs[k + 1]) && !IsMute(pattern, rs[k + 2])
            && rs[k + 2].p[..PACKET_SIZE - 1] == rs[k].p[..PACKET_SIZE - 1]
            && !ConflictBefore(pattern, d0, rs, k)
  {
    MemoryIsLastTwo(pattern, d0, rs, k + 2);
    FlagIsConflictBefore(pattern, d0, rs, k);
    FlagsOfStep(pattern, d0, rs, k);
    FlagsOfStep(pattern, d0, rs, k + 1);
    FlagsOfStep(pattern, d0, rs, k + 2);
  }

  /** From the start: a packet that comes again behind a muted one is a conflict, with none before it. */
  lemma RepeatedIsConflict(pattern: byte, rs: Receipts)
    requires |rs| >= 3 && rs[2] == rs[0] && !IsMute(pattern, rs[0]) && IsMute(pattern, rs[1])
    requires rs[0].p[..PACKET_SIZE - 1] != Initial().older[..PACKET_SIZE - 1]
    ensures Verdict(pattern, Initial(), rs, 2) == BleConflict && !ConflictBefore(pattern, Initial(), rs, 2)
  {
    assert rs[..0] == [];
    FlagsOfStep(pattern, Initial(), rs, 0);
    FlagsOfStep(pattern, Initial(), rs, 1);
    MemoryIsLastTwo(pattern, Initial(), rs, 2);
    FlagsOfStep(pattern, Initial(), rs, 2);
    FlagIsConflictBefore(pattern, Initial(), rs, 2);
  }

  /** Coming a third time behind another muted one, it is reported again. */
  lemma ReportedTwice(pattern: byte, x: Received, m: Received)
    requires x.index < PACKET_SIZE && m.index < PACKET_SIZE && !IsMute(pattern, x) && IsMute(pattern, m)
    requires x.p[..PACKET_SIZE - 1] != Initial().older[..PACKET_SIZE - 1]
    ensures var rs: Receipts := [x, m, x, m, x];
      Verdict(pattern, Initial(), rs, 2) == BleConflict && Verdict(pattern, Initial(), rs, 4) == BleConflict
  {
    var rs: Receipts := [x, m, x, m, x];
    RepeatedIsConflict(pattern, rs);
    SecondReportIff(pattern, Initial(), rs, 2);
  }

  /** There are such packets. */
  lemma ToneIsReportedTwice()
    ensures var x, m := Received(seq<byte>(PACKET_SIZE, _ => 7), 0), Received(seq<byte>(PACKET_SIZE, _ => 0), 0);
      var rs: Receipts := [x, m, x, m, x];
      Verdict(0, Initial(), rs, 2) == BleConflict && Verdict(0, Initial(), rs, 4) == BleConflict
  {
    var x, m := Received(seq<byte>(PACKET_SIZE, _ => 7), 0), Received(seq<byte>(PACKET_SIZE, _ => 0), 0);
    assert x.p[0] == 7 && x.p[..PACKET_SIZE - 1][0] != Initial().older[..PACKET_SIZE - 1][0];
    ReportedTwice(0, x, m);
  }

  // ---- A continuous stream from the encoder ----

  /** Nothing that could be a packet is remembered, as at the start. */
  predicate Fresh(d: Detector) {
    d.lastSeq == NO_SEQ && d.older[0] != HEADER && d.newer[0] != HEADER
  }

  lemma InitialIsFresh()
    ensures Fresh(Initial())
  {
  }

  /** A stray packet, which does not start with the header byte, never passes and leaves nothing to go by. */
  lemma StrayKeepsFresh(d: Detector, p: Pkt, pattern: byte, index: nat)
    requires Fresh(d) && p[0] != HEADER && index < PACKET_SIZE
    ensures Fresh(Judge(d, p, pattern, index).0) && Judge(d, p, pattern, index).1 != Pass
  {
    PassKeepsNumber(d, p, pattern, index);
    JudgeRemembers(d, p, pattern, index);
  }

  /** Frame k of the stream, sent with the number of its turn. */
  predicate Sent(frames: seq<seq<byte>>, start: nat, rs: Receipts) {
    && |rs| == |frames| && start < 4
    && forall k | 0 <= k < |frames| :: IsSent(frames, start, rs, k)
  }

  predicate IsSent(frames: seq<seq<byte>>, start: nat, rs: Receipts, k: nat)
    requires k < |frames| == |rs| && start < 4
  {
    ValidFrame(frames[k]) && rs[k].p == Packet(Turn(start, k), frames[k])
  }

  /** The one false alarm: the offset test takes zeros at the end of the frame, with the padding, for a muted part. */
  predicate LooksMuted(pattern: byte, p: Pkt, index: nat)
    requires index < PACKET_SIZE
  {
    pattern == 0 && index > 1 && Muted(p, 0, PACKET_SIZE - index, PACKET_SIZE)
  }

  lemma PacketParses(n: nat, frame: seq<byte>)
    requires n < 4 && ValidFrame(frame)
    ensures ParseHeader(Packet(n, frame)) == Sequence(n)
  {
    assert Packet(n, frame)[2..59] == frame;
    HeaderAcceptsIff(Packet(n, frame), n);
  }

  lemma CodesDiffer(a: nat, b: nat, f: seq<byte>, g: seq<byte>)
    requires a < 4 && b < 4 && a != b && |f| == |g| == CODEC_SIZE
    ensures Packet(a, f)[..PACKET_SIZE - 1] != Packet(b, g)[..PACKET_SIZE - 1]
  {
    assert Packet(a, f)[..PACKET_SIZE - 1][1] == SeqCode(a) && Packet(b, g)[..PACKET_SIZE - 1][1] == SeqCode(b);
  }

  /** No conflict is ever seen: the packet before the last had another number, and the initial memory is no packet. */
  lemma NoConflict(pattern: byte, d0: Detector, frames: seq<seq<byte>>, start: nat, rs: Receipts, k: nat)
    requires Fresh(d0) && Sent(frames, start, rs) && k < |rs|
    ensures !Conflict(After(pattern, d0, rs[..k]), rs[k].p)
  {
    MemoryIsLastTwo(pattern, d0, rs, k);
    assert IsSent(frames, start, rs, k);
    if k >= 2 {
      assert IsSent(frames, start, rs, k - 2);
      assert Turn(start, k) == NextSeq(NextSeq(Turn(start, k - 2)));
      CodesDiffer(Turn(start, k), Turn(start, k - 2), frames[k], frames[k - 2]);
    } else {
      assert rs[k].p[..PACKET_SIZE - 1][0] == HEADER;
      var older := After(pattern, d0, rs[..k]).older;
      assert older[..PACKET_SIZE - 1][0] == older[0] != HEADER;
    }
  }

  lemma OffsetTest(pattern: byte, n: nat, frame: seq<byte>, index: nat)
    requires pattern != HEADER && index < PACKET_SIZE && |frame| == CODEC_SIZE
    ensures OffsetMuted(Packet(n, frame), pattern, index) <==> LooksMuted(pattern, Packet(n, frame), index)
    ensures !Muted(Packet(n, frame), pattern, 0, PACKET_SIZE - 1)
  {
    var p := Packet(n, frame);
    assert p[0] == HEADER && p[PACKET_SIZE - 1] == PADDING;
  }

  lemma LastIsTurn(pattern: byte, d0: Detector, frames: seq<seq<byte>>, start: nat, rs: Receipts, k: nat)
    requires Sent(frames, start, rs) && k < |rs| && Verdict(pattern, d0, rs, k) == Pass
    ensures After(pattern, d0, rs[..k + 1]).lastSeq == Turn(start, k)
  {
    assert IsSent(frames, start, rs, k);
    PacketParses(Turn(start, k), frames[k]);
    LastSeqIsOfPass(pattern, d0, rs, k);
  }

  lemma NumberFits(pattern: byte, d0: Detector, frames: seq<seq<byte>>, start: nat, rs: Receipts, k: nat)
    requires Fresh(d0) && Sent(frames, start, rs) && k < |rs|
    requires k > 0 ==> Verdict(pattern, d0, rs, k - 1) == Pass
    ensures var last := After(pattern, d0, rs[..k]).lastSeq;
      last == NO_SEQ || Turn(start, k) == NextSeq(last)
  {
    if k > 0 {
      LastIsTurn(pattern, d0, frames, start, rs, k - 1);
    }
  }

  lemma GoodPacketVerdict(d: Detector, p: Pkt, n: nat, frame: seq<byte>, pattern: byte, index: nat)
    requires pattern != HEADER && index < PACKET_SIZE && n < 4 && ValidFrame(frame) && p == Packet(n, frame)
    requires !Conflict(d, p) && (d.lastSeq == NO_SEQ || n == NextSeq(d.lastSeq))
    ensures Judge(d, p, pattern, index).1 == if LooksMuted(pattern, p, index) then TransmitterOffset else Pass
  {
    OffsetTest(pattern, n, frame, index);
    PacketParses(n, frame);
  }

  /** One packet: it passes exactly when it does not look muted, if the packets before passed. */
  lemma SentVerdict(pattern: byte, d0: Detector, frames: seq<seq<byte>>, start: nat, rs: Receipts, k: nat)
    requires pattern != HEADER && Fresh(d0) && Sent(frames, start, rs) && k < |rs|
    requires k > 0 ==> Verdict(pattern, d0, rs, k - 1) == Pass
    ensures Verdict(pattern, d0, rs, k) == if LooksMuted(pattern, rs[k].p, rs[k].index) then TransmitterOffset else Pass
  {
    assert IsSent(frames, start, rs, k);
    var d := After(pattern, d0, rs[..k]);
    assert !Conflict(d, rs[k].p) by {
      NoConflict(pattern, d0, frames, start, rs, k);
    }
    assert d.lastSeq == NO_SEQ || Turn(start, k) == NextSeq(d.lastSeq) by {
      NumberFits(pattern, d0, frames, start, rs, k);
    }
    GoodPacketVerdict(d, rs[k].p, Turn(start, k), frames[k], pattern, rs[k].index);
  }

  lemma {:induction false} PassesUpTo(
      pattern: byte, d0: Detector, frames: seq<seq<byte>>, start: nat, rs: Receipts, k: nat)
    requires pattern != HEADER && Fresh(d0) && Sent(frames, start, rs) && k < |rs|
    requires NoneLooksMuted(pattern, rs, 0)
    ensures Verdict(pattern, d0, rs, k) == Pass
    decreases k
  {
    if k > 0 {
      PassesUpTo(pattern, d0, frames, start, rs, k - 1);
    }
    SentVerdict(pattern, d0, frames, start, rs, k);
  }

  /** Every packet from `from` on passes. */
  ghost predicate AllPass(pattern: byte, d0: Detector, rs: Receipts, from: nat) {
    forall k | from <= k < |rs| :: Verdict(pattern, d0, rs, k) == Pass
  }

  ghost predicate NoneLooksMuted(pattern: byte, rs: Receipts, from: nat) {
    forall k | from <= k < |rs| :: !LooksMuted(pattern, rs[k].p, rs[k].index)
  }

  /** A continuous stream of the encoder passes at every packet if and only if no packet looks muted at its offset. */
  lemma ContinuousStreamPassesIff(pattern: byte, d0: Detector, frames: seq<seq<byte>>, start: nat, rs: Receipts)
    requires pattern != HEADER && Fresh(d0) && Sent(frames, start, rs)
    ensures AllPass(pattern, d0, rs, 0) <==> NoneLooksMuted(pattern, rs, 0)
  {
    if NoneLooksMuted(pattern, rs, 0) {
      forall k | 0 <= k < |rs|
        ensures Verdict(pattern, d0, rs, k) == Pass
      {
        PassesUpTo(pattern, d0, frames, start, rs, k);
      }
    } else if AllPass(pattern, d0, rs, 0) {
      var k :| 0 <= k < |rs| && LooksMuted(pattern, rs[k].p, rs[k].index);
      SentVerdict(pattern, d0, frames, start, rs, k);
    }
  }

  lemma AllPassGoesOn(pattern: byte, d0: Detector, rs: Receipts, g: nat)
    requires g <= |rs|
    ensures AllPass(pattern, d0, rs, g) <==> AllPass(pattern, After(pattern, d0, rs[..g]), rs[g..], 0)
    ensures NoneLooksMuted(pattern, rs, g) <==> NoneLooksMuted(pattern, rs[g..], 0)
  {
    var d1, tail := After(pattern, d0, rs[..g]), rs[g..];
    forall k | 0 <= k < |tail|
      ensures Verdict(pattern, d1, tail, k) == Verdict(pattern, d0, rs, g + k) && tail[k] == rs[g + k]
    {
      VerdictGoesOn(pattern, d0, rs, g, k);
    }
    if AllPass(pattern, d1, tail, 0) {
      forall k | g <= k < |rs|
        ensures Verdict(pattern, d0, rs, k) == Pass
      {
        assert Verdict(pattern, d1, tail, k - g) == Pass;
      }
    }
    if NoneLooksMuted(pattern, tail, 0) {
      forall k | g <= k < |rs|
        ensures !LooksMuted(pattern, rs[k].p, rs[k].index)
      {
        assert !LooksMuted(pattern, tail[k - g].p, tail[k - g].index);
      }
    }
  }

  /** With the offsets 0 and 59 of an aligned sender, or another mute pattern than zero, every packet passes. */
  lemma AlignedStreamPasses(pattern: byte, d0: Detector, frames: seq<seq<byte>>, start: nat, rs: Receipts, k: nat)
    requires pattern != HEADER && Fresh(d0) && Sent(frames, start, rs) && k < |rs|
    requires pattern != 0 || forall r | r in rs :: r.index <= 1 || r.index >= 58
    ensures Verdict(pattern, d0, rs, k) == Pass
  {
    forall j | 0 <= j < |rs|
      ensures !LooksMuted(pattern, rs[j].p, rs[j].index)
    {
      assert IsSent(frames, start, rs, j) && rs[j] in rs;
      assert rs[j].p[2] == SYNC_WORD;
    }
    PassesUpTo(pattern, d0, frames, start, rs, k);
  }

  // ---- The histogram ----

  /** The counters after a sequence of reports: a verdict for each packet, and decoder errors reported afterwards. */
  function Counted(reports: seq<PlcType>): Histogram {
    if reports == [] then seq(PLC_TYPE_NUM, _ => 0)
    else Count(Counted(reports[..|reports| - 1]), reports[|reports| - 1])
  }

  function Times(reports: seq<PlcType>, t: PlcType): nat {
    if reports == [] then 0
    else Times(reports[..|reports| - 1], t) + if reports[|reports| - 1] == t then 1 else 0
  }

  lemma StepModulo(c: nat, n: nat)
    requires c == n % WORD
    ensures Increment(c) == (n + 1) % WORD
  {
  }

  lemma AddModulo(a: nat, b: nat, d: nat)
    requires a % WORD == b % WORD
    ensures (a + d) % WORD == (b + d) % WORD
  {
    var q := a / WORD - b / WORD;
    assert a + d == (b + d) + q * WORD;
  }

  lemma PlusWord(e: nat)
    ensures (WORD + e) % WORD == e % WORD
  {
  }

  lemma UpBothModulo(c: nat, e: nat, n: nat)
    requires c < WORD && (c + e) % WORD == n % WORD
    ensures (Increment(c) + e) % WORD == (n + 1) % WORD
  {
    AddModulo(c + e, n, 1);
    if c + 1 == WORD {
      PlusWord(e);
      assert Increment(c) == 0;
    } else {
      assert Increment(c) == c + 1;
    }
  }

  lemma DownBothModulo(c: nat, e: nat, n: nat)
    requires c < WORD && (c + e) % WORD == n % WORD
    ensures (Decrement(c) + (e + 1)) % WORD == n % WORD
  {
    if c == 0 {
      PlusWord(e);
      assert Decrement(c) == WORD - 1;
    } else {
      PlusWord(c - 1);
      assert Decrement(c) == c - 1;
    }
  }

  /** Each counter holds how often its verdict came, modulo 2^32; decoder errors are taken back from PASS. */
  lemma {:induction false} CountersCount(reports: seq<PlcType>, t: PlcType)
    ensures t != Pass ==> Counted(reports)[t.Index()] == Times(reports, t) % WORD
    ensures (Counted(reports)[0] + Times(reports, DecoderError)) % WORD == Times(reports, Pass) % WORD
    ensures Counted(reports)[0] < WORD
    decreases |reports|
  {
    if reports != [] {
      var before, r := reports[..|reports| - 1], reports[|reports| - 1];
      CountersCount(before, t);
      var h := Counted(before);
      UpBothModulo(h[0], Times(before, DecoderError), Times(before, Pass));
      DownBothModulo(h[0], Times(before, DecoderError), Times(before, Pass));
      if r == t && t != Pass {
        StepModulo(h[t.Index()], Times(before, t));
      }
    }
  }

  function Sum(h: seq<nat>): nat {
    if h == [] then 0 else Sum(h[..|h| - 1]) + h[|h| - 1]
  }

  lemma {:induction false} SumUpdate(h: seq<nat>, i: nat, v: nat)
    requires i < |h|
    ensures Sum(h[i := v]) == Sum(h) - h[i] + v
    decreases |h|
  {
    var n := |h| - 1;
    if i == n {
      assert h[i := v][..n] == h[..n];
    } else {
      assert h[i := v][..n] == h[..n][i := v];
      SumUpdate(h[..n], i, v);
    }
  }

  lemma {:induction false} SumAtLeast(h: seq<nat>, i: nat)
    requires i < |h|
    ensures h[i] <= Sum(h)
    decreases |h|
  {
    if i < |h| - 1 {
      SumAtLeast(h[..|h| - 1], i);
    }
  }

  /** The packets behind the reports: all but the decoder errors, which report on a packet already counted. */
  function Packets(reports: seq<PlcType>): nat {
    if reports == [] then 0
    else Packets(reports[..|reports| - 1]) + if reports[|reports| - 1].DecoderError? then 0 else 1
  }

  lemma SumOfZeros(n: nat)
    ensures Sum(seq(n, _ => 0)) == 0
  {
    if n > 0 {
      assert seq(n, _ => 0)[..n - 1] == seq(n - 1, _ => 0);
      SumOfZeros(n - 1);
    }
  }

  lemma CountOne(h: Histogram, t: PlcType)
    ensures Sum(Count(h, t)) % WORD == (Sum(h) + if t.DecoderError? then 0 else 1) % WORD
  {
    var h' := if t.DecoderError? then h[0 := Decrement(h[0])] else h;
    SumAtLeast(h, 0);
    SumAtLeast(h', t.Index());
    SumUpdate(h, 0, Decrement(h[0]));
    SumUpdate(h', t.Index(), Increment(h'[t.Index()]));
    WrapKeepsResidue(Sum(h'), h'[t.Index()]);
    WrapBackKeepsResidue(Sum(h), h[0]);
  }

  /** The counters always add up to the packets processed, modulo 2^32, whatever decoder errors are reported between. */
  lemma {:induction false} CountersAddUp(reports: seq<PlcType>)
    ensures Sum(Counted(reports)) % WORD == Packets(reports) % WORD
    decreases |reports|
  {
    if reports == [] {
      SumOfZeros(PLC_TYPE_NUM);
    } else {
      var before, r := reports[..|reports| - 1], reports[|reports| - 1];
      CountersAddUp(before);
      CountOne(Counted(before), r);
      AddModulo(Sum(Counted(before)), Packets(before), if r.DecoderError? then 0 else 1);
    }
  }

  lemma WrapKeepsResidue(s: nat, c: nat)
    requires c <= s
    ensures (s - c + Increment(c)) % WORD == (s + 1) % WORD
  {
    var q := (c + 1) / WORD;
    assert s + 1 == s - c + Increment(c) + q * WORD;
  }

  lemma WrapBackKeepsResidue(s: nat, c: nat)
    requires c <= s
    ensures (s - c + Decrement(c) + 1) % WORD == s % WORD
  {
    var q := (c + WORD - 1) / WORD;
    assert s - c + Decrement(c) + 1 == s + WORD - q * WORD;
  }
}

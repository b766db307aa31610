/** Judging received mSBC packets (apps/audioplayers/plc_utils.c). */
module PacketLoss {
  import opened Bytes
  import opened MsbcPackets

  /** plc_type_t, in the order of the enumeration. */
  datatype PlcType =
    | Pass | ControllerMute | HeaderError | CrcError | PadError | DataMissing
    | SequenceDiscontinue | BleConflict | DecoderError | TransmitterOffset
  {
    function Index(): (i: nat)
      ensures i < PLC_TYPE_NUM
    {
      match this
      case Pass => 0 case ControllerMute => 1 case HeaderError => 2 case CrcError => 3 case PadError => 4
      case DataMissing => 5 case SequenceDiscontinue => 6 case BleConflict => 7 case DecoderError => 8
      case TransmitterOffset => 9
    }
  }

  const PLC_TYPE_NUM := 10
  const NO_SEQ := 0xff

  /** The detector's memory: the last number, the last two packets (older first), the last two conflict verdicts. */
  datatype Detector = Detector(lastSeq: nat, older: Pkt, newer: Pkt, flag0: bool, flag1: bool)

  /** packet_loss_detection_init */
  function Initial(): Detector {
    Detector(NO_SEQ, seq(PACKET_SIZE, _ => 0), seq(PACKET_SIZE, _ => 0), false, false)
  }

  /** Bytes lo..hi are all the mute pattern. */
  predicate Muted(p: Pkt, pattern: byte, lo: nat, hi: nat)
    requires lo <= hi <= PACKET_SIZE
  {
    forall i | lo <= i < hi :: p[i] == pattern
  }

  /** msbc_check_transmitter_offset: the part of the packet before or behind the transmitter's offset is muted. */
  predicate OffsetMuted(p: Pkt, pattern: byte, index: nat)
    requires index < PACKET_SIZE
  {
    && index != 0 && !(index == 1 && pattern == 0)
    && if p[0] == pattern then Muted(p, pattern, 0, PACKET_SIZE - index)
       else p[PACKET_SIZE - 1] == pattern && Muted(p, pattern, PACKET_SIZE - index, PACKET_SIZE)
  }

  /** The packet repeats the one before the last, and that one was not itself judged a conflict. */
  predicate Conflict(d: Detector, p: Pkt) {
    !d.flag1 && d.older[..PACKET_SIZE - 1] == p[..PACKET_SIZE - 1]
  }

  /** A packet with a good header against the last number. */
  function JudgeSequence(last: nat, sn: nat): (r: (nat, PlcType)) {
    if last == NO_SEQ || sn == NextSeq(last) then (sn, Pass) else (NO_SEQ, SequenceDiscontinue)
  }

  function JudgeHeader(last: nat, p: Pkt): (nat, PlcType) {
    match ParseHeader(p)
    case Error(code) => (NO_SEQ, if code == -4 then CrcError else HeaderError)
    case Sequence(sn) => JudgeSequence(last, sn)
  }

  /** packet_loss_detection_process without its histogram. */
  function Judge(d: Detector, p: Pkt, pattern: byte, index: nat): (r: (Detector, PlcType))
    requires index < PACKET_SIZE
  {
    var seen := d.(older := d.newer, newer := p);
    var conflict := Conflict(d, p);
    if Muted(p, pattern, 0, PACKET_SIZE - 1) then (seen.(lastSeq := NO_SEQ), ControllerMute)
    else if OffsetMuted(p, pattern, index) then (seen.(lastSeq := NO_SEQ), TransmitterOffset)
    else
      var asked := seen.(flag1 := d.flag0, flag0 := conflict);
      if conflict then (asked.(lastSeq := NO_SEQ), BleConflict)
      else
        var (last, verdict) := JudgeHeader(d.lastSeq, p);
        (asked.(lastSeq := last), verdict)
  }

  // ---- The histogram, in 32-bit counters ----

  type Histogram = h: seq<nat> | |h| == PLC_TYPE_NUM witness seq(PLC_TYPE_NUM, _ => 0)

  function Increment(n: nat): nat {
    (n + 1) % WORD
  }

  function Decrement(n: nat): nat {
    (n + WORD - 1) % WORD
  }

  /** packet_loss_detection_update_histogram */
  function Count(h: Histogram, t: PlcType): Histogram {
    var h' := if t.DecoderError? then h[0 := Decrement(h[0])] else h;
    h'[t.Index() := Increment(h'[t.Index()])]
  }

  // ---- The same on the state in memory ----

  /** memcmp_U8: whether the first `size` bytes differ. */
  method MemcmpU8(x: seq<byte>, y: seq<byte>, size: nat) returns (differ: bool)
    requires size <= |x| && size <= |y|
    ensures differ <==> x[..size] != y[..size]
  {
    for i := 0 to size
      invariant x[..i] == y[..i]
    {
      if x[i] != y[i] {
        assert x[..size][i] != y[..size][i];
        return true;
      }
    }
    return false;
  }

  method CheckPattern(p: Pkt, pattern: byte, lo: nat, hi: nat) returns (muted: bool)
    requires lo <= hi <= PACKET_SIZE
    ensures muted <==> Muted(p, pattern, lo, hi)
  {
    for i := lo to hi
      invariant Muted(p, pattern, lo, i)
    {
      if p[i] != pattern {
        return false;
      }
    }
    return true;
  }

  method CheckTransmitterOffset(p: Pkt, pattern: byte, index: nat) returns (muted: bool)
    requires index < PACKET_SIZE
    ensures muted <==> OffsetMuted(p, pattern, index)
  {
    if index == 0 || (index == 1 && pattern == 0) {
      return false;
    }
    if p[0] == pattern {
      muted := CheckPattern(p, pattern, 0, PACKET_SIZE - index);
    } else if p[PACKET_SIZE - 1] == pattern {
      muted := CheckPattern(p, pattern, PACKET_SIZE - index, PACKET_SIZE);
    } else {
      muted := false;
    }
  }

  class PacketLossState {
    var lastSeqNum: nat
    const lastPkt: array<byte>
    const flags: array<bool>
    const hist: array<nat>

    ghost predicate Valid()
      reads this
    {
      lastPkt.Length == 2 * PACKET_SIZE && flags.Length == 2 && hist.Length == PLC_TYPE_NUM
    }

    ghost function View(): Detector
      requires Valid()
      reads this, lastPkt, flags
    {
      Detector(lastSeqNum, lastPkt[..PACKET_SIZE], lastPkt[PACKET_SIZE..], flags[0], flags[1])
    }

    constructor ()
      ensures Valid() && fresh(lastPkt) && fresh(flags) && fresh(hist)
      ensures View() == Initial() && hist[..] == seq(PLC_TYPE_NUM, _ => 0)
    {
      lastSeqNum := NO_SEQ;
      lastPkt := new byte[2 * PACKET_SIZE](_ => 0);
      flags := new bool[2](_ => false);
      hist := new nat[PLC_TYPE_NUM](_ => 0);
    }

    /** update_ble_sco_conflict: compares with the older packet, then remembers the new one. */
    method UpdateBleScoConflict(p: Pkt) returns (conflict: bool)
      requires Valid()
      modifies lastPkt
      ensures conflict == Conflict(old(View()), p)
      ensures View() == old(View()).(older := old(View()).newer, newer := p)
    {
      var differ := MemcmpU8(lastPkt[..PACKET_SIZE], p, PACKET_SIZE - 1);
      conflict := !flags[1] && !differ;
      assert lastPkt[..PACKET_SIZE][..PACKET_SIZE - 1] == View().older[..PACKET_SIZE - 1];
      forall i | 0 <= i < PACKET_SIZE {
        lastPkt[i] := lastPkt[PACKET_SIZE + i];
      }
      assert lastPkt[..PACKET_SIZE] == old(lastPkt[PACKET_SIZE..]);
      forall i | 0 <= i < PACKET_SIZE {
        lastPkt[PACKET_SIZE + i] := p[i];
      }
      assert lastPkt[..PACKET_SIZE] == old(lastPkt[PACKET_SIZE..]) && lastPkt[PACKET_SIZE..] == p;
    }

    /** check_ble_sco_conflict: only a packet that gets this far shifts the flags. */
    method CheckBleScoConflict(ret: bool)
      requires Valid()
      modifies flags
      ensures View() == old(View()).(flag0 := ret, flag1 := old(View()).flag0)
    {
      flags[1] := flags[0];
      flags[0] := ret;
    }

    /** The branch behind the header check; a good header has a number, so the tests for 0xff there are idle. */
    method CheckHeader(p: Pkt) returns (t: PlcType)
      requires Valid()
      modifies this`lastSeqNum
      ensures var (last, verdict) := JudgeHeader(old(lastSeqNum), p);
        t == verdict && View() == old(View()).(lastSeq := last)
    {
      var err, sn := ParseSynchronizationHeader(p);
      if err < 0 && err >= -3 {
        t, lastSeqNum := HeaderError, NO_SEQ;
      } else if err == -4 {
        t, lastSeqNum := CrcError, NO_SEQ;
      } else if lastSeqNum == NO_SEQ || sn == NextSeq(lastSeqNum) {
        assert sn != NO_SEQ;
        t, lastSeqNum := Pass, sn;
      } else {
        t, lastSeqNum := SequenceDiscontinue, NO_SEQ;
      }
    }

    method UpdateHistogram(t: PlcType)
      requires Valid()
      modifies hist
      ensures hist[..] == Count(old(hist[..]), t)
    {
      if t.DecoderError? {
        hist[0] := Decrement(hist[0]);
      }
      hist[t.Index()] := Increment(hist[t.Index()]);
    }

    /** packet_loss_detection_process */
    method Process(p: Pkt, pattern: byte, index: nat) returns (t: PlcType)
      requires Valid() && index < PACKET_SIZE
      modifies this`lastSeqNum, lastPkt, flags, hist
      ensures (View(), t) == Judge(old(View()), p, pattern, index)
      ensures hist[..] == Count(old(hist[..]), t)
    {
      var conflict := UpdateBleScoConflict(p);
      var muted := CheckPattern(p, pattern, 0, PACKET_SIZE - 1);
      var offset := CheckTransmitterOffset(p, pattern, index);
      if muted {
        t, lastSeqNum := ControllerMute, NO_SEQ;
      } else if offset {
        t, lastSeqNum := TransmitterOffset, NO_SEQ;
      } else {
        CheckBleScoConflict(conflict);
        if conflict {
          t, lastSeqNum := BleConflict, NO_SEQ;
        } else {
          t := CheckHeader(p);
        }
      }
      UpdateHistogram(t);
    }
  }
}

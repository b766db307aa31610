/** The custom codec's packet check, which keeps counting through losses (apps/audioplayers/bt_sco_codec_xxxx.c). */
module XxxxDecoder {
  import opened Bytes
  import opened MsbcPackets

  const INVALID := 0xff

  /** get_packet_index */
  function PacketIndex(code: byte): (i: nat)
    ensures i < 4 || i == INVALID
    ensures i < 4 <==> exists n | 0 <= n < 4 :: SeqCode(n) == code
    ensures i < 4 ==> SeqCode(i) == code
  {
    if code == SeqCode(0) then 0 else if code == SeqCode(1) then 1
    else if code == SeqCode(2) then 2 else if code == SeqCode(3) then 3 else INVALID
  }

  /** check_controller_mute_pattern: all but the padding. */
  predicate Muted(p: Pkt, pattern: byte) {
    forall i | 0 <= i < PACKET_SIZE - 1 :: p[i] == pattern
  }

  datatype Verdict = Accepted | BtMute | ParserError | SeqError

  predicate Parses(p: Pkt) {
    p[0] == HEADER && p[PACKET_SIZE - 1] == PADDING
  }

  /** One packet against the expected index, before the index moves on. */
  function Check(expected: nat, p: Pkt, pattern: byte): (r: (nat, Verdict)) {
    var index := PacketIndex(p[1]);
    if Muted(p, pattern) then (expected, BtMute)
    else if !Parses(p) then (expected, ParserError)
    else if expected == INVALID then if index == INVALID then (INVALID, SeqError) else (index, Accepted)
    else if expected != index then (if index < 4 then index else expected, SeqError)
    else (expected, Accepted)
  }

  function MoveOn(expected: nat): nat {
    if expected == INVALID then INVALID else NextSeq(expected)
  }

  // ---- Whole streams ----

  /** The expected index after a stream of packets. */
  function ExpectedAfter(pattern: byte, ps: seq<Pkt>): (e: nat)
    ensures e < 4 || e == INVALID
  {
    if ps == [] then INVALID
    else MoveOn(Check(ExpectedAfter(pattern, ps[..|ps| - 1]), ps[|ps| - 1], pattern).0)
  }

  function VerdictOn(pattern: byte, ps: seq<Pkt>, k: nat): Verdict
    requires k < |ps|
  {
    Check(ExpectedAfter(pattern, ps[..k]), ps[k], pattern).1
  }

  /** A packet that shows a number: neither muted nor badly framed, with one of the four codes. */
  predicate Heard(p: Pkt, pattern: byte) {
    !Muted(p, pattern) && Parses(p) && PacketIndex(p[1]) != INVALID
  }

  /** The number slot k of the sender's stream was sent with, received as it was sent. */
  predicate Intact(pattern: byte, start: nat, ps: seq<Pkt>, k: nat)
    requires start < 4 && k < |ps|
  {
    Heard(ps[k], pattern) && PacketIndex(ps[k][1]) == Turn(start, k)
  }

  /** A packet that shows one of the other numbers. */
  predicate Wrong(pattern: byte, start: nat, ps: seq<Pkt>, k: nat)
    requires start < 4 && k < |ps|
  {
    Heard(ps[k], pattern) && PacketIndex(ps[k][1]) != Turn(start, k)
  }

  /** The last slot before k that showed a number, or -1. */
  function LastHeard(pattern: byte, ps: seq<Pkt>, k: nat): (j: int)
    requires k <= |ps|
    ensures -1 <= j < k && (j >= 0 ==> Heard(ps[j], pattern))
    ensures forall i | j < i < k :: !Heard(ps[i], pattern)
  {
    if k == 0 then -1 else if Heard(ps[k - 1], pattern) then k - 1 else LastHeard(pattern, ps, k - 1)
  }

  /** The decoder counts on from the last number it heard, through whatever it could not use. */
  lemma {:induction false} ExpectedCountsOn(pattern: byte, ps: seq<Pkt>, k: nat)
    requires k <= |ps|
    ensures var j := LastHeard(pattern, ps, k);
      ExpectedAfter(pattern, ps[..k]) == if j < 0 then INVALID else Turn(PacketIndex(ps[j][1]), k - j)
    decreases k
  {
    if k > 0 {
      assert ps[..k][..k - 1] == ps[..k - 1];
      ExpectedCountsOn(pattern, ps, k - 1);
    }
  }

  lemma {:induction false} TurnAdds(start: nat, j: nat, m: nat)
    requires start < 4
    ensures Turn(start, j + m) == Turn(Turn(start, j), m)
    decreases m
  {
    if m > 0 {
      TurnAdds(start, j, m - 1);
    }
  }

  lemma {:induction false} TurnInjective(a: nat, b: nat, m: nat)
    requires a < 4 && b < 4 && Turn(a, m) == Turn(b, m)
    ensures a == b
    decreases m
  {
    if m > 0 {
      TurnInjective(a, b, m - 1);
    }
  }

  /**
   * An intact packet is refused exactly when the last packet that showed a number showed a wrong one; everything that
   * was muted, badly framed or without a number in between does not matter.
   */
  lemma IntactRefusedIff(pattern: byte, start: nat, ps: seq<Pkt>, k: nat)
    requires start < 4 && k < |ps| && Intact(pattern, start, ps, k)
    ensures VerdictOn(pattern, ps, k) != Accepted <==>
            LastHeard(pattern, ps, k) >= 0 && Wrong(pattern, start, ps, LastHeard(pattern, ps, k))
    ensures VerdictOn(pattern, ps, k) == Accepted || VerdictOn(pattern, ps, k) == SeqError
  {
    ExpectedCountsOn(pattern, ps, k);
    var j := LastHeard(pattern, ps, k);
    if j >= 0 {
      TurnAdds(start, j, k - j);
      if Turn(PacketIndex(ps[j][1]), k - j) == Turn(start, k) {
        TurnInjective(PacketIndex(ps[j][1]), Turn(start, j), k - j);
      }
    }
  }

  /** Without wrong numbers every intact packet is accepted, whatever else is lost. */
  lemma LossesCostNothing(pattern: byte, start: nat, ps: seq<Pkt>, k: nat)
    requires start < 4 && k < |ps| && Intact(pattern, start, ps, k)
    requires forall i | 0 <= i < k :: !Wrong(pattern, start, ps, i)
    ensures VerdictOn(pattern, ps, k) == Accepted
  {
    IntactRefusedIff(pattern, start, ps, k);
  }

  // ---- The verdict on any packet whatever ----

  /** All but the last byte are the mute pattern. */
  lemma MutedIff(p: Pkt, pattern: byte)
    ensures Muted(p, pattern) <==> p[..59] == seq(59, _ => pattern)
  {
    if p[..59] == seq(59, _ => pattern) {
      forall i | 0 <= i < PACKET_SIZE - 1
        ensures p[i] == pattern
      {
        assert p[i] == p[..59][i];
      }
    }
  }

  /** A packet that shows a number is what an encoder makes of some payload with that number, and is not muted. */
  lemma HeardIff(p: Pkt, pattern: byte, n: nat)
    requires n < 4
    ensures Heard(p, pattern) && PacketIndex(p[1]) == n <==> !Muted(p, pattern) && p == Packet(n, p[2..59])
  {
    CodeIff(p[1], n);
    assert p == [p[0], p[1]] + p[2..59] + [p[59]];
    var made := Packet(n, p[2..59]);
    assert made[0] == HEADER && made[1] == SeqCode(n) && made[59] == PADDING;
    SeqCodesDiffer();
  }

  lemma SeqCodesDiffer()
    ensures forall a: nat, b: nat :: a < 4 && b < 4 && SeqCode(a) == SeqCode(b) ==> a == b
  {
  }

  /** No packet showed a number before k, or the one at k carries on from the last that did. */
  predicate Continues(pattern: byte, ps: seq<Pkt>, k: nat)
    requires k < |ps|
  {
    var j := LastHeard(pattern, ps, k);
    j < 0 || PacketIndex(ps[k][1]) == Turn(PacketIndex(ps[j][1]), k - j)
  }

  /** A packet is accepted exactly when it shows a number that carries on from the last one shown, if there was one. */
  lemma AcceptedIff(pattern: byte, ps: seq<Pkt>, k: nat)
    requires k < |ps|
    ensures VerdictOn(pattern, ps, k) == Accepted <==> Heard(ps[k], pattern) && Continues(pattern, ps, k)
  {
    ExpectedCountsOn(pattern, ps, k);
  }

  /** Otherwise it is counted as muted, as badly framed, or else as out of sequence. */
  lemma RefusalIs(pattern: byte, ps: seq<Pkt>, k: nat)
    requires k < |ps|
    ensures VerdictOn(pattern, ps, k) == BtMute <==> Muted(ps[k], pattern)
    ensures VerdictOn(pattern, ps, k) == ParserError <==>
            !Muted(ps[k], pattern) && !(ps[k][0] == 0x01 && ps[k][59] == 0x00)
    ensures VerdictOn(pattern, ps, k) == SeqError <==>
            && !Muted(ps[k], pattern) && ps[k][0] == 0x01 && ps[k][59] == 0x00
            && !(Heard(ps[k], pattern) && Continues(pattern, ps, k))
  {
    AcceptedIff(pattern, ps, k);
  }

  function RefusedIntact(pattern: byte, start: nat, ps: seq<Pkt>, k: nat): nat
    requires start < 4 && k <= |ps|
  {
    if k == 0 then 0 else
    RefusedIntact(pattern, start, ps, k - 1)
      + if Intact(pattern, start, ps, k - 1) && VerdictOn(pattern, ps, k - 1) != Accepted then 1 else 0
  }

  function Wrongs(pattern: byte, start: nat, ps: seq<Pkt>, k: nat): nat
    requires start < 4 && k <= |ps|
  {
    if k == 0 then 0 else
    Wrongs(pattern, start, ps, k - 1) + if Wrong(pattern, start, ps, k - 1) then 1 else 0
  }

  /** Each wrong number costs at most one intact packet, and one that has not cost any yet is still pending. */
  lemma {:induction false} WrongCostsAtMostOne(pattern: byte, start: nat, ps: seq<Pkt>, k: nat)
    requires start < 4 && k <= |ps|
    ensures var j := LastHeard(pattern, ps, k);
      var pending := if j >= 0 && Wrong(pattern, start, ps, j) then 1 else 0;
      RefusedIntact(pattern, start, ps, k) + pending <= Wrongs(pattern, start, ps, k)
    decreases k
  {
    if k > 0 {
      WrongCostsAtMostOne(pattern, start, ps, k - 1);
      if Intact(pattern, start, ps, k - 1) {
        IntactRefusedIff(pattern, start, ps, k - 1);
      }
    }
  }

  // ---- The counters ----

  /** How often a verdict came. */
  function Times(pattern: byte, ps: seq<Pkt>, v: Verdict): nat {
    if ps == [] then 0
    else Times(pattern, ps[..|ps| - 1], v) + if VerdictOn(pattern, ps, |ps| - 1) == v then 1 else 0
  }

  lemma {:induction false} VerdictsAddUp(pattern: byte, ps: seq<Pkt>)
    ensures Times(pattern, ps, Accepted) + Times(pattern, ps, BtMute)
          + Times(pattern, ps, ParserError) + Times(pattern, ps, SeqError) == |ps|
    decreases |ps|
  {
    if ps != [] {
      VerdictsAddUp(pattern, ps[..|ps| - 1]);
    }
  }

  /** How many packets are muted, badly framed, or neither and yet not good. */
  function Mutes(pattern: byte, ps: seq<Pkt>): nat {
    if ps == [] then 0 else Mutes(pattern, ps[..|ps| - 1]) + if Muted(ps[|ps| - 1], pattern) then 1 else 0
  }

  function BadFrames(pattern: byte, ps: seq<Pkt>): nat {
    if ps == [] then 0 else
    var p := ps[|ps| - 1];
    BadFrames(pattern, ps[..|ps| - 1]) + if !Muted(p, pattern) && !(p[0] == 0x01 && p[59] == 0x00) then 1 else 0
  }

  function OutOfSequence(pattern: byte, ps: seq<Pkt>): nat {
    if ps == [] then 0 else
    var k, p := |ps| - 1, ps[|ps| - 1];
    OutOfSequence(pattern, ps[..k])
      + if !Muted(p, pattern) && p[0] == 0x01 && p[59] == 0x00 && !(Heard(p, pattern) && Continues(pattern, ps, k))
        then 1 else 0
  }

  /** Each loss counter is the number of such packets. */
  lemma {:induction false} LossesAre(pattern: byte, ps: seq<Pkt>)
    ensures Times(pattern, ps, BtMute) == Mutes(pattern, ps)
    ensures Times(pattern, ps, ParserError) == BadFrames(pattern, ps)
    ensures Times(pattern, ps, SeqError) == OutOfSequence(pattern, ps)
    decreases |ps|
  {
    if ps != [] {
      LossesAre(pattern, ps[..|ps| - 1]);
      RefusalIs(pattern, ps, |ps| - 1);
    }
  }

  /** xxxx_plc_histogram_t, without the counter that is never written. */
  datatype Histogram = Histogram(total: nat, btMute: nat, parser: nat, seqErrors: nat)

  /** The 32-bit counters after a stream. */
  function Counted(pattern: byte, ps: seq<Pkt>): Histogram {
    Histogram(|ps| % WORD, Times(pattern, ps, BtMute) % WORD,
              Times(pattern, ps, ParserError) % WORD, Times(pattern, ps, SeqError) % WORD)
  }

  /** The counters in memory, modulo 2^32, count packets as they are. */
  lemma CountersArePackets(pattern: byte, ps: seq<Pkt>)
    ensures Counted(pattern, ps) ==
            Histogram(|ps| % WORD, Mutes(pattern, ps) % WORD, BadFrames(pattern, ps) % WORD,
                      OutOfSequence(pattern, ps) % WORD)
  {
    LossesAre(pattern, ps);
  }

  function Up(n: nat): nat {
    (n + 1) % WORD
  }

  function CountOne(h: Histogram, v: Verdict): Histogram {
    Histogram(Up(h.total), if v == BtMute then Up(h.btMute) else h.btMute,
              if v == ParserError then Up(h.parser) else h.parser,
              if v == SeqError then Up(h.seqErrors) else h.seqErrors)
  }

  lemma CountedStep(pattern: byte, ps: seq<Pkt>, p: Pkt)
    ensures Counted(pattern, ps + [p]) ==
            CountOne(Counted(pattern, ps), Check(ExpectedAfter(pattern, ps), p, pattern).1)
    ensures ExpectedAfter(pattern, ps + [p]) == MoveOn(Check(ExpectedAfter(pattern, ps), p, pattern).0)
    ensures VerdictOn(pattern, ps + [p], |ps|) == Check(ExpectedAfter(pattern, ps), p, pattern).1
  {
    assert (ps + [p])[..|ps|] == ps;
    UpIsModulo(|ps|);
    UpIsModulo(Times(pattern, ps, BtMute));
    UpIsModulo(Times(pattern, ps, ParserError));
    UpIsModulo(Times(pattern, ps, SeqError));
  }

  lemma UpIsModulo(n: nat)
    ensures Up(n % WORD) == (n + 1) % WORD
  {
  }

  /** The counters of losses and the packets accepted make up the total, modulo 2^32. */
  lemma CountersAddUp(pattern: byte, ps: seq<Pkt>)
    ensures var h := Counted(pattern, ps);
      (h.btMute + h.parser + h.seqErrors + Times(pattern, ps, Accepted)) % WORD == h.total
  {
    VerdictsAddUp(pattern, ps);
    SumModulo(Times(pattern, ps, BtMute), Times(pattern, ps, ParserError),
              Times(pattern, ps, SeqError), Times(pattern, ps, Accepted));
  }

  lemma SumModulo(a: nat, b: nat, c: nat, d: nat)
    ensures (a % WORD + b % WORD + c % WORD + d) % WORD == (a + b + c + d) % WORD
  {
    var q := a / WORD + b / WORD + c / WORD;
    assert a + b + c + d == (a % WORD + b % WORD + c % WORD + d) + q * WORD;
  }

  // ---- The decoder in memory ----

  class Decoder {
    const pattern: byte
    var seqIndex: nat
    var hist: Histogram
    /** Every packet since the start. */
    ghost var seen: seq<Pkt>

    ghost predicate Valid()
      reads this
    {
      seqIndex == ExpectedAfter(pattern, seen) && hist == Counted(pattern, seen)
    }

    constructor (pattern: byte)
      ensures Valid() && seen == [] && this.pattern == pattern
    {
      this.pattern := pattern;
      seqIndex, hist, seen := INVALID, Histogram(0, 0, 0, 0), [];
    }

    method CheckMutePattern(p: Pkt) returns (muted: bool)
      ensures muted <==> Muted(p, pattern)
    {
      for i := 0 to PACKET_SIZE - 1
        invariant forall k | 0 <= k < i :: p[k] == pattern
      {
        if p[i] != pattern {
          return false;
        }
      }
      return true;
    }

    method GetPacketIndex(s: byte) returns (index: nat)
      ensures index == PacketIndex(s)
    {
      for i := 0 to 4
        invariant forall n | 0 <= n < i :: SeqCode(n) != s
      {
        if SeqCode(i) == s {
          return i;
        }
      }
      return INVALID;
    }

    /** The check of one packet; plcFlag tells that it is to be concealed. */
    method CheckPacket(p: Pkt) returns (plcFlag: bool)
      requires seqIndex < 4 || seqIndex == INVALID
      modifies this`seqIndex, this`hist
      ensures var (index, v) := Check(old(seqIndex), p, pattern);
        seqIndex == index && hist.(total := Up(hist.total)) == CountOne(old(hist), v) && plcFlag == (v != Accepted)
    {
      var muted := CheckMutePattern(p);
      plcFlag := true;
      if muted {
        hist := hist.(btMute := Up(hist.btMute));
      } else if p[0] != HEADER || p[PACKET_SIZE - 1] != PADDING {
        hist := hist.(parser := Up(hist.parser));
      } else {
        var index := GetPacketIndex(p[1]);
        if seqIndex == INVALID {
          if index == INVALID {
            hist := hist.(seqErrors := Up(hist.seqErrors));
          } else {
            seqIndex, plcFlag := index, false;
          }
        } else if seqIndex != index {
          hist := hist.(seqErrors := Up(hist.seqErrors));
          if index < 4 {
            seqIndex := index;
          }
        } else {
          plcFlag := false;
        }
      }
    }

    /** The next packet is expected to carry the next number, if any number is known. */
    method CountOn()
      requires seqIndex < 4 || seqIndex == INVALID
      modifies this`seqIndex
      ensures seqIndex == MoveOn(old(seqIndex))
    {
      if seqIndex != INVALID {
        seqIndex := (seqIndex + 1) % 4;
      }
    }

    /** One turn of the decoder's loop. */
    method DecodePacket(p: Pkt) returns (plcFlag: bool)
      requires Valid()
      modifies this
      ensures Valid() && seen == old(seen) + [p]
      ensures plcFlag <==> VerdictOn(pattern, seen, |seen| - 1) != Accepted
    {
      CountedStep(pattern, seen, p);
      plcFlag := CheckPacket(p);
      hist := hist.(total := Up(hist.total));
      CountOn();
      seen := seen + [p];
    }
  }
}

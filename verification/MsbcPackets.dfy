/** mSBC packets on a SCO link: the H2 synchronization header and the frame it carries. */
module MsbcPackets {
  import opened Bytes
  import opened CrcRegisters

  const PACKET_SIZE := 60
  const CODEC_SIZE := 57
  const HEADER := 0x01
  const PADDING := 0x00
  const SYNC_WORD := 0xad

  type Pkt = p: seq<byte> | |p| == PACKET_SIZE witness seq(PACKET_SIZE, _ => 0)

  /** g_sco_packet_seq: two bits of a sequence number, each sent twice (section 5.7 of the Hands-Free Profile 1.7). */
  function SeqCode(n: nat): (c: byte)
    ensures c % 16 == 0x08
  {
    if n == 0 then 0x08 else if n == 1 then 0x38 else if n == 2 then 0xc8 else 0xf8
  }

  /** get_next_sequence_num, and the encoder's step modulo four. */
  function NextSeq(n: nat): nat {
    if n + 1 == 4 then 0 else n + 1
  }

  /** The encoder's index at packet k. */
  function Turn(start: nat, k: nat): (n: nat)
    requires start < 4
    ensures n < 4
  {
    if k == 0 then start else NextSeq(Turn(start, k - 1))
  }

  /** An encoded frame in its packet. */
  function Packet(n: nat, frame: seq<byte>): (p: seq<byte>)
    requires |frame| == CODEC_SIZE
    ensures |p| == PACKET_SIZE
  {
    [HEADER, SeqCode(n)] + frame + [PADDING]
  }

  // ---- The CRC of the SBC header (section 12.6.1.1 of A2DP 1.3) ----

  /** The bits of a byte, highest first. */
  function ByteBits(b: byte): (r: Bits)
    ensures |r| == 8
  {
    [b / 128 % 2 == 1, b / 64 % 2 == 1, b / 32 % 2 == 1, b / 16 % 2 == 1,
     b / 8 % 2 == 1, b / 4 % 2 == 1, b / 2 % 2 == 1, b % 2 == 1]
  }

  /** x^8 + x^4 + x^3 + x^2 + 1, and the start value 0x0f. */
  const CRC8_POLY: Bits := [false, false, false, true, true, true, false, true]
  const CRC8_INIT: Bits := [false, false, false, false, true, true, true, true]

  /** The polynomial by its powers, and the start value 0x0f. */
  lemma Crc8Is()
    ensures forall i | 0 <= i < 8 :: CRC8_POLY[i] <==> 7 - i in {4, 3, 2, 0}
    ensures CRC8_INIT == ByteBits(0x0f) && CRC8_POLY == ByteBits(0x1d)
  {
  }

  /** The bits the CRC protects: two header bytes and the scale factors. */
  function Protected(p: seq<byte>): (r: Bits)
    requires |p| >= 10
    ensures |r| == 48
  {
    ByteBits(p[3]) + ByteBits(p[4]) + ByteBits(p[6]) + ByteBits(p[7]) + ByteBits(p[8]) + ByteBits(p[9])
  }

  function HeaderCrc(p: seq<byte>): (c: Bits)
    requires |p| >= 10
    ensures |c| == 8
  {
    Serial(CRC8_POLY, CRC8_INIT, Protected(p))
  }

  /** An mSBC frame as an encoder makes it: sync word, two reserved zero bytes, a matching CRC. */
  predicate ValidFrame(frame: seq<byte>) {
    && |frame| == CODEC_SIZE && frame[0] == SYNC_WORD && frame[1] == 0 && frame[2] == 0
    && HeaderCrc([0, 0] + frame) == ByteBits(frame[3])
  }

  // ---- sco_parse_synchronization_header ----

  datatype Header = Sequence(sn: nat) | Error(code: int)

  /** Byte 1 carries the code in its high half: bits 4 and 5 the same, bits 6 and 7 the same. */
  function ParseHeader(p: seq<byte>): (h: Header)
    requires |p| == PACKET_SIZE
    ensures h.Sequence? ==> h.sn < 4
  {
    if p[0] != HEADER || p[1] % 16 != 0x08 || p[2] != SYNC_WORD then Error(-1)
    else if p[1] / 16 % 4 != 0 && p[1] / 16 % 4 != 3 then Error(-2)
    else if p[1] / 64 != 0 && p[1] / 64 != 3 then Error(-3)
    else if p[3] != 0 || p[4] != 0 || HeaderCrc(p) != ByteBits(p[5]) then Error(-4)
    else Sequence((if p[1] / 16 % 4 == 3 then 1 else 0) + (if p[1] / 64 == 3 then 2 else 0))
  }

  lemma CrcOfFrame(p: seq<byte>)
    requires |p| == PACKET_SIZE
    ensures HeaderCrc([0, 0] + p[2..59]) == HeaderCrc(p)
  {
    assert Protected([0, 0] + p[2..59]) == Protected(p);
  }

  lemma FrontIsPacketIff(p: seq<byte>, n: nat)
    requires |p| == PACKET_SIZE
    ensures p[..59] == Packet(n, p[2..59])[..59] <==> p[0] == HEADER && p[1] == SeqCode(n)
  {
    var front, packet := p[..59], Packet(n, p[2..59])[..59];
    assert front == [p[0], p[1]] + p[2..59] && packet == [HEADER, SeqCode(n)] + p[2..59];
    assert packet[0] == HEADER && packet[1] == SeqCode(n) && front[0] == p[0] && front[1] == p[1];
  }

  /** What the header check accepts is exactly what an encoder makes, with that sequence number, up to the padding. */
  lemma HeaderAcceptsIff(p: seq<byte>, n: nat)
    requires |p| == PACKET_SIZE && n < 4
    ensures ParseHeader(p) == Sequence(n) <==> ValidFrame(p[2..59]) && p[..59] == Packet(n, p[2..59])[..59]
  {
    CrcOfFrame(p);
    FrontIsPacketIff(p, n);
    CodeIff(p[1], n);
  }

  /** The first three bytes of some packet an encoder makes. */
  predicate StartsLikePacket(p: seq<byte>)
    requires |p| == PACKET_SIZE
  {
    p[0] == 0x01 && p[2] == 0xad && exists n: nat :: n < 4 && p[1] == SeqCode(n)
  }

  /** Which error: -4 behind a good start only, and before that the first of the three tests that fails. */
  lemma ErrorCodeIs(p: seq<byte>)
    requires |p| == PACKET_SIZE
    ensures ParseHeader(p).Error? && ParseHeader(p).code == -4 <==>
            StartsLikePacket(p) && !(p[3] == 0 && p[4] == 0 && HeaderCrc(p) == ByteBits(p[5]))
    ensures ParseHeader(p).Error? && ParseHeader(p).code != -4 <==> !StartsLikePacket(p)
    ensures ParseHeader(p).Error? ==> -4 <= ParseHeader(p).code <= -1
    ensures ParseHeader(p) == Error(-1) <==> !(p[0] == 0x01 && p[1] % 16 == 0x08 && p[2] == 0xad)
    ensures ParseHeader(p) == Error(-2) ==> !(p[1] / 16 in {0, 3, 12, 15}) && p[1] / 16 % 4 in {1, 2}
    ensures ParseHeader(p) == Error(-3) ==> p[1] / 16 % 4 in {0, 3} && p[1] / 64 in {1, 2}
  {
    CodeIff(p[1], 0);
    CodeIff(p[1], 1);
    CodeIff(p[1], 2);
    CodeIff(p[1], 3);
    var n: nat := (if p[1] / 16 % 4 == 3 then 1 else 0) + if p[1] / 64 == 3 then 2 else 0;
    assert p[1] % 16 == 0x08 && p[1] / 16 % 4 in {0, 3} && p[1] / 64 in {0, 3} ==> p[1] == SeqCode(n);
  }

  lemma CodeIff(b: byte, n: nat)
    requires n < 4
    ensures b == SeqCode(n) <==>
            && b % 16 == 8 && (b / 16 % 4 == if n % 2 == 1 then 3 else 0) && (b / 64 == if n >= 2 then 3 else 0)
  {
  }

  /** No accepted header turns into another accepted one by a burst of up to eight bits in the protected bytes. */
  lemma HeaderBurstIsDetected(p: seq<byte>, q: seq<byte>, before: Bits, x: Bits, y: Bits, after: Bits)
    requires |p| == |q| == PACKET_SIZE && ParseHeader(p).Sequence? && q[..3] == p[..3] && q[5] == p[5]
    requires Protected(p) == before + x + after && Protected(q) == before + y + after
    requires |x| == |y| <= 8 && x != y
    ensures ParseHeader(q) == Error(-4)
  {
    BurstChangesSerial(CRC8_POLY, CRC8_INIT, before, x, y, after);
    assert q[0] == q[..3][0] == p[0] && q[1] == q[..3][1] == p[1] && q[2] == q[..3][2] == p[2];
  }

  // ---- The same in steps, with the table ----

  /** sbc_crc_tbl, which the firmware takes from ROM: the register after eight shifts. */
  function CrcTable(i: Bits): (r: Bits)
    requires |i| == 8
    ensures |r| == 8
  {
    Shifts(CRC8_POLY, 8, i)
  }

  /** fcs = sbc_crc_tbl[fcs ^ b] */
  function SumByte(fcs: Bits, b: byte): (r: Bits)
    requires |fcs| == 8
    ensures |r| == 8
  {
    CrcTable(Xor(fcs, ByteBits(b)))
  }

  /** One table look-up feeds the eight bits of a byte. */
  lemma TableFeedsByte(c: Bits, seen: Bits, b: byte)
    requires |c| == 8
    ensures SumByte(Serial(CRC8_POLY, c, seen), b) == Serial(CRC8_POLY, c, seen + ByteBits(b))
  {
    var fcs := Serial(CRC8_POLY, c, seen);
    SerialIsShifts(CRC8_POLY, fcs, ByteBits(b));
    assert Pad(ByteBits(b), 8) == ByteBits(b);
    SerialConcat(CRC8_POLY, c, seen, ByteBits(b));
  }

  /** The protected bits up to the first k bytes of scale factors. */
  function Summed(p: seq<byte>, k: nat): Bits
    requires |p| >= 10 && k <= 4
  {
    if k == 0 then ByteBits(p[3]) + ByteBits(p[4]) else Summed(p, k - 1) + ByteBits(p[5 + k])
  }

  function PartialCrc(p: seq<byte>, k: nat): (c: Bits)
    requires |p| >= 10 && k <= 4
    ensures |c| == 8
  {
    Serial(CRC8_POLY, CRC8_INIT, Summed(p, k))
  }

  lemma CrcStarts(p: seq<byte>)
    requires |p| >= 10
    ensures SumByte(SumByte(CRC8_INIT, p[3]), p[4]) == PartialCrc(p, 0)
  {
    TableFeedsByte(CRC8_INIT, [], p[3]);
    assert [] + ByteBits(p[3]) == ByteBits(p[3]);
    TableFeedsByte(CRC8_INIT, ByteBits(p[3]), p[4]);
  }

  lemma CrcGoesOn(p: seq<byte>, k: nat)
    requires |p| >= 10 && k < 4
    ensures SumByte(PartialCrc(p, k), p[6 + k]) == PartialCrc(p, k + 1)
  {
    TableFeedsByte(CRC8_INIT, Summed(p, k), p[6 + k]);
  }

  lemma CrcEnds(p: seq<byte>)
    requires |p| >= 10
    ensures PartialCrc(p, 4) == HeaderCrc(p)
  {
    SummedAll(p);
  }

  lemma SummedAll(p: seq<byte>)
    requires |p| >= 10
    ensures Summed(p, 4) == Protected(p)
  {
    assert Summed(p, 2) == Summed(p, 0) + ByteBits(p[6]) + ByteBits(p[7]);
  }

  lemma HalfBytes(k: nat)
    ensures (8 * k) % 8 == 0 && (8 * k + 4) % 8 == 4
  {
  }

  /** The CRC loop of sco_parse_synchronization_header: a byte of scale factors at every second subband. */
  method SumScaleFactors(buf: seq<byte>, start: Bits) returns (fcs: Bits)
    requires |buf| == PACKET_SIZE && start == PartialCrc(buf, 0)
    ensures fcs == HeaderCrc(buf)
  {
    fcs := start;
    var ind, bitOffset := 6, 24;
    for sb := 0 to 8
      invariant 6 <= ind <= 10 && (sb == 2 * (ind - 6) || sb == 2 * (ind - 6) + 1) && bitOffset == 24 + 4 * sb
      invariant fcs == PartialCrc(buf, ind - 6)
    {
      HalfBytes(ind - 3);
      assert sb == 2 * (ind - 6) ==> bitOffset == 8 * (ind - 3);
      if bitOffset % 8 != 0 {
        CrcGoesOn(buf, ind - 6);
        fcs := SumByte(fcs, buf[ind]);
        ind := ind + 1;
      } else if sb == 7 {
        // the source would sum four more bits here; the offset is never a multiple of eight at the last subband
        assert false;
      }
      bitOffset := bitOffset + 4;
    }
    CrcEnds(buf);
  }

  /** sco_parse_synchronization_header: an error code and 0xff, or 0 and the sequence number. */
  method ParseSynchronizationHeader(buf: seq<byte>) returns (err: int, sn: nat)
    requires |buf| == PACKET_SIZE
    ensures match ParseHeader(buf)
            case Sequence(n) => err == 0 && sn == n
            case Error(code) => err == code && sn == 0xff
  {
    sn := 0xff;
    if buf[0] != HEADER || buf[1] % 16 != 0x08 || buf[2] != SYNC_WORD {
      return -1, sn;
    }
    var sn1, sn2 := buf[1] / 16 % 4, buf[1] / 64;
    if sn1 != 0 && sn1 != 3 {
      return -2, sn;
    }
    if sn2 != 0 && sn2 != 3 {
      return -3, sn;
    }
    CrcStarts(buf);
    var fcs := SumByte(CRC8_INIT, buf[3]);
    if buf[3] != 0 {
      return -4, sn;
    }
    fcs := SumByte(fcs, buf[4]);
    if buf[4] != 0 {
      return -4, sn;
    }
    fcs := SumScaleFactors(buf, fcs);
    if ByteBits(buf[5]) != fcs {
      return -4, sn;
    }
    return 0, (if sn1 == 3 then 1 else 0) + (if sn2 == 3 then 2 else 0);
  }
}

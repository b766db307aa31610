/** From the mSBC encoder over the air to the verdicts (apps/audioplayers/bt_sco_codec_msbc.c, plc_utils.c). */
module MsbcLink {
  import opened Bytes
  import opened MsbcPackets
  import opened MsbcDecoder
  import opened MsbcStream
  import PacketLoss
  import PacketLossRuns

  predicate Encodable(frames: seq<seq<byte>>) {
    forall k | 0 <= k < |frames| :: |frames[k]| == CODEC_SIZE
  }

  /** The bytes the encoder makes of a sequence of frames. */
  function Sent(start: nat, frames: seq<seq<byte>>): (s: seq<byte>)
    requires start < 4 && Encodable(frames)
    ensures |s| == PACKET_SIZE * |frames|
  {
    if frames == [] then []
    else Sent(start, frames[..|frames| - 1]) + Packet(Turn(start, |frames| - 1), frames[|frames| - 1])
  }

  lemma {:induction false} SentPacket(start: nat, frames: seq<seq<byte>>, m: nat)
    requires start < 4 && Encodable(frames) && m < |frames|
    ensures Sent(start, frames)[PACKET_SIZE * m..PACKET_SIZE * m + PACKET_SIZE] == Packet(Turn(start, m), frames[m])
    decreases |frames|
  {
    var n := |frames| - 1;
    if m < n {
      SentPacket(start, frames[..n], m);
      var front := Sent(start, frames[..n]);
      assert Sent(start, frames)[PACKET_SIZE * m..PACKET_SIZE * m + PACKET_SIZE]
          == front[PACKET_SIZE * m..PACKET_SIZE * m + PACKET_SIZE];
    }
  }

  /** bt_sco_codec_msbc_encoder: the packets are written where they go, one by one. */
  class Encoder {
    var seqIndex: nat

    constructor ()
      ensures seqIndex == 0
    {
      seqIndex := 0;
    }

    /** `frames` are what the SBC encoder makes of the samples. */
    method Encode(buf: array<byte>, frames: seq<seq<byte>>)
      requires seqIndex < 4 && Encodable(frames) && buf.Length / PACKET_SIZE == |frames|
      modifies this, buf
      ensures seqIndex == Turn(old(seqIndex), |frames|)
      ensures buf[..PACKET_SIZE * |frames|] == Sent(old(seqIndex), frames)
      ensures buf[PACKET_SIZE * |frames|..] == old(buf[PACKET_SIZE * |frames|..])
    {
      ghost var start := seqIndex;
      ghost var before := buf[..];
      for i := 0 to |frames|
        invariant seqIndex == Turn(start, i)
        invariant buf[..PACKET_SIZE * i] == Sent(start, frames[..i])
        invariant buf[PACKET_SIZE * i..] == before[PACKET_SIZE * i..]
      {
        WritePacket(buf, PACKET_SIZE * i, frames[i]);
        assert frames[..i + 1][..i] == frames[..i];
        seqIndex := (seqIndex + 1) % 4;
      }
      assert frames[..|frames|] == frames;
    }

    method WritePacket(buf: array<byte>, at: nat, frame: seq<byte>)
      requires seqIndex < 4 && |frame| == CODEC_SIZE && at + PACKET_SIZE <= buf.Length
      modifies buf
      ensures buf[..at] == old(buf[..at]) && buf[at + PACKET_SIZE..] == old(buf[at + PACKET_SIZE..])
      ensures buf[at..at + PACKET_SIZE] == Packet(seqIndex, frame)
      ensures buf[..at + PACKET_SIZE] == old(buf[..at]) + Packet(seqIndex, frame)
    {
      var packet := Packet(seqIndex, frame);
      forall k | 0 <= k < PACKET_SIZE {
        buf[at + k] := packet[k];
      }
    }
  }

  // ---- The stream at the other side ----

  ghost predicate AllValid(frames: seq<seq<byte>>) {
    forall k | 0 <= k < |frames| :: ValidFrame(frames[k])
  }

  /** No payload, and nothing in front, looks like the start of a packet. */
  ghost predicate NoFalseSync(s: seq<byte>, o: nat) {
    forall q: nat | q + 2 < |s| :: Pattern(s, q) ==> q % PACKET_SIZE == o
  }

  /** The bytes in front of the first packet, and the packets. */
  function Heard(lead: seq<byte>, start: nat, frames: seq<seq<byte>>): (s: seq<byte>)
    requires start < 4 && Encodable(frames)
    ensures |s| == |lead| + PACKET_SIZE * |frames|
  {
    lead + Sent(start, frames)
  }

  lemma HeardPacket(lead: seq<byte>, start: nat, frames: seq<seq<byte>>, m: nat)
    requires start < 4 && Encodable(frames) && m < |frames|
    ensures PacketOf(Heard(lead, start, frames), |lead|, m) == Packet(Turn(start, m), frames[m])
  {
    SentPacket(start, frames, m);
    var s, from := Heard(lead, start, frames), |lead| + PACKET_SIZE * m;
    var p := Packet(Turn(start, m), frames[m]);
    forall i | 0 <= i < PACKET_SIZE
      ensures PacketOf(s, |lead|, m)[i] == p[i]
    {
      PartByte(s, from, PACKET_SIZE, i);
      assert s[from + i] == Sent(start, frames)[PACKET_SIZE * m + i];
      assert p[i] == Sent(start, frames)[PACKET_SIZE * m..PACKET_SIZE * m + PACKET_SIZE][i];
    }
  }

  /** The packets of the encoder show the pattern themselves. */
  lemma HeardIsAligned(lead: seq<byte>, start: nat, frames: seq<seq<byte>>)
    requires start < 4 && AllValid(frames) && |lead| < PACKET_SIZE
    requires NoFalseSync(Heard(lead, start, frames), |lead|)
    ensures Aligned(Heard(lead, start, frames), |lead|)
  {
    var s, o := Heard(lead, start, frames), |lead|;
    forall q: nat | q + 2 < |s| && q % PACKET_SIZE == o
      ensures Pattern(s, q)
    {
      var m := q / PACKET_SIZE;
      PacketShowsPattern(lead, start, frames, m);
    }
  }

  lemma PacketShowsPattern(lead: seq<byte>, start: nat, frames: seq<seq<byte>>, m: nat)
    requires start < 4 && AllValid(frames) && m < |frames|
    ensures Pattern(Heard(lead, start, frames), |lead| + PACKET_SIZE * m)
  {
    HeardPacket(lead, start, frames, m);
    var s, from := Heard(lead, start, frames), |lead| + PACKET_SIZE * m;
    PartByte(s, from, PACKET_SIZE, 0);
    PartByte(s, from, PACKET_SIZE, 1);
    PartByte(s, from, PACKET_SIZE, 2);
    assert ValidFrame(frames[m]);
  }

  // ---- The verdicts on what arrives ----

  /** What slot k, counted over all calls, hands to the loss detection. */
  function Slot(chip: Chip, s: seq<byte>, o: nat, k: nat): (r: PacketLossRuns.Received)
    requires o < PACKET_SIZE && chip.offsetBytes <= 1
    ensures r.index < PACKET_SIZE
  {
    PacketLossRuns.Received(Expected(s, o, k / 2, k % 2), WithoutOffset(o, chip.offsetBytes))
  }

  function HandedOn(chip: Chip, s: seq<byte>, o: nat, n: nat): (rs: PacketLossRuns.Receipts)
    requires o < PACKET_SIZE && chip.offsetBytes <= 1
    ensures |rs| == 2 * n && forall k | 0 <= k < 2 * n :: rs[k] == Slot(chip, s, o, k)
  {
    seq(2 * n, k requires 0 <= k < 2 * n => Slot(chip, s, o, k))
  }

  /** Slots before the first packet. */
  function Strays(o: nat): nat {
    if o <= 1 then 0 else 1
  }

  lemma SlotOfCall(c: nat, j: nat)
    requires j < 2
    ensures (2 * c + j) / 2 == c && (2 * c + j) % 2 == j
  {
  }

  lemma SlotNumber(o: nat, k: nat)
    ensures Number(o, (Strays(o) + k) / 2, (Strays(o) + k) % 2) == k
  {
  }

  /** The slots are those the decoder extracts, with the offset it reports. */
  lemma DecoderHandsOn(chip: Chip, s: seq<byte>, beyond: byte, o: nat, c: nat, j: nat)
    requires Aligned(s, o) && chip.offsetBytes <= 1 && CALL_SIZE * (c + 1) <= |s| && j < 2
    ensures var st := StateAt(chip, s, c);
      var w := Filled(st.kept, Call(s, c));
      Inside(Locate(st, w), w, j) && Extract(Locate(st, w), w, beyond, j) == Slot(chip, s, o, 2 * c + j).p
    ensures TransmitOffset(chip, StateAt(chip, s, c + 1)) == Slot(chip, s, o, 2 * c + j).index
  {
    SlotOfCall(c, j);
    PacketsInOrder(chip, s, beyond, o, c, j);
    RunStaysLocked(chip, s, o, c + 1);
  }

  /** A stream that brings packet k of the encoder at grid place k. */
  ghost predicate Carries(s: seq<byte>, o: nat, start: nat, frames: seq<seq<byte>>)
    requires start < 4
  {
    && AllValid(frames)
    && forall k: nat | k < |frames| :: PacketOf(s, o, k) == Packet(Turn(start, k), frames[k])
  }

  lemma HeardCarries(lead: seq<byte>, start: nat, frames: seq<seq<byte>>)
    requires start < 4 && AllValid(frames)
    ensures Carries(Heard(lead, start, frames), |lead|, start, frames)
  {
    forall k: nat | k < |frames|
      ensures PacketOf(Heard(lead, start, frames), |lead|, k) == Packet(Turn(start, k), frames[k])
    {
      HeardPacket(lead, start, frames, k);
    }
  }

  lemma SlotIsSent(chip: Chip, s: seq<byte>, o: nat, start: nat, frames: seq<seq<byte>>, k: nat)
    requires start < 4 && Carries(s, o, start, frames) && o < PACKET_SIZE && chip.offsetBytes <= 1 && k < |frames|
    ensures Slot(chip, s, o, Strays(o) + k).p == Packet(Turn(start, k), frames[k])
  {
    SlotNumber(o, k);
    assert PacketOf(s, o, k) == Packet(Turn(start, k), frames[k]);
    var p := Packet(Turn(start, k), frames[k]);
    assert p[PACKET_SIZE - 1 := 0] == p;
  }

  /** Behind the stray slots comes an unbroken stream of the encoder. */
  lemma SlotsAreSent(
      chip: Chip, s: seq<byte>, o: nat, start: nat, frames: seq<seq<byte>>, rs: PacketLossRuns.Receipts)
    requires start < 4 && Carries(s, o, start, frames) && o < PACKET_SIZE && chip.offsetBytes <= 1
    requires |rs| <= |frames| && forall k | 0 <= k < |rs| :: rs[k] == Slot(chip, s, o, Strays(o) + k)
    ensures PacketLossRuns.Sent(frames[..|rs|], start, rs)
  {
    var fs := frames[..|rs|];
    forall k | 0 <= k < |fs|
      ensures PacketLossRuns.IsSent(fs, start, rs, k)
    {
      assert fs[k] == frames[k];
      SlotIsSent(chip, s, o, start, frames, k);
    }
  }

  /** The packets handed on all pass if and only if none looks muted at its offset; a stray first slot never passes. */
  lemma EveryPacketPassesIff(chip: Chip, s: seq<byte>, o: nat, start: nat, frames: seq<seq<byte>>, n: nat)
    requires start < 4 && Carries(s, o, start, frames) && o < PACKET_SIZE && chip.offsetBytes <= 1
    requires chip.mutePattern != HEADER && 0 < 2 * n <= Strays(o) + |frames|
    ensures var rs, g := HandedOn(chip, s, o, n), Strays(o);
      && (g == 1 ==> PacketLossRuns.Verdict(chip.mutePattern, PacketLoss.Initial(), rs, 0) != PacketLoss.Pass)
      && (PacketLossRuns.AllPass(chip.mutePattern, PacketLoss.Initial(), rs, g) <==>
          PacketLossRuns.NoneLooksMuted(chip.mutePattern, rs, g))
  {
    var rs, g, d0 := HandedOn(chip, s, o, n), Strays(o), PacketLoss.Initial();
    StrayIsNoPacket(chip, s, o, rs);
    var tail := rs[g..];
    SlotsAreSent(chip, s, o, start, frames, tail);
    FreshStreamPassesIff(chip.mutePattern, d0, rs, g, start, frames[..|tail|]);
  }

  lemma FreshStreamPassesIff(
      pattern: byte, d0: PacketLoss.Detector, rs: PacketLossRuns.Receipts, g: nat, start: nat, fs: seq<seq<byte>>)
    requires pattern != HEADER && g <= |rs| && PacketLossRuns.Fresh(PacketLossRuns.After(pattern, d0, rs[..g]))
    requires PacketLossRuns.Sent(fs, start, rs[g..])
    ensures PacketLossRuns.AllPass(pattern, d0, rs, g) <==> PacketLossRuns.NoneLooksMuted(pattern, rs, g)
  {
    PacketLossRuns.AllPassGoesOn(pattern, d0, rs, g);
    PacketLossRuns.ContinuousStreamPassesIff(
      pattern, PacketLossRuns.After(pattern, d0, rs[..g]), fs, start, rs[g..]);
  }

  lemma StrayIsNoPacket(chip: Chip, s: seq<byte>, o: nat, rs: PacketLossRuns.Receipts)
    requires o < PACKET_SIZE && chip.offsetBytes <= 1 && rs != [] && rs[0] == Slot(chip, s, o, 0)
    ensures PacketLossRuns.Fresh(PacketLossRuns.After(chip.mutePattern, PacketLoss.Initial(), rs[..Strays(o)]))
    ensures o >= 2 ==>
              PacketLossRuns.Verdict(chip.mutePattern, PacketLoss.Initial(), rs, 0) != PacketLoss.Pass
  {
    var d0 := PacketLoss.Initial();
    PacketLossRuns.InitialIsFresh();
    if o >= 2 {
      StrayStartsWithZero(s, o);
      PacketLossRuns.AfterStep(chip.mutePattern, d0, rs, 0);
      PacketLossRuns.StrayKeepsFresh(d0, rs[0].p, chip.mutePattern, rs[0].index);
    }
  }

  /**
   * End to end: the encoder's packets behind any number of stray bytes, with no false sync among them. The decoder hands
   * on exactly `HandedOn`, and every packet passes if and only if none looks muted at the offset.
   */
  lemma EncodedStreamPassesIff(
      chip: Chip, beyond: byte, lead: seq<byte>, start: nat, frames: seq<seq<byte>>, n: nat, c: nat, j: nat)
    requires start < 4 && AllValid(frames) && |lead| < PACKET_SIZE && chip.offsetBytes <= 1
    requires chip.mutePattern != HEADER && NoFalseSync(Heard(lead, start, frames), |lead|)
    requires CALL_SIZE * n <= |Heard(lead, start, frames)| && c < n && j < 2
    ensures var s, o := Heard(lead, start, frames), |lead|;
      var st, rs := StateAt(chip, s, c), HandedOn(chip, s, o, n);
      var w := Filled(st.kept, Call(s, c));
      && Inside(Locate(st, w), w, j) && rs[2 * c + j].p == Extract(Locate(st, w), w, beyond, j)
      && rs[2 * c + j].index == TransmitOffset(chip, StateAt(chip, s, c + 1))
      && (PacketLossRuns.AllPass(chip.mutePattern, PacketLoss.Initial(), rs, Strays(o)) <==>
          PacketLossRuns.NoneLooksMuted(chip.mutePattern, rs, Strays(o)))
  {
    var s, o := Heard(lead, start, frames), |lead|;
    HeardIsAligned(lead, start, frames);
    HeardCarries(lead, start, frames);
    DecoderHandsOn(chip, s, beyond, o, c, j);
    EveryPacketPassesIff(chip, s, o, start, frames, n);
  }
}

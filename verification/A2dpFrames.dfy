/** How the A2DP store side frames packets in the byte stream, and how the coprocessor parses them back. */
module A2dpFrames {
  import opened Bytes

  datatype Codec = Aac | Lhdc

  type Packet = seq<byte>

  const AAC_LEN_BYTES := 2
  const AAC_READBUF_SIZE := 2048
  const LHDC_TAG: seq<byte> := [0x6c, 0x68, 0x64, 0x63]
  const LHDC_HEADER_SIZE := 8
  const LHDC_READBUF_SIZE := 4096

  /** The packets the readers have room for. */
  predicate Storable(codec: Codec, p: Packet) {
    match codec
    case Aac => |p| < AAC_READBUF_SIZE
    case Lhdc => 0 < |p| <= LHDC_READBUF_SIZE - LHDC_HEADER_SIZE
  }

  function Encode(codec: Codec, p: Packet): seq<byte> {
    match codec
    case Aac => Le16(|p| % 0x1_0000) + p
    case Lhdc => LHDC_TAG + Le32(|p| % 0x1_0000_0000) + p
  }

  function Stream(codec: Codec, ps: seq<Packet>): seq<byte> {
    if ps == [] then [] else Encode(codec, ps[0]) + Stream(codec, ps[1..])
  }

  lemma {:induction false} StreamConcat(codec: Codec, ps: seq<Packet>, qs: seq<Packet>)
    ensures Stream(codec, ps + qs) == Stream(codec, ps) + Stream(codec, qs)
  {
    if ps == [] {
      assert ps + qs == qs;
    } else {
      assert (ps + qs)[1..] == ps[1..] + qs;
      StreamConcat(codec, ps[1..], qs);
    }
  }

  lemma StreamAppend(codec: Codec, ps: seq<Packet>, p: Packet)
    ensures Stream(codec, ps + [p]) == Stream(codec, ps) + Encode(codec, p)
  {
    StreamConcat(codec, ps, [p]);
    assert Stream(codec, [p]) == Encode(codec, p) + Stream(codec, []);
  }

  /** One decision of a loader that sees `avail` bytes past its start and has read `buf` of them. */
  datatype Move = Read | Skip | GiveUp | Reject | Take(packet: Packet, used: nat)

  function NextMove(codec: Codec, avail: nat, buf: seq<byte>): (m: Move)
    ensures m.Take? ==> m.used <= |buf|
  {
    match codec
    case Aac =>
      if avail < AAC_LEN_BYTES then GiveUp
      else if |buf| < AAC_LEN_BYTES then Read
      else
        var len := Le16Value(buf);
        if len >= AAC_READBUF_SIZE then Reject
        else if avail < AAC_LEN_BYTES + len then GiveUp
        else if |buf| < AAC_LEN_BYTES + len then Read
        else Take(buf[AAC_LEN_BYTES..AAC_LEN_BYTES + len], AAC_LEN_BYTES + len)
    case Lhdc =>
      if avail < LHDC_HEADER_SIZE then GiveUp
      else if |buf| < LHDC_HEADER_SIZE then Read
      else if buf[..4] != LHDC_TAG then Skip
      else
        var len := Le32Value(buf[4..]);
        if avail < LHDC_HEADER_SIZE + len then GiveUp
        else if |buf| < LHDC_HEADER_SIZE + len then Read
        else Take(buf[LHDC_HEADER_SIZE..LHDC_HEADER_SIZE + len], LHDC_HEADER_SIZE + len)
  }

  /** A move reads, skips or takes only what is there. */
  lemma MoveIsPossible(codec: Codec, avail: nat, buf: seq<byte>)
    ensures var m := NextMove(codec, avail, buf);
      (m.Read? ==> |buf| < avail) && (m.Skip? ==> avail > 0) && (m.Take? ==> m.used <= |buf|)
  {
  }

  /** What a whole load makes of the available bytes `b`; `Read` never survives, every byte has been read. */
  function Parse(codec: Codec, b: seq<byte>): (m: Move)
    ensures !m.Read? && !m.Skip?
    ensures m.Take? ==> m.used <= |b|
    decreases |b|
  {
    var m := NextMove(codec, |b|, b);
    if m.Skip? then
      var rest := Parse(codec, b[1..]);
      if rest.Take? then rest.(used := rest.used + 1) else rest
    else m
  }

  /** A buffer that holds the frame of `p` up to some point, and perhaps bytes behind it. */
  ghost predicate Holds(codec: Codec, p: Packet, buf: seq<byte>) {
    buf <= Encode(codec, p) || Encode(codec, p) <= buf
  }

  lemma AacMove(p: Packet, avail: nat, buf: seq<byte>)
    requires Storable(Aac, p) && Holds(Aac, p, buf) && |buf| <= avail
    ensures var whole := |p| + AAC_LEN_BYTES;
            var m := NextMove(Aac, avail, buf);
            if avail < whole then m.GiveUp? || (m.Read? && |buf| < avail)
            else if |buf| < whole then m.Read?
            else m == Take(p, whole)
  {
    if |buf| >= AAC_LEN_BYTES {
      assert buf[0] == Encode(Aac, p)[0] && buf[1] == Encode(Aac, p)[1];
      assert Le16Value(buf) == |p|;
      if |buf| >= |p| + AAC_LEN_BYTES {
        assert Encode(Aac, p)[AAC_LEN_BYTES..] == p;
      }
    }
  }

  lemma LhdcMove(p: Packet, avail: nat, buf: seq<byte>)
    requires Storable(Lhdc, p) && Holds(Lhdc, p, buf) && |buf| <= avail
    ensures var whole := |p| + LHDC_HEADER_SIZE;
            var m := NextMove(Lhdc, avail, buf);
            if avail < whole then m.GiveUp? || (m.Read? && |buf| < avail)
            else if |buf| < whole then m.Read?
            else m == Take(p, whole)
  {
    if |buf| >= LHDC_HEADER_SIZE {
      LhdcHeader(p, buf);
      if |buf| >= |p| + LHDC_HEADER_SIZE {
        assert Encode(Lhdc, p)[LHDC_HEADER_SIZE..] == p;
      }
    }
  }

  lemma LhdcHeader(p: Packet, buf: seq<byte>)
    requires Storable(Lhdc, p) && Holds(Lhdc, p, buf) && |buf| >= LHDC_HEADER_SIZE
    ensures buf[..4] == LHDC_TAG && Le32Value(buf[4..]) == |p|
  {
    var whole := Encode(Lhdc, p);
    assert whole[..4] == LHDC_TAG && whole[4..8] == Le32(|p|);
    assert forall i | 0 <= i < LHDC_HEADER_SIZE :: buf[i] == whole[i];
    assert buf[4..8] == Le32(|p|) && buf[4..] == Le32(|p|) + buf[8..];
    Le32RoundTrip(|p|, buf[8..]);
  }

  /** What a loader does with any part of a frame it has read: read on, wait, or take exactly the packet. */
  lemma MoveOnFrame(codec: Codec, p: Packet, avail: nat, buf: seq<byte>)
    requires Storable(codec, p) && Holds(codec, p, buf) && |buf| <= avail
    ensures var whole := |Encode(codec, p)|;
            var m := NextMove(codec, avail, buf);
            if avail < whole then m.GiveUp? || (m.Read? && |buf| < avail)
            else if |buf| < whole then m.Read?
            else m == Take(p, whole)
  {
    match codec
    case Aac => AacMove(p, avail, buf);
    case Lhdc => LhdcMove(p, avail, buf);
  }

  /** A load of a whole frame gives back the packet; a load of part of it leaves it for later. */
  lemma ParseFrame(codec: Codec, p: Packet, b: seq<byte>)
    requires Storable(codec, p) && Holds(codec, p, b)
    ensures Parse(codec, b) == if |b| < |Encode(codec, p)| then GiveUp else Take(p, |Encode(codec, p)|)
  {
    MoveOnFrame(codec, p, |b|, b);
  }

  /** An AAC packet survives the 2-byte header and the reader's bound exactly when it is shorter than 2048 bytes. */
  lemma AacSurvivesIff(p: Packet, rest: seq<byte>)
    ensures (exists used :: Parse(Aac, Encode(Aac, p) + rest) == Take(p, used)) <==> |p| < AAC_READBUF_SIZE
  {
    var b := Encode(Aac, p) + rest;
    if |p| < AAC_READBUF_SIZE {
      ParseFrame(Aac, p, b);
    } else {
      assert b == Le16(|p| % 0x1_0000) + (p + rest);
      Le16RoundTrip(|p| % 0x1_0000, p + rest);
    }
  }

  /** A load of arbitrary bytes for AAC: the first two are the length, and one of 2048 or more is rejected. */
  lemma AacOnBytes(b: seq<byte>)
    ensures |b| < 2 ==> Parse(Aac, b) == GiveUp
    ensures |b| >= 2 ==>
              var len := b[0] as int + 256 * b[1] as int;
              Parse(Aac, b) == if len >= 2048 then Reject else if |b| < 2 + len then GiveUp
                               else Take(b[2..2 + len], 2 + len)
  {
  }

  /** A stored packet is rejected, whatever follows it, exactly when the low 16 bits of its length are 2048 or more. */
  lemma AacRejectedIff(p: Packet, rest: seq<byte>)
    ensures Parse(Aac, Encode(Aac, p) + rest).Reject? <==> |p| % 0x1_0000 >= 2048
  {
    var len := |p| % 0x1_0000;
    assert Encode(Aac, p) + rest == Le16(len) + (p + rest);
    Le16RoundTrip(len, p + rest);
    AacOnBytes(Le16(len) + (p + rest));
  }

  predicate TagAt(b: seq<byte>, i: nat) {
    && i + LHDC_HEADER_SIZE <= |b|
    && b[i] == LHDC_TAG[0] && b[i + 1] == LHDC_TAG[1] && b[i + 2] == LHDC_TAG[2] && b[i + 3] == LHDC_TAG[3]
  }

  /** The first place where a header can start, or the end when there is none. */
  function FirstTag(b: seq<byte>): (i: nat)
    ensures i <= |b| && (i < |b| ==> TagAt(b, i))
    decreases |b|
  {
    if |b| == 0 || TagAt(b, 0) then 0 else 1 + FirstTag(b[1..])
  }

  predicate NoTagBefore(b: seq<byte>, i: nat) {
    forall j | 0 <= j < i :: !TagAt(b, j)
  }

  lemma NoTagInTail(b: seq<byte>, i: nat)
    requires |b| > 0 && NoTagBefore(b, i + 1)
    ensures NoTagBefore(b[1..], i)
  {
    forall j | 0 <= j < i
      ensures !TagAt(b[1..], j)
    {
      assert TagAt(b, j + 1) == TagAt(b[1..], j);
    }
  }

  lemma {:induction false} TagIsFirst(b: seq<byte>, i: nat)
    requires NoTagBefore(b, i) && TagAt(b, i)
    ensures FirstTag(b) == i
    decreases i
  {
    if i > 0 {
      assert !TagAt(b, 0);
      NoTagInTail(b, i - 1);
      TagIsFirst(b[1..], i - 1);
    }
  }

  lemma {:induction false} NoTagAtAll(b: seq<byte>, i: nat)
    requires NoTagBefore(b, i) && |b| < i + LHDC_HEADER_SIZE
    ensures FirstTag(b) == |b|
    decreases |b|
  {
    if b != [] {
      assert i == 0 || !TagAt(b, 0);
      if i > 0 {
        NoTagInTail(b, i - 1);
      }
      NoTagAtAll(b[1..], if i > 0 then i - 1 else 0);
    }
  }

  /** What a header at `i` announces: its packet, if all of it is there. */
  function FrameAt(b: seq<byte>, i: nat): (m: Move)
    requires i + LHDC_HEADER_SIZE <= |b|
  {
    var end := i + LHDC_HEADER_SIZE + Le32Value(b[i + 4..]);
    if |b| < end then GiveUp else Take(b[i + LHDC_HEADER_SIZE..end], end)
  }

  /** The same one byte further on. */
  lemma FrameShifts(b: seq<byte>, i: nat)
    requires i + 1 + LHDC_HEADER_SIZE <= |b|
    ensures var m := FrameAt(b[1..], i);
      FrameAt(b, i + 1) == if m.Take? then m.(used := m.used + 1) else m
  {
    assert b[1..][i + 4..] == b[i + 1 + 4..];
    var end := i + LHDC_HEADER_SIZE + Le32Value(b[i + 5..]);
    if end < |b| {
      SliceOfSuffix(b, 1, i + LHDC_HEADER_SIZE, end);
    }
  }

  lemma TagMove(b: seq<byte>)
    requires |b| >= LHDC_HEADER_SIZE
    ensures NextMove(Lhdc, |b|, b) == if TagAt(b, 0) then FrameAt(b, 0) else Skip
  {
    assert forall k | 0 <= k < 4 :: b[..4][k] == b[k];
    if |b| >= LHDC_HEADER_SIZE + Le32Value(b[4..]) {
      assert b[0 + 4..] == b[4..];
    }
  }

  /** On arbitrary bytes the LHDC scan ends at the first tag and takes just what that header announces. */
  lemma {:induction false} ScanStopsAtFirstTag(b: seq<byte>)
    ensures Parse(Lhdc, b) == if FirstTag(b) == |b| then GiveUp else FrameAt(b, FirstTag(b))
    decreases |b|
  {
    if |b| >= LHDC_HEADER_SIZE {
      TagMove(b);
      if !TagAt(b, 0) {
        ScanStopsAtFirstTag(b[1..]);
        if FirstTag(b[1..]) < |b| - 1 {
          FrameShifts(b, FirstTag(b[1..]));
        }
      }
    } else {
      NoTagAtAll(b, 0);
    }
  }
}

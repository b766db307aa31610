/** The packet search over a whole byte stream whose packets stand 60 bytes apart at an unknown offset. */
module MsbcStream {
  import opened Bytes
  import opened MsbcPackets
  import opened MsbcDecoder

  function ByteAt(s: seq<byte>, pos: int): byte {
    if 0 <= pos < |s| then s[pos] else 0
  }

  /** Bytes from..from+n of the stream, zeros before its start. */
  function Part(s: seq<byte>, from: int, n: nat): (p: seq<byte>)
    ensures |p| == n
  {
    seq<byte>(n, i requires 0 <= i < n => ByteAt(s, from + i))
  }

  lemma PartByte(s: seq<byte>, from: int, n: nat, i: nat)
    requires i < n
    ensures Part(s, from, n)[i] == ByteAt(s, from + i)
  {
  }

  lemma NothingBefore(s: seq<byte>, from: int, n: nat)
    requires from + n <= 0
    ensures Part(s, from, n) == seq(n, _ => 0)
  {
    var p := Part(s, from, n);
    forall i | 0 <= i < n
      ensures p[i] == 0
    {
      PartByte(s, from, n, i);
    }
  }

  /** Packets start at o, o + 60, ... and the pattern shows there and nowhere else. */
  ghost predicate Aligned(s: seq<byte>, o: nat) {
    o < PACKET_SIZE && forall q: nat | q + 2 < |s| :: Pattern(s, q) <==> q % PACKET_SIZE == o
  }

  function Call(s: seq<byte>, c: nat): Input {
    Part(s, CALL_SIZE * c, CALL_SIZE)
  }

  function WindowOf(s: seq<byte>, c: nat): (w: Window) {
    Filled(Part(s, CALL_SIZE * c - PACKET_SIZE, PACKET_SIZE), Call(s, c))
  }

  lemma WindowByte(s: seq<byte>, c: nat, i: nat)
    requires i < WINDOW_SIZE
    ensures WindowOf(s, c)[i] ==
            if i == WINDOW_SIZE - 1 then 0 else ByteAt(s, CALL_SIZE * c - PACKET_SIZE + i)
  {
  }

  /** The decoder before call c of an aligned stream. */
  function Before(s: seq<byte>, o: nat, c: nat): State {
    State(Part(s, CALL_SIZE * c - PACKET_SIZE, PACKET_SIZE), c > 0, if c > 0 then o else 0)
  }

  lemma OnGrid(o: nat, m: int)
    requires o < PACKET_SIZE && o + PACKET_SIZE * m >= 0
    ensures (o + PACKET_SIZE * m) % PACKET_SIZE == o
    ensures o + PACKET_SIZE * m >= 1 ==> (o + PACKET_SIZE * m - 1) % PACKET_SIZE != o
  {
  }

  /** A place in the window shows the pattern exactly when its place in the stream is on the grid. */
  lemma WindowPattern(s: seq<byte>, o: nat, c: nat, i: nat)
    requires Aligned(s, o) && CALL_SIZE * (c + 1) <= |s| && i + 2 < WINDOW_SIZE - 1
    ensures var q := CALL_SIZE * c - PACKET_SIZE + i;
      Pattern(WindowOf(s, c), i) <==> q >= 0 && q % PACKET_SIZE == o
  {
    var q := CALL_SIZE * c - PACKET_SIZE + i;
    WindowByte(s, c, i);
    WindowByte(s, c, i + 1);
    WindowByte(s, c, i + 2);
    if q >= 0 {
      var n: nat := q;
      assert Pattern(s, n) <==> n % PACKET_SIZE == o;
    }
  }

  /** The first call locks on the first packet. */
  lemma FirstCallFinds(s: seq<byte>, o: nat)
    requires Aligned(s, o) && CALL_SIZE <= |s|
    ensures FirstSync(WindowOf(s, 0), 0) == PACKET_SIZE + o
  {
    var w := WindowOf(s, 0);
    var k := FirstSync(w, 0);
    WindowPattern(s, o, 0, PACKET_SIZE + o);
    if k < PACKET_SIZE + o {
      WindowPattern(s, o, 0, k);
    } else if k > PACKET_SIZE + o {
      NoSyncBeforeFirst(w, 0, PACKET_SIZE + o);
    }
  }

  function PlaceOf(o: nat, c: nat): Place {
    Place(true, o, if c == 0 then PACKET_SIZE + o else 0)
  }

  /** The number of the packet that stands at slot j of call c; -1 is what comes before the first. */
  function Number(o: nat, c: nat, j: nat): int {
    if o <= 1 then 2 * c + j else 2 * c + j - 1
  }

  lemma Located(s: seq<byte>, o: nat, c: nat)
    requires Aligned(s, o) && CALL_SIZE * (c + 1) <= |s|
    ensures Locate(Before(s, o, c), WindowOf(s, c)) == PlaceOf(o, c)
  {
    if c == 0 {
      FirstCallFinds(s, o);
    }
  }

  /** Both slots are where they are expected, and neither is abnormal. */
  lemma SlotIsGood(chip: Chip, s: seq<byte>, o: nat, c: nat, j: nat)
    requires Aligned(s, o) && CALL_SIZE * (c + 1) <= |s| && j < 2
    ensures var p, w := PlaceOf(o, c), WindowOf(s, c);
      && CALL_SIZE * c - PACKET_SIZE + StartOf(p, j) == o + PACKET_SIZE * Number(o, c, j)
      && DriftOf(p, w, j) == 0 && !Abnormal(chip, w, StartOf(p, j), p.total)
  {
    var p, w, m := PlaceOf(o, c), WindowOf(s, c), Number(o, c, j);
    var at := StartOf(p, j);
    WindowPattern(s, o, c, at - 1);
    WindowPattern(s, o, c, at);
    WindowPattern(s, o, c, at + 1);
    if m >= 0 {
      OnGrid(o, m);
    }
  }

  lemma Slid(s: seq<byte>, c: nat)
    ensures WindowOf(s, c)[CALL_SIZE..CALL_SIZE + PACKET_SIZE] ==
            Part(s, CALL_SIZE * (c + 1) - PACKET_SIZE, PACKET_SIZE)
  {
    var slid := WindowOf(s, c)[CALL_SIZE..CALL_SIZE + PACKET_SIZE];
    var from := CALL_SIZE * (c + 1) - PACKET_SIZE;
    forall i | 0 <= i < PACKET_SIZE
      ensures slid[i] == Part(s, from, PACKET_SIZE)[i]
    {
      WindowByte(s, c, CALL_SIZE + i);
      PartByte(s, from, PACKET_SIZE, i);
    }
  }

  /** One call on an aligned stream: it stays locked and moves on. */
  lemma CallGoesOn(chip: Chip, s: seq<byte>, o: nat, c: nat)
    requires Aligned(s, o) && CALL_SIZE * (c + 1) <= |s|
    ensures Next(chip, Before(s, o, c), Call(s, c)) == Before(s, o, c + 1)
  {
    Located(s, o, c);
    SlotIsGood(chip, s, o, c, 0);
    SlotIsGood(chip, s, o, c, 1);
    Slid(s, c);
  }

  // ---- Whole runs ----

  /** The state before call c, from the start. */
  function StateAt(chip: Chip, s: seq<byte>, c: nat): (st: State)
    ensures st.offset < PACKET_SIZE
  {
    if c == 0 then State(seq(PACKET_SIZE, _ => 0), false, 0)
    else Next(chip, StateAt(chip, s, c - 1), Call(s, c - 1))
  }

  /** From its first call on the decoder is locked at the packets' offset. */
  lemma {:induction false} RunStaysLocked(chip: Chip, s: seq<byte>, o: nat, c: nat)
    requires Aligned(s, o) && CALL_SIZE * c <= |s|
    ensures StateAt(chip, s, c) == Before(s, o, c)
    ensures c > 0 ==> StateAt(chip, s, c).locked && StateAt(chip, s, c).offset == o
    decreases c
  {
    if c == 0 {
      NothingBefore(s, -PACKET_SIZE, PACKET_SIZE);
    } else {
      RunStaysLocked(chip, s, o, c - 1);
      var before := Before(s, o, c - 1);
      assert StateAt(chip, s, c) == Next(chip, before, Call(s, c - 1));
      CallGoesOn(chip, s, o, c - 1);
    }
  }

  /** Packet m of the stream; number -1 is the zeros and stray bytes before the first. */
  function PacketOf(s: seq<byte>, o: nat, m: int): Pkt {
    Part(s, o + PACKET_SIZE * m, PACKET_SIZE)
  }

  /** What slot j of call c hands on: with offset 1 the second packet of a call ends in the spare byte. */
  function Expected(s: seq<byte>, o: nat, c: nat, j: nat): Pkt {
    var p := PacketOf(s, o, Number(o, c, j));
    if o == 1 && j == 1 then p[PACKET_SIZE - 1 := 0] else p
  }

  lemma SlotHolds(s: seq<byte>, beyond: byte, o: nat, c: nat, j: nat)
    requires o < PACKET_SIZE && CALL_SIZE * (c + 1) <= |s| && j < 2
    requires CALL_SIZE * c - PACKET_SIZE + StartOf(PlaceOf(o, c), j) == o + PACKET_SIZE * Number(o, c, j)
    ensures PacketAt(WindowOf(s, c), beyond, StartOf(PlaceOf(o, c), j)) == Expected(s, o, c, j)
  {
    var from := StartOf(PlaceOf(o, c), j);
    var packet, expected := PacketAt(WindowOf(s, c), beyond, from), Expected(s, o, c, j);
    forall i | 0 <= i < PACKET_SIZE
      ensures packet[i] == expected[i]
    {
      assert packet[i] == WindowOf(s, c)[from + i];
      WindowByte(s, c, from + i);
      PartByte(s, o + PACKET_SIZE * Number(o, c, j), PACKET_SIZE, i);
    }
  }

  lemma SlotIsExpected(chip: Chip, s: seq<byte>, beyond: byte, o: nat, c: nat, j: nat)
    requires Aligned(s, o) && CALL_SIZE * (c + 1) <= |s| && j < 2
    ensures var p, w := PlaceOf(o, c), WindowOf(s, c);
      Inside(p, w, j) && Extract(p, w, beyond, j) == Expected(s, o, c, j)
  {
    SlotIsGood(chip, s, o, c, j);
    SlotHolds(s, beyond, o, c, j);
  }

  /**
   * The decoder extracts every packet once and in order: slot j of call c is packet 2c + j, or one earlier for offsets
   * from 2 on, where the very first slot holds no packet yet. It never reads past its buffer.
   */
  lemma PacketsInOrder(chip: Chip, s: seq<byte>, beyond: byte, o: nat, c: nat, j: nat)
    requires Aligned(s, o) && CALL_SIZE * (c + 1) <= |s| && j < 2
    ensures var st := StateAt(chip, s, c);
      var w := Filled(st.kept, Call(s, c));
      Inside(Locate(st, w), w, j) && Extract(Locate(st, w), w, beyond, j) == Expected(s, o, c, j)
  {
    var st := StateAt(chip, s, c);
    assert st == Before(s, o, c) by {
      RunStaysLocked(chip, s, o, c);
    }
    var w := WindowOf(s, c);
    assert Locate(st, w) == PlaceOf(o, c) by {
      Located(s, o, c);
    }
    SlotIsExpected(chip, s, beyond, o, c, j);
  }

  /** The only stray packet, before the first, begins with a zero byte. */
  lemma StrayStartsWithZero(s: seq<byte>, o: nat)
    requires 2 <= o < PACKET_SIZE
    ensures Expected(s, o, 0, 0)[0] == 0
  {
    PartByte(s, o - PACKET_SIZE, PACKET_SIZE, 0);
  }
}

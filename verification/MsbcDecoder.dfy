/** Finding the packets in the received bytes (apps/audioplayers/bt_sco_codec_msbc.c). */
module MsbcDecoder {
  import opened Bytes
  import opened MsbcPackets

  /** Bytes a call brings: two packets' worth. */
  const CALL_SIZE := 120
  const WINDOW_SIZE := 181

  type Input = s: seq<byte> | |s| == CALL_SIZE witness seq(CALL_SIZE, _ => 0)

  /** The last 60 bytes of the call before, the new ones, and the spare byte that nothing ever writes. */
  type Window = w: seq<byte> | |w| == WINDOW_SIZE witness seq(WINDOW_SIZE, _ => 0)

  /** What the chip fixes: the mute pattern and the bytes the transport adds in front. */
  datatype Chip = Chip(mutePattern: byte, offsetBytes: nat)

  datatype State = State(kept: Pkt, locked: bool, offset: nat)

  predicate Pattern(w: seq<byte>, i: nat)
    requires i + 2 < |w|
  {
    w[i] == HEADER && w[i + 1] % 16 == 0x08 && w[i + 2] == SYNC_WORD
  }

  function Filled(kept: Pkt, input: Input): Window {
    kept + input + [0]
  }

  /** The first place from i on that shows the pattern, or 120. */
  function FirstSync(w: Window, i: nat): (k: nat)
    requires i <= CALL_SIZE
    ensures i <= k <= CALL_SIZE && (k < CALL_SIZE ==> Pattern(w, k))
    decreases CALL_SIZE - i
  {
    if i == CALL_SIZE || Pattern(w, i) then i else FirstSync(w, i + 1)
  }

  lemma {:induction false} NoSyncBeforeFirst(w: Window, i: nat, q: nat)
    requires i <= CALL_SIZE && i <= q < FirstSync(w, i)
    ensures !Pattern(w, q)
    decreases CALL_SIZE - i
  {
    if i < q {
      NoSyncBeforeFirst(w, i + 1, q);
    }
  }

  /** msbc_offset_lowdelay: an offset of 0 or 1 can be served from the new bytes alone. */
  function LowDelay(offset: nat): nat {
    if offset <= 1 then offset + PACKET_SIZE else offset
  }

  /** Where a packet expected at `at` really is: there, or one byte before or behind. */
  function Drift(w: Window, at: nat): (d: int)
    requires 1 <= at <= CALL_SIZE + 1
    ensures -1 <= d <= 1 && (d != 0 ==> Pattern(w, at + d))
  {
    if Pattern(w, at - 1) then -1 else if Pattern(w, at) then 0 else if Pattern(w, at + 1) then 1 else 0
  }

  /** Neither the pattern nor a muted header where one must be. */
  predicate Abnormal(chip: Chip, w: Window, at: nat, total: nat)
    requires 1 <= at <= CALL_SIZE + 1
  {
    && !Pattern(w, at - 1) && !Pattern(w, at) && !Pattern(w, at + 1)
    && !(w[at] == chip.mutePattern && w[at + 1] % 16 == chip.mutePattern % 16 && w[at + 2] == chip.mutePattern)
    && at >= total
  }

  /** Where the call looks: found or not, the packet offset, and the place of the first sync if it was searched. */
  datatype Place = Place(found: bool, offset: nat, total: nat)

  function Locate(s: State, w: Window): (p: Place)
    requires s.offset < PACKET_SIZE
    ensures p.offset < PACKET_SIZE
  {
    var i := FirstSync(w, 0);
    if s.locked then Place(true, s.offset, 0)
    else if i < CALL_SIZE then Place(true, i % PACKET_SIZE, i)
    else Place(false, s.offset, 0)
  }

  function StartOf(p: Place, j: nat): nat {
    (if p.found then LowDelay(p.offset) else 0) + if j == 0 then 0 else PACKET_SIZE
  }

  function DriftOf(p: Place, w: Window, j: nat): (d: int)
    requires p.offset < PACKET_SIZE && j < 2
    ensures -1 <= d <= 1 && (!p.found ==> d == 0)
  {
    if p.found then Drift(w, StartOf(p, j)) else 0
  }

  /** The reads of packet j end inside the buffer. */
  predicate Inside(p: Place, w: Window, j: nat)
    requires p.offset < PACKET_SIZE && j < 2
  {
    StartOf(p, j) + DriftOf(p, w, j) + PACKET_SIZE <= WINDOW_SIZE
  }

  /** The only read past the buffer: offset 1, and the second packet one byte late. */
  lemma InsideIff(p: Place, w: Window, j: nat)
    requires p.offset < PACKET_SIZE && j < 2
    ensures Inside(p, w, j) <==> !(p.found && p.offset == 1 && j == 1 && DriftOf(p, w, 1) == 1)
  {
  }

  /** `beyond` is the byte that memory has behind the buffer. */
  function PacketAt(w: Window, beyond: byte, from: nat): (packet: Pkt)
    requires from + PACKET_SIZE <= WINDOW_SIZE + 1
  {
    (w + [beyond])[from..from + PACKET_SIZE]
  }

  function Extract(p: Place, w: Window, beyond: byte, j: nat): (packet: Pkt)
    requires p.offset < PACKET_SIZE && j < 2
  {
    PacketAt(w, beyond, StartOf(p, j) + DriftOf(p, w, j))
  }

  /** A packet handed on depends on the byte behind the buffer exactly when it is read past it. */
  lemma BeyondMattersIff(p: Place, w: Window, j: nat)
    requires p.offset < PACKET_SIZE && j < 2
    ensures (forall x: byte :: Extract(p, w, x, j) == Extract(p, w, 0, j)) <==> Inside(p, w, j)
  {
    var last := PACKET_SIZE - 1;
    if Inside(p, w, j) {
      forall x: byte
        ensures Extract(p, w, x, j) == Extract(p, w, 0, j)
      {
      }
    } else {
      assert Extract(p, w, 1, j)[last] == 1 && Extract(p, w, 0, j)[last] == 0;
    }
  }

  /** The pattern at bytes 1 to 3 and, one byte late, at 62 to 64; nothing else. */
  function LateSecond(): Input {
    seq<byte>(CALL_SIZE, i => if i == 1 || i == 62 then HEADER else if i == 2 || i == 63 then 0x08
                              else if i == 3 || i == 64 then SYNC_WORD else 0)
  }

  /** As the first call it has its second packet end with the byte behind the buffer. */
  lemma LateSecondReadsPast(beyond: byte)
    ensures var w := Filled(seq<byte>(PACKET_SIZE, _ => 0), LateSecond());
      var p := Locate(State(seq<byte>(PACKET_SIZE, _ => 0), false, 0), w);
      p == Place(true, 1, 61) && !Inside(p, w, 1) && Extract(p, w, beyond, 1)[PACKET_SIZE - 1] == beyond
  {
    var w := Filled(seq<byte>(PACKET_SIZE, _ => 0), LateSecond());
    var k := FirstSync(w, 0);
    assert Pattern(w, 61);
    if k > 61 {
      NoSyncBeforeFirst(w, 0, 61);
    } else {
      assert forall i | 0 <= i < 61 :: w[i] == 0;
    }
    assert Pattern(w, 122) && w[120] == 0 && w[121] == 0;
  }

  predicate StaysLocked(chip: Chip, p: Place, w: Window)
    requires p.offset < PACKET_SIZE
  {
    p.found && !Abnormal(chip, w, StartOf(p, 0), p.total) && !Abnormal(chip, w, StartOf(p, 1), p.total)
  }

  function Next(chip: Chip, s: State, input: Input): (s': State)
    requires s.offset < PACKET_SIZE
    ensures s'.offset < PACKET_SIZE
  {
    var w := Filled(s.kept, input);
    var p := Locate(s, w);
    State(w[CALL_SIZE..CALL_SIZE + PACKET_SIZE], StaysLocked(chip, p, w), p.offset)
  }

  /** The first three bytes of a packet, as an encoder writes them. */
  predicate StartsPacket(w: Window, i: nat)
    requires i + 2 < WINDOW_SIZE
  {
    w[i] == 0x01 && w[i + 1] % 16 == 0x08 && w[i + 2] == 0xad
  }

  /** No packet stands at a place or one byte beside it, and no muted header stands at it. */
  predicate Vacant(w: Window, at: nat, pattern: byte)
    requires 1 <= at <= CALL_SIZE + 1
  {
    && (forall i | at - 1 <= i <= at + 1 :: !StartsPacket(w, i))
    && !(w[at] == pattern && w[at + 1] % 16 == pattern % 16 && w[at + 2] == pattern)
  }

  /** The first of the two places in the window where packets with an offset are expected; the other is 60 bytes on. */
  function FirstPlace(offset: nat): (at: nat)
    requires offset < PACKET_SIZE
    ensures 2 <= at <= 61 && at % PACKET_SIZE == offset
  {
    if offset == 0 then 60 else if offset == 1 then 61 else offset
  }

  lemma VacantIsAbnormal(chip: Chip, w: Window, at: nat, total: nat)
    requires 1 <= at <= CALL_SIZE + 1
    ensures Abnormal(chip, w, at, total) <==> Vacant(w, at, chip.mutePattern) && at >= total
  {
    assert Pattern(w, at - 1) == StartsPacket(w, at - 1) && Pattern(w, at) == StartsPacket(w, at);
    assert Pattern(w, at + 1) == StartsPacket(w, at + 1);
  }

  /** A locked decoder loses its sync in a call exactly when one of the two places is vacant, and keeps its offset. */
  lemma SyncIsDroppedIff(chip: Chip, s: State, input: Input)
    requires s.offset < PACKET_SIZE && s.locked
    ensures var w, at := Filled(s.kept, input), FirstPlace(s.offset);
      !Next(chip, s, input).locked <==> Vacant(w, at, chip.mutePattern) || Vacant(w, at + 60, chip.mutePattern)
    ensures Next(chip, s, input).offset == s.offset
  {
    var w, at := Filled(s.kept, input), FirstPlace(s.offset);
    VacantIsAbnormal(chip, w, at, 0);
    VacantIsAbnormal(chip, w, at + 60, 0);
  }

  /** One without sync gets it exactly when a pattern is found and neither place behind the first one is vacant. */
  lemma SyncIsFoundIff(chip: Chip, s: State, input: Input)
    requires s.offset < PACKET_SIZE && !s.locked
    ensures var w := Filled(s.kept, input);
      var i := FirstSync(w, 0);
      var at := FirstPlace(i % PACKET_SIZE);
      Next(chip, s, input).locked <==>
        (i < CALL_SIZE && !(at >= i && Vacant(w, at, chip.mutePattern))
         && !(at + 60 >= i && Vacant(w, at + 60, chip.mutePattern)))
    ensures var i := FirstSync(Filled(s.kept, input), 0);
      Next(chip, s, input).offset == if i < CALL_SIZE then i % PACKET_SIZE else s.offset
  {
    var w := Filled(s.kept, input);
    var i := FirstSync(w, 0);
    var at := FirstPlace(i % PACKET_SIZE);
    VacantIsAbnormal(chip, w, at, i);
    VacantIsAbnormal(chip, w, at + 60, i);
  }

  /** A packet one byte early, in place or one byte late is extracted where it is, if it is the only one there. */
  lemma DriftIsFollowed(w: Window, at: nat, d: int)
    requires 1 <= at <= CALL_SIZE + 1 && -1 <= d <= 1 && Pattern(w, at + d)
    requires forall i | at - 1 <= i <= at + 1 && i != at + d :: !Pattern(w, i)
    ensures Drift(w, at) == d
  {
  }

  /** The sender's own offset: the transport's bytes taken off, modulo the packet size. */
  function WithoutOffset(offset: nat, offsetBytes: nat): (t: nat)
    requires offset < PACKET_SIZE && offsetBytes <= 1
    ensures t < PACKET_SIZE
  {
    (offset + PACKET_SIZE - offsetBytes) % PACKET_SIZE
  }

  /** The offset handed to the loss detection. */
  function TransmitOffset(chip: Chip, s: State): (t: nat)
    requires s.offset < PACKET_SIZE && chip.offsetBytes <= 1
    ensures t < PACKET_SIZE
  {
    if s.locked then WithoutOffset(s.offset, chip.offsetBytes) else 0
  }

  /** Put in front again, the transport's bytes lead back to the decoder's offset; without sync 0 is handed over. */
  lemma OffsetComesBack(chip: Chip, s: State)
    requires s.offset < PACKET_SIZE && chip.offsetBytes <= 1
    ensures var t := TransmitOffset(chip, s);
      if s.locked then (t + chip.offsetBytes) % PACKET_SIZE == s.offset else t == 0
  {
  }

  /** Without a sync and without a pattern to find one, the first 120 bytes of the buffer go on as they are. */
  lemma NoSyncHandsOnBytes(s: State, w: Window, beyond: byte)
    requires s.offset < PACKET_SIZE && !s.locked && FirstSync(w, 0) == CALL_SIZE
    ensures Extract(Locate(s, w), w, beyond, 0) == w[..60] && Extract(Locate(s, w), w, beyond, 1) == w[60..120]
  {
  }

  /** bt_sco_codec_msbc_decoder up to the packets it hands on; the buffer is slid in place. */
  class Decoder {
    const chip: Chip
    const buf: array<byte>
    var findFirstSync: bool
    var offset: nat

    ghost predicate Valid()
      reads this, buf
    {
      buf.Length == WINDOW_SIZE && buf[WINDOW_SIZE - 1] == 0 && offset < PACKET_SIZE && chip.offsetBytes <= 1
    }

    ghost function View(): State
      requires Valid()
      reads this, buf
    {
      State(buf[..PACKET_SIZE], findFirstSync, offset)
    }

    constructor (chip: Chip)
      requires chip.offsetBytes <= 1
      ensures Valid() && fresh(buf) && this.chip == chip
      ensures View() == State(seq(PACKET_SIZE, _ => 0), false, 0)
    {
      this.chip := chip;
      buf := new byte[WINDOW_SIZE](_ => 0);
      findFirstSync, offset := false, 0;
    }

    method CopyIn(input: Input)
      requires Valid()
      modifies buf
      ensures Valid() && buf[..] == Filled(old(buf[..PACKET_SIZE]), input)
    {
      forall i | 0 <= i < CALL_SIZE {
        buf[PACKET_SIZE + i] := input[i];
      }
    }

    method Search() returns (i: nat)
      requires Valid()
      ensures i == FirstSync(buf[..], 0)
    {
      i := 0;
      while i < CALL_SIZE && !(buf[i] == HEADER && buf[i + 1] % 16 == 0x08 && buf[i + 2] == SYNC_WORD)
        invariant i <= CALL_SIZE && FirstSync(buf[..], 0) == FirstSync(buf[..], i)
      {
        i := i + 1;
      }
    }

    /** The header check at one expected place: its drift, and whether the place is abnormal. */
    method CheckAgain(at: nat, total: nat) returns (drift: int, bad: bool)
      requires Valid() && 1 <= at <= CALL_SIZE + 1
      ensures drift == Drift(buf[..], at) && bad == Abnormal(chip, buf[..], at, total)
    {
      var headerm1, header0, header1, header2, header3 := buf[at - 1], buf[at], buf[at + 1], buf[at + 2], buf[at + 3];
      drift, bad := 0, false;
      if headerm1 == HEADER && header0 % 16 == 0x08 && header1 == SYNC_WORD {
        drift := -1;
      } else if header0 == HEADER && header1 % 16 == 0x08 && header2 == SYNC_WORD {
        drift := 0;
      } else if header1 == HEADER && header2 % 16 == 0x08 && header3 == SYNC_WORD {
        drift := 1;
      } else if !(header0 == chip.mutePattern && header1 % 16 == chip.mutePattern % 16
                  && header2 == chip.mutePattern) {
        bad := at >= total;
      }
    }

    method Slide()
      requires Valid()
      modifies buf
      ensures Valid() && buf[..PACKET_SIZE] == old(buf[CALL_SIZE..CALL_SIZE + PACKET_SIZE])
    {
      forall i | 0 <= i < PACKET_SIZE {
        buf[i] := buf[i + CALL_SIZE];
      }
    }

    /** The search, when there is no sync yet. */
    method FindFirst() returns (total: nat)
      requires Valid()
      modifies this`findFirstSync, this`offset
      ensures Valid() && Place(findFirstSync, offset, total) == Locate(old(View()), buf[..])
    {
      total := 0;
      if !findFirstSync {
        var i := Search();
        if i < CALL_SIZE {
          findFirstSync, offset, total := true, i % PACKET_SIZE, i;
        }
      }
    }

    /** The check of both expected places; an abnormal one drops the sync. */
    method CheckPlaces(total: nat) returns (lowDelay: nat, drift0: int, drift1: int)
      requires Valid()
      modifies this`findFirstSync
      ensures Valid()
      ensures var p := Place(old(findFirstSync), offset, total);
        && findFirstSync == StaysLocked(chip, p, buf[..])
        && lowDelay == StartOf(p, 0) && drift0 == DriftOf(p, buf[..], 0) && drift1 == DriftOf(p, buf[..], 1)
    {
      lowDelay, drift0, drift1 := 0, 0, 0;
      if findFirstSync {
        lowDelay := if offset == 0 || offset == 1 then offset + PACKET_SIZE else offset;
        var bad0, bad1;
        drift0, bad0 := CheckAgain(lowDelay, total);
        drift1, bad1 := CheckAgain(lowDelay + PACKET_SIZE, total);
        if bad0 || bad1 {
          findFirstSync := false;
        }
      }
    }

    /** A copy out of the buffer, with the byte that may be read behind it. */
    method CopyOut(beyond: byte, from: nat) returns (packet: Pkt)
      requires Valid() && from + PACKET_SIZE <= WINDOW_SIZE + 1
      ensures packet == PacketAt(buf[..], beyond, from)
    {
      if from + PACKET_SIZE <= WINDOW_SIZE {
        packet := buf[from..from + PACKET_SIZE];
      } else {
        packet := buf[from..] + [beyond];
      }
    }

    /** The two packets in the filled buffer, and the offset reported with them. */
    method Take(beyond: byte, ghost w: Window) returns (first: Pkt, second: Pkt, transmit: nat)
      requires Valid() && buf[..] == w
      modifies this`findFirstSync, this`offset
      ensures Valid()
      ensures var p := Locate(old(View()), w);
        && offset == p.offset && findFirstSync == StaysLocked(chip, p, w)
        && first == Extract(p, w, beyond, 0) && second == Extract(p, w, beyond, 1)
      ensures transmit == TransmitOffset(chip, View())
    {
      var total := FindFirst();
      ghost var p := Place(findFirstSync, offset, total);
      var lowDelay, drift0, drift1 := CheckPlaces(total);
      first := CopyOut(beyond, lowDelay + drift0);
      second := CopyOut(beyond, lowDelay + PACKET_SIZE + drift1);
      transmit := if findFirstSync then WithoutOffset(offset, chip.offsetBytes) else 0;
    }

    /** bt_sco_codec_msbc_decoder for one call. */
    method Decode(input: Input, beyond: byte) returns (first: Pkt, second: Pkt, transmit: nat)
      requires Valid()
      modifies this`findFirstSync, this`offset, buf
      ensures Valid()
      ensures View() == Next(chip, old(View()), input) && transmit == TransmitOffset(chip, View())
      ensures var w := Filled(old(buf[..PACKET_SIZE]), input);
        var p := Locate(old(View()), w);
        first == Extract(p, w, beyond, 0) && second == Extract(p, w, beyond, 1)
    {
      ghost var w := Filled(buf[..PACKET_SIZE], input);
      CopyIn(input);
      first, second, transmit := Take(beyond, w);
      assert buf[CALL_SIZE..CALL_SIZE + PACKET_SIZE] == w[CALL_SIZE..CALL_SIZE + PACKET_SIZE];
      Slide();
    }
  }
}

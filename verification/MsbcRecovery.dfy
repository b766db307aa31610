/** A decoder whose packets have moved: it drops the old sync, finds the new one, and extracts everything from there. */
module MsbcRecovery {
  import opened Bytes
  import opened MsbcPackets
  import opened MsbcDecoder
  import opened MsbcStream

  /** From byte `start` on packets stand 60 bytes apart at offset o, and nothing else looks like one. */
  ghost predicate AlignedFrom(s: seq<byte>, o: nat, start: nat) {
    o < PACKET_SIZE && forall q: nat | start <= q && q + 2 < |s| :: Pattern(s, q) <==> q % PACKET_SIZE == o
  }

  type Ready = st: State | st.offset < PACKET_SIZE witness State(seq(PACKET_SIZE, _ => 0), false, 0)

  function Iterate<S>(step: (S, nat) -> S, start: S, c: nat, n: nat): S {
    if n == 0 then start else step(Iterate(step, start, c, n - 1), c + n - 1)
  }

  function CallStep(chip: Chip, s: seq<byte>): (Ready, nat) -> Ready {
    (st: Ready, c: nat) => Next(chip, st, Call(s, c))
  }

  /** The decoder `n` calls on from call c, whatever it was before. */
  function After(chip: Chip, st: Ready, s: seq<byte>, c: nat, n: nat): Ready {
    Iterate(CallStep(chip, s), st, c, n)
  }

  /** What slot j of call c hands on. */
  function HandsOn(st: Ready, s: seq<byte>, beyond: byte, c: nat, j: nat): Pkt
    requires j < 2
  {
    var w := Filled(st.kept, Call(s, c));
    Extract(Locate(st, w), w, beyond, j)
  }

  // ---- What a window shows ----

  lemma CallByte(s: seq<byte>, kept: Pkt, c: nat, i: nat)
    requires CALL_SIZE * (c + 1) <= |s| && PACKET_SIZE <= i < WINDOW_SIZE - 1
    ensures CALL_SIZE * c + i - PACKET_SIZE < |s|
    ensures Filled(kept, Call(s, c))[i] == s[CALL_SIZE * c + i - PACKET_SIZE]
  {
    PartByte(s, CALL_SIZE * c, CALL_SIZE, i - PACKET_SIZE);
  }

  lemma SameResidue(c: nat, i: nat)
    requires CALL_SIZE * c + i >= PACKET_SIZE
    ensures (CALL_SIZE * c + i - PACKET_SIZE) % PACKET_SIZE == i % PACKET_SIZE
  {
    assert CALL_SIZE * c + i - PACKET_SIZE == PACKET_SIZE * (2 * c - 1) + i;
  }

  /** In the part a call brings, behind whatever was kept. */
  lemma PatternInCall(s: seq<byte>, o: nat, kept: Pkt, c: nat, i: nat)
    requires AlignedFrom(s, o, CALL_SIZE * c) && CALL_SIZE * (c + 1) <= |s|
    requires PACKET_SIZE <= i && i + 2 < WINDOW_SIZE - 1
    ensures Pattern(Filled(kept, Call(s, c)), i) <==> i % PACKET_SIZE == o
  {
    CallByte(s, kept, c, i);
    CallByte(s, kept, c, i + 1);
    CallByte(s, kept, c, i + 2);
    SameResidue(c, i);
    var q: nat := CALL_SIZE * c + i - PACKET_SIZE;
    assert Pattern(s, q) <==> q % PACKET_SIZE == o;
  }

  /** In a whole window, once what was kept is of the same stream. */
  lemma PatternInWindow(s: seq<byte>, o: nat, c: nat, i: nat)
    requires c > 0 && AlignedFrom(s, o, CALL_SIZE * c - PACKET_SIZE) && CALL_SIZE * (c + 1) <= |s|
    requires i + 2 < WINDOW_SIZE - 1
    ensures Pattern(WindowOf(s, c), i) <==> i % PACKET_SIZE == o
  {
    WindowByte(s, c, i);
    WindowByte(s, c, i + 1);
    WindowByte(s, c, i + 2);
    SameResidue(c, i);
    var q: nat := CALL_SIZE * c + i - PACKET_SIZE;
    assert Pattern(s, q) <==> q % PACKET_SIZE == o;
  }

  /** What a call leaves is the end of what it brought. */
  lemma KeptIsPart(s: seq<byte>, kept: Pkt, c: nat)
    ensures Filled(kept, Call(s, c))[CALL_SIZE..CALL_SIZE + PACKET_SIZE] ==
            Part(s, CALL_SIZE * (c + 1) - PACKET_SIZE, PACKET_SIZE)
  {
    var slid, from := Filled(kept, Call(s, c))[CALL_SIZE..CALL_SIZE + PACKET_SIZE], CALL_SIZE * (c + 1) - PACKET_SIZE;
    forall i | 0 <= i < PACKET_SIZE
      ensures slid[i] == Part(s, from, PACKET_SIZE)[i]
    {
      PartByte(s, CALL_SIZE * c, CALL_SIZE, PACKET_SIZE + i);
      PartByte(s, from, PACKET_SIZE, i);
    }
  }

  // ---- The first call: the old sync is dropped ----

  /** The new packets stand neither at the old places nor one byte beside them. */
  predicate Apart(old': nat, o: nat) {
    o != old' && (o + 1) % PACKET_SIZE != old' && (old' + 1) % PACKET_SIZE != o
  }

  /** The second of the old places, in the stream, for call c. */
  function OldPlace(old': nat, c: nat): nat
    requires old' < PACKET_SIZE
  {
    CALL_SIZE * c + FirstPlace(old')
  }

  predicate MutedHeader(s: seq<byte>, q: nat, pattern: byte) {
    q + 2 < |s| && s[q] == pattern && s[q + 1] % 16 == pattern % 16 && s[q + 2] == pattern
  }

  lemma OldPlaceIsVacant(chip: Chip, st: Ready, s: seq<byte>, c: nat, o: nat)
    requires AlignedFrom(s, o, CALL_SIZE * c) && CALL_SIZE * (c + 1) <= |s|
    requires Apart(st.offset, o) && !MutedHeader(s, OldPlace(st.offset, c), chip.mutePattern)
    ensures Vacant(Filled(st.kept, Call(s, c)), FirstPlace(st.offset) + 60, chip.mutePattern)
  {
    var w, at := Filled(st.kept, Call(s, c)), FirstPlace(st.offset) + 60;
    forall i | at - 1 <= i <= at + 1
      ensures !StartsPacket(w, i)
    {
      PatternInCall(s, o, st.kept, c, i);
      assert StartsPacket(w, i) == Pattern(w, i);
      BesideIsApart(st.offset, o, i - at);
    }
    CallByte(s, st.kept, c, at);
    CallByte(s, st.kept, c, at + 1);
    CallByte(s, st.kept, c, at + 2);
  }

  lemma BesideIsApart(old': nat, o: nat, d: int)
    requires old' < PACKET_SIZE && o < PACKET_SIZE && Apart(old', o) && -1 <= d <= 1
    ensures (FirstPlace(old') + 60 + d) % PACKET_SIZE != o
  {
  }

  lemma SyncIsLost(chip: Chip, st: Ready, s: seq<byte>, c: nat, o: nat)
    requires st.locked && AlignedFrom(s, o, CALL_SIZE * c) && CALL_SIZE * (c + 1) <= |s|
    requires Apart(st.offset, o) && !MutedHeader(s, OldPlace(st.offset, c), chip.mutePattern)
    ensures Next(chip, st, Call(s, c)) ==
            State(Part(s, CALL_SIZE * (c + 1) - PACKET_SIZE, PACKET_SIZE), false, st.offset)
  {
    OldPlaceIsVacant(chip, st, s, c, o);
    SyncIsDroppedIff(chip, st, Call(s, c));
    KeptIsPart(s, st.kept, c);
  }

  // ---- The second call and all later ones ----

  /** The decoder before call c, locked or not. */
  function Standing(s: seq<byte>, c: nat, locked: bool, offset: nat): Ready
    requires c > 0 && offset < PACKET_SIZE
  {
    State(Part(s, CALL_SIZE * c - PACKET_SIZE, PACKET_SIZE), locked, offset)
  }

  lemma FirstSyncIs(w: Window, o: nat)
    requires o < CALL_SIZE && Pattern(w, o) && forall i | 0 <= i < o :: !Pattern(w, i)
    ensures FirstSync(w, 0) == o
  {
    if FirstSync(w, 0) > o {
      NoSyncBeforeFirst(w, 0, o);
    }
  }

  lemma FirstIsFound(s: seq<byte>, o: nat, c: nat)
    requires c > 0 && AlignedFrom(s, o, CALL_SIZE * c - PACKET_SIZE) && CALL_SIZE * (c + 1) <= |s|
    ensures FirstSync(WindowOf(s, c), 0) == o
  {
    var w := WindowOf(s, c);
    PatternInWindow(s, o, c, o);
    forall i | 0 <= i < o
      ensures !Pattern(w, i)
    {
      PatternInWindow(s, o, c, i);
    }
    FirstSyncIs(w, o);
  }

  /** Either way it looks for packets at the stream's offset. */
  lemma LooksThere(s: seq<byte>, o: nat, c: nat, locked: bool, offset: nat)
    requires c > 0 && AlignedFrom(s, o, CALL_SIZE * c - PACKET_SIZE) && CALL_SIZE * (c + 1) <= |s|
    requires offset < PACKET_SIZE && (locked ==> offset == o)
    ensures Locate(Standing(s, c, locked, offset), WindowOf(s, c)) == Place(true, o, if locked then 0 else o)
  {
    FirstIsFound(s, o, c);
  }

  /** Both places show their packet without drift. */
  lemma PlaceShows(chip: Chip, s: seq<byte>, o: nat, c: nat, j: nat, total: nat)
    requires c > 0 && AlignedFrom(s, o, CALL_SIZE * c - PACKET_SIZE) && CALL_SIZE * (c + 1) <= |s| && j < 2
    ensures var p, w := Place(true, o, total), WindowOf(s, c);
      DriftOf(p, w, j) == 0 && !Abnormal(chip, w, StartOf(p, j), total)
  {
    var p, w := Place(true, o, total), WindowOf(s, c);
    var at := StartOf(p, j);
    assert at % PACKET_SIZE == o && (at - 1) % PACKET_SIZE != o;
    PatternInWindow(s, o, c, at - 1);
    PatternInWindow(s, o, c, at);
  }

  lemma StandsOn(chip: Chip, s: seq<byte>, o: nat, c: nat, locked: bool, offset: nat)
    requires c > 0 && AlignedFrom(s, o, CALL_SIZE * c - PACKET_SIZE) && CALL_SIZE * (c + 1) <= |s|
    requires offset < PACKET_SIZE && (locked ==> offset == o)
    ensures Next(chip, Standing(s, c, locked, offset), Call(s, c)) == Standing(s, c + 1, true, o)
  {
    LooksThere(s, o, c, locked, offset);
    PlaceShows(chip, s, o, c, 0, if locked then 0 else o);
    PlaceShows(chip, s, o, c, 1, if locked then 0 else o);
    Slid(s, c);
  }

  lemma PlaceHolds(chip: Chip, s: seq<byte>, beyond: byte, o: nat, c: nat, j: nat, total: nat)
    requires c > 0 && AlignedFrom(s, o, CALL_SIZE * c - PACKET_SIZE) && CALL_SIZE * (c + 1) <= |s| && j < 2
    ensures Extract(Place(true, o, total), WindowOf(s, c), beyond, j) == Expected(s, o, c, j)
  {
    PlaceShows(chip, s, o, c, j, total);
    assert StartOf(Place(true, o, total), j) == StartOf(PlaceOf(o, c), j);
    SlotHolds(s, beyond, o, c, j);
  }

  lemma ExtractsThere(
      chip: Chip, s: seq<byte>, beyond: byte, o: nat, c: nat, j: nat, locked: bool, offset: nat)
    requires c > 0 && AlignedFrom(s, o, CALL_SIZE * c - PACKET_SIZE) && CALL_SIZE * (c + 1) <= |s| && j < 2
    requires offset < PACKET_SIZE && (locked ==> offset == o)
    ensures HandsOn(Standing(s, c, locked, offset), s, beyond, c, j) == Expected(s, o, c, j)
  {
    LooksThere(s, o, c, locked, offset);
    PlaceHolds(chip, s, beyond, o, c, j, if locked then 0 else o);
  }

  // ---- Together ----

  lemma AlignedLater(s: seq<byte>, o: nat, from: nat, to: nat)
    requires AlignedFrom(s, o, from) && from <= to
    ensures AlignedFrom(s, o, to)
  {
  }

  lemma OneMoreCall(chip: Chip, st: Ready, s: seq<byte>, c: nat, n: nat)
    ensures After(chip, st, s, c, 0) == st
    ensures After(chip, st, s, c, n + 1) == CallStep(chip, s)(After(chip, st, s, c, n), c + n)
  {
  }

  lemma FirstCall(chip: Chip, st: Ready, s: seq<byte>, c: nat, o: nat)
    requires st.locked && AlignedFrom(s, o, CALL_SIZE * c) && CALL_SIZE * (c + 1) <= |s|
    requires Apart(st.offset, o) && !MutedHeader(s, OldPlace(st.offset, c), chip.mutePattern)
    ensures CallStep(chip, s)(st, c) == Standing(s, c + 1, false, st.offset)
  {
    SyncIsLost(chip, st, s, c, o);
  }

  /** One of the later calls. */
  lemma StandingGoesOn(chip: Chip, t: Ready, s: seq<byte>, c: nat, m: nat, o: nat, locked: bool, offset: nat)
    requires c < m && AlignedFrom(s, o, CALL_SIZE * c) && CALL_SIZE * (m + 1) <= |s|
    requires offset < PACKET_SIZE && (locked ==> offset == o) && t == Standing(s, m, locked, offset)
    ensures CallStep(chip, s)(t, m) == Standing(s, m + 1, true, o)
  {
    AlignedLater(s, o, CALL_SIZE * c, CALL_SIZE * m - PACKET_SIZE);
    StandsOn(chip, s, o, m, locked, offset);
  }

  lemma AfterFirstCall(chip: Chip, st: Ready, s: seq<byte>, c: nat, o: nat)
    requires st.locked && AlignedFrom(s, o, CALL_SIZE * c) && CALL_SIZE * (c + 1) <= |s|
    requires Apart(st.offset, o) && !MutedHeader(s, OldPlace(st.offset, c), chip.mutePattern)
    ensures After(chip, st, s, c, 1) == Standing(s, c + 1, false, st.offset)
  {
    OneMoreCall(chip, st, s, c, 0);
    FirstCall(chip, st, s, c, o);
  }

  /** A sequence of states that each step leads on from is what repetition gives. */
  lemma {:induction false} IterateFollows<S>(
      step: (S, nat) -> S, start: S, c: nat, stand: nat -> S, n: nat, last: nat)
    requires 0 < n && c + n <= last && Iterate(step, start, c, 1) == stand(c + 1)
    requires forall m: nat | c < m < last :: step(stand(m), m) == stand(m + 1)
    ensures Iterate(step, start, c, n) == stand(c + n)
    decreases n
  {
    if n > 1 {
      IterateFollows(step, start, c, stand, n - 1, last);
      assert step(stand(c + n - 1), c + n - 1) == stand(c + n - 1 + 1);
    }
  }

  /** Where the decoder stands before call m, after a first call c that lost the sync at `old'`. */
  function Course(s: seq<byte>, c: nat, o: nat, old': nat): nat -> Ready
    requires o < PACKET_SIZE && old' < PACKET_SIZE
  {
    (m: nat) => Standing(s, if m > 0 then m else 1, m > c + 1, if m > c + 1 then o else old')
  }

  lemma CourseGoesOn(chip: Chip, s: seq<byte>, c: nat, o: nat, old': nat, m: nat)
    requires AlignedFrom(s, o, CALL_SIZE * c) && old' < PACKET_SIZE && c < m && CALL_SIZE * (m + 1) <= |s|
    ensures CallStep(chip, s)(Course(s, c, o, old')(m), m) == Course(s, c, o, old')(m + 1)
  {
    StandingGoesOn(chip, Course(s, c, o, old')(m), s, c, m, o, m > c + 1, if m > c + 1 then o else old');
  }

  lemma FollowsCourse(chip: Chip, st: Ready, s: seq<byte>, c: nat, o: nat, old': nat, n: nat)
    requires AlignedFrom(s, o, CALL_SIZE * c) && old' < PACKET_SIZE && CALL_SIZE * (c + n) <= |s| && n > 0
    requires After(chip, st, s, c, 1) == Course(s, c, o, old')(c + 1)
    ensures After(chip, st, s, c, n) == Course(s, c, o, old')(c + n)
  {
    var course := Course(s, c, o, old');
    forall m: nat | c < m < c + n
      ensures CallStep(chip, s)(course(m), m) == course(m + 1)
    {
      CourseGoesOn(chip, s, c, o, old', m);
    }
    IterateFollows(CallStep(chip, s), st, c, course, n, c + n);
  }

  /** From the second call on. */
  lemma StandsAfter(chip: Chip, st: Ready, s: seq<byte>, c: nat, o: nat, n: nat)
    requires st.locked && AlignedFrom(s, o, CALL_SIZE * c) && CALL_SIZE * (c + n) <= |s|
    requires Apart(st.offset, o) && !MutedHeader(s, OldPlace(st.offset, c), chip.mutePattern) && n > 0
    ensures After(chip, st, s, c, n) == Standing(s, c + n, n > 1, if n > 1 then o else st.offset)
  {
    AfterFirstCall(chip, st, s, c, o);
    FollowsCourse(chip, st, s, c, o, st.offset, n);
  }

  lemma StandingExtracts(
      chip: Chip, t: Ready, s: seq<byte>, beyond: byte, c: nat, m: nat, o: nat, j: nat, locked: bool, offset: nat)
    requires c < m && AlignedFrom(s, o, CALL_SIZE * c) && CALL_SIZE * (m + 1) <= |s| && j < 2
    requires offset < PACKET_SIZE && (locked ==> offset == o) && t == Standing(s, m, locked, offset)
    ensures HandsOn(t, s, beyond, m, j) == Expected(s, o, m, j)
  {
    AlignedLater(s, o, CALL_SIZE * c, CALL_SIZE * m - PACKET_SIZE);
    ExtractsThere(chip, s, beyond, o, m, j, locked, offset);
  }

  /** From the second call on every packet is extracted, as on a stream that had this offset from the start. */
  lemma ExtractsFromSecondCall(
      chip: Chip, st: Ready, s: seq<byte>, beyond: byte, c: nat, o: nat, n: nat, j: nat)
    requires st.locked && AlignedFrom(s, o, CALL_SIZE * c)
    requires Apart(st.offset, o) && !MutedHeader(s, OldPlace(st.offset, c), chip.mutePattern)
    requires n > 0 && CALL_SIZE * (c + n + 1) <= |s| && j < 2
    ensures HandsOn(After(chip, st, s, c, n), s, beyond, c + n, j) == Expected(s, o, c + n, j)
  {
    var t, m, offset := After(chip, st, s, c, n), c + n, if n > 1 then o else st.offset;
    assert t == Standing(s, m, n > 1, offset) by {
      StandsAfter(chip, st, s, c, o, n);
    }
    StandingExtracts(chip, t, s, beyond, c, m, o, j, n > 1, offset);
  }

  /**
   * A decoder locked at any offset, when the packets stand elsewhere from call c on: the sync is lost in that call,
   * found at the new offset in the next, and kept from then on.
   */
  lemma RecoversInTwoCalls(chip: Chip, st: Ready, s: seq<byte>, c: nat, o: nat, n: nat)
    requires st.locked && AlignedFrom(s, o, CALL_SIZE * c)
    requires Apart(st.offset, o) && !MutedHeader(s, OldPlace(st.offset, c), chip.mutePattern)
    requires n > 0 && CALL_SIZE * (c + n) <= |s|
    ensures var t := After(chip, st, s, c, n); t.locked == (n >= 2) && t.offset == if n >= 2 then o else st.offset
  {
    StandsAfter(chip, st, s, c, o, n);
  }
}

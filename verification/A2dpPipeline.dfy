/** Store side, MCU loader and coprocessor parser together: packets in, the same packets out, in every interleaving. */
module A2dpPipeline {
  import opened Bytes
  import opened Cyclic
  import opened CQueues
  import opened A2dpFrames
  import R = CpRing

  lemma AppendTwice(c: seq<byte>, x: seq<byte>, y: seq<byte>)
    ensures c + x + y == c + (x + y)
  {
  }

  lemma DropPrefix(c: seq<byte>, x: seq<byte>, y: seq<byte>)
    requires c + x == c + y
    ensures x == y
  {
    assert x == (c + x)[|c|..] && y == (c + y)[|c|..];
  }

  /** The store side for AAC: a length and the packet, together or not at all. */
  method StoreAac(q: CQueue, buf: seq<byte>) returns (ok: bool)
    requires q.Valid()
    modifies q`len, q`write, q.base
    ensures q.Valid()
    ensures ok == (|old(q.Contents())| + |Encode(Aac, buf)| <= q.base.Length)
    ensures q.Contents() == if ok then old(q.Contents()) + Encode(Aac, buf) else old(q.Contents())
  {
    var available := q.AvailableOfCQueue();
    ok := available >= |buf| + AAC_LEN_BYTES;
    if ok {
      var len := Le16(|buf| % 0x1_0000);
      AppendTwice(q.Contents(), len, buf);
      var _ := q.EnCQueue(len);
      var _ := q.EnCQueue(buf);
    }
  }

  /** What the store side queues: nothing unless a packet was assembled that is not empty. */
  function LhdcFrame(assembled: bool, packet: seq<byte>): seq<byte> {
    if assembled && packet != [] then Encode(Lhdc, packet) else []
  }

  /**
   * The store side for LHDC: tag, length and packet in one enqueue. The frame is put together in a buffer of 4096
   * bytes without a test; nothing is described once it leaves the buffer.
   */
  method StoreLhdc(q: CQueue, assembled: bool, packet: seq<byte>) returns (ok: bool, overrun: bool)
    requires q.Valid()
    modifies q`len, q`write, q.base
    ensures q.Valid()
    ensures overrun <==> |LhdcFrame(assembled, packet)| > LHDC_READBUF_SIZE
    ensures !overrun ==>
              var frame := LhdcFrame(assembled, packet);
              && ok == (|old(q.Contents())| + |frame| <= q.base.Length)
              && q.Contents() == if ok then old(q.Contents()) + frame else old(q.Contents())
  {
    var tempBuf := [];
    if assembled && packet != [] {
      if LHDC_HEADER_SIZE + |packet| > LHDC_READBUF_SIZE {
        return false, true;
      }
      tempBuf := LHDC_TAG + Le32(|packet| % 0x1_0000_0000) + packet;
    }
    ok := q.EnCQueue(tempBuf);
    overrun := false;
  }

  datatype State = State(
    codec: Codec, capacity: nat, ring: R.State, accepted: seq<Packet>, returned: seq<Packet>, resetQueue: bool)

  /** Mcu stands for any MCU step of the ring; CpMove is the loader's next move on what it has read. */
  datatype Action = Store(p: Packet) | Mcu(a: R.Action) | CpSnapshot | CpMove

  function Initial(codec: Codec, capacity: nat, cache: seq<byte>): State {
    State(codec, capacity, R.Initial(cache), [], [], false)
  }

  predicate McuAction(a: R.Action) {
    a.SnapshotFree? || a.ReadLength? || a.Peek? || a.CopyByte? || a.Publish? || a.Dequeue?
  }

  /** The loader's next move at the present point of its load. */
  function Next(s: State): Move
    requires s.ring.cp.Loading? && s.ring.cp.skip <= s.ring.cp.avail
  {
    NextMove(s.codec, s.ring.cp.avail - s.ring.cp.skip, s.ring.cp.buf)
  }

  function RingAction(m: Move, skip: nat): R.Action {
    match m
    case Read => R.ReadByte
    case Skip => R.SkipByte
    case GiveUp => R.Abandon
    case Reject => R.Abandon
    case Take(_, used) => R.Commit(skip + used)
  }

  predicate Enabled(s: State, a: Action) {
    && R.InRange(s.ring)
    && match a
       case Store(p) => Storable(s.codec, p)
       case Mcu(b) => McuAction(b) && R.Enabled(s.ring, b)
       case CpSnapshot => R.Enabled(s.ring, R.SnapshotAvail)
       case CpMove =>
         && s.ring.cp.Loading? && s.ring.cp.skip <= s.ring.cp.avail
         && R.Enabled(s.ring, RingAction(Next(s), s.ring.cp.skip))
  }

  function Step(s: State, a: Action): State
    requires Enabled(s, a)
  {
    match a
    case Store(p) =>
      if |s.ring.queue| + |Encode(s.codec, p)| <= s.capacity then
        s.(ring := R.Step(s.ring, R.Enqueue(Encode(s.codec, p))), accepted := s.accepted + [p])
      else s
    case Mcu(b) => s.(ring := R.Step(s.ring, b))
    case CpSnapshot => s.(ring := R.Step(s.ring, R.SnapshotAvail))
    case CpMove =>
      var m := Next(s);
      s.(ring := R.Step(s.ring, RingAction(m, s.ring.cp.skip)),
         returned := if m.Take? then s.returned + [m.packet] else s.returned,
         resetQueue := s.resetQueue || m.Reject?)
  }

  ghost predicate Inv(s: State) {
    && R.Inv(s.ring)
    && (forall p | p in s.accepted :: Storable(s.codec, p))
    && s.ring.enqueued == Stream(s.codec, s.accepted)
    && s.ring.consumed == Stream(s.codec, s.returned)
    && s.returned <= s.accepted
    && !s.resetQueue
    && (s.ring.cp.Loading? ==> s.ring.cp.skip == 0)
  }

  /** A packet is accepted exactly when its frame fits the queue as it is, and otherwise nothing changes. */
  lemma StoresWholeIff(s: State, p: Packet)
    requires Inv(s) && Enabled(s, Store(p))
    ensures var t, header := Step(s, Store(p)), if s.codec == Aac then 2 else 8;
      if |s.ring.queue| + header + |p| <= s.capacity
      then t.accepted == s.accepted + [p] && t.ring.queue == s.ring.queue + Encode(s.codec, p)
      else t == s
  {
  }

  /** The packets stored and not yet parsed back. */
  function Rest(s: State): seq<Packet>
    requires s.returned <= s.accepted
  {
    s.accepted[|s.returned|..]
  }

  /** The unconsumed bytes are the frames of the packets still to come. */
  lemma RestIsStream(s: State)
    requires Inv(s)
    ensures R.Live(s.ring) + R.Pending(s.ring) == Stream(s.codec, Rest(s))
  {
    StreamConcat(s.codec, s.returned, Rest(s));
    assert s.returned + Rest(s) == s.accepted;
    AppendTwice(s.ring.consumed, R.Live(s.ring), R.Pending(s.ring));
    DropPrefix(s.ring.consumed, R.Live(s.ring) + R.Pending(s.ring), Stream(s.codec, Rest(s)));
  }

  /** What was read is the beginning of the frames still to come. */
  lemma BufIsPrefix(s: State)
    requires Inv(s) && s.ring.cp.Loading?
    ensures s.ring.cp.buf <= Stream(s.codec, Rest(s)) && |s.ring.cp.buf| <= s.ring.cp.avail
    ensures s.ring.cp.avail <= |Stream(s.codec, Rest(s))|
  {
    RestIsStream(s);
  }

  /** The first packet still to come, with its frame in front of the others. */
  lemma FirstOfRest(s: State)
    requires Inv(s) && Rest(s) != []
    ensures Storable(s.codec, Rest(s)[0])
    ensures Stream(s.codec, Rest(s)) == Encode(s.codec, Rest(s)[0]) + Stream(s.codec, Rest(s)[1..])
  {
    assert Rest(s)[0] == s.accepted[|s.returned|];
  }

  lemma PrefixesHold(codec: Codec, p: Packet, buf: seq<byte>, stream: seq<byte>, more: seq<byte>)
    requires buf <= stream && stream == Encode(codec, p) + more
    ensures Holds(codec, p, buf)
  {
    if |buf| <= |Encode(codec, p)| {
      assert buf == stream[..|buf|] == Encode(codec, p)[..|buf|];
    } else {
      assert buf[..|Encode(codec, p)|] == stream[..|Encode(codec, p)|] == Encode(codec, p);
    }
  }

  /** What the loader makes of the next packet still to come. */
  lemma NextFollowsFrame(s: State)
    requires Inv(s) && s.ring.cp.Loading?
    ensures Rest(s) == [] ==> Next(s) == GiveUp
    ensures Rest(s) != [] ==>
              var cp, p := s.ring.cp, Rest(s)[0];
              var whole := |Encode(s.codec, p)|;
              && Storable(s.codec, p)
              && (if cp.avail < whole then Next(s).GiveUp? || (Next(s).Read? && |cp.buf| < cp.avail)
                  else if |cp.buf| < whole then Next(s).Read?
                  else Next(s) == Take(p, whole))
  {
    BufIsPrefix(s);
    var cp := s.ring.cp;
    if Rest(s) != [] {
      FirstOfRest(s);
      PrefixesHold(s.codec, Rest(s)[0], cp.buf, Stream(s.codec, Rest(s)), Stream(s.codec, Rest(s)[1..]));
      MoveOnFrame(s.codec, Rest(s)[0], cp.avail, cp.buf);
    }
  }

  lemma TakenIsOldest(s: State)
    requires Inv(s) && Enabled(s, CpMove) && Next(s).Take?
    ensures Rest(s) != [] && Next(s) == Take(Rest(s)[0], |Encode(s.codec, Rest(s)[0])|)
    ensures |Encode(s.codec, Rest(s)[0])| <= |R.Live(s.ring)|
    ensures R.Live(s.ring)[..|Encode(s.codec, Rest(s)[0])|] == Encode(s.codec, Rest(s)[0])
  {
    NextFollowsFrame(s);
    FirstOfRest(s);
    RestIsStream(s);
    PrefixOfConcat(R.Live(s.ring), R.Pending(s.ring), Encode(s.codec, Rest(s)[0]), Stream(s.codec, Rest(s)[1..]));
  }

  lemma TakeFromRing(s: State)
    requires Inv(s) && Enabled(s, CpMove) && Next(s).Take?
    ensures Rest(s) != []
    ensures var r := Step(s, CpMove).ring;
      R.Inv(r) && r.cp.CpIdle? && r.enqueued == s.ring.enqueued
      && r.consumed == s.ring.consumed + Encode(s.codec, Rest(s)[0])
  {
    TakenIsOldest(s);
    var n := |Encode(s.codec, Rest(s)[0])|;
    R.CommitKeepsInv(s.ring, n);
    R.CommitEffect(s.ring, n);
  }

  /** What a taken packet changes outside the ring. */
  lemma TakeOutsideRing(s: State)
    requires Inv(s) && Enabled(s, CpMove) && Next(s).Take?
    ensures Rest(s) != []
    ensures Step(s, CpMove) == s.(ring := Step(s, CpMove).ring, returned := s.returned + [Rest(s)[0]])
  {
    TakenIsOldest(s);
  }

  lemma OneMoreReturned(accepted: seq<Packet>, returned: seq<Packet>)
    requires returned <= accepted && accepted[|returned|..] != []
    ensures returned + [accepted[|returned|..][0]] <= accepted
  {
  }

  lemma TakeKeepsInv(s: State)
    requires Inv(s) && Enabled(s, CpMove) && Next(s).Take?
    ensures Inv(Step(s, CpMove))
    ensures Rest(s) != [] && Step(s, CpMove).returned == s.returned + [Rest(s)[0]]
  {
    TakeFromRing(s);
    TakeOutsideRing(s);
    OneMoreReturned(s.accepted, s.returned);
    StreamAppend(s.codec, s.returned, Rest(s)[0]);
  }

  lemma PrefixOfConcat(x: seq<byte>, y: seq<byte>, whole: seq<byte>, z: seq<byte>)
    requires x + y == whole + z && |whole| <= |x|
    ensures x[..|whole|] == whole
  {
    assert x[..|whole|] == (x + y)[..|whole|] == (whole + z)[..|whole|] == whole;
  }

  lemma StoreKeepsInv(s: State, p: Packet)
    requires Inv(s) && Enabled(s, Store(p))
    ensures Inv(Step(s, Store(p)))
  {
    R.EnqueueKeepsInv(s.ring, Encode(s.codec, p));
    StreamAppend(s.codec, s.accepted, p);
  }

  lemma StepKeepsInv(s: State, a: Action)
    requires Inv(s) && Enabled(s, a)
    ensures Inv(Step(s, a))
  {
    match a
    case Store(p) => StoreKeepsInv(s, p);
    case Mcu(b) => R.StepKeepsInv(s.ring, b);
    case CpSnapshot => R.StepKeepsInv(s.ring, R.SnapshotAvail);
    case CpMove =>
      NextFollowsFrame(s);
      if Next(s).Take? {
        TakeKeepsInv(s);
      } else {
        R.StepKeepsInv(s.ring, RingAction(Next(s), s.ring.cp.skip));
      }
  }

  ghost predicate Runs(s: State, as': seq<Action>, t: State)
    decreases |as'|
  {
    if as' == [] then s == t
    else Enabled(s, as'[0]) && Runs(Step(s, as'[0]), as'[1..], t)
  }

  lemma {:induction false} RunKeepsInv(s: State, as': seq<Action>, t: State)
    requires Inv(s) && Runs(s, as', t)
    ensures Inv(t)
    decreases |as'|
  {
    if as' != [] {
      StepKeepsInv(s, as'[0]);
      RunKeepsInv(Step(s, as'[0]), as'[1..], t);
    }
  }

  lemma InitialInv(codec: Codec, capacity: nat, cache: seq<byte>)
    requires cache != []
    ensures Inv(Initial(codec, capacity, cache))
  {
    assert Window(cache, 0, 0) == [];
  }

  /**
   * The packets parsed back are byte for byte the first ones the store side accepted, in order, for every run;
   * no header is ever rejected, and once no byte is left on the way every accepted packet has been returned.
   */
  lemma PacketsInOrder(codec: Codec, capacity: nat, cache: seq<byte>, as': seq<Action>, t: State)
    requires cache != [] && Runs(Initial(codec, capacity, cache), as', t)
    ensures t.returned <= t.accepted && !t.resetQueue
    ensures R.InRange(t.ring) && (R.Live(t.ring) + R.Pending(t.ring) == [] <==> t.returned == t.accepted)
  {
    InitialInv(codec, capacity, cache);
    RunKeepsInv(Initial(codec, capacity, cache), as', t);
    RestIsStream(t);
  }

  lemma RingMoveIsEnabled(r: R.State, m: Move)
    requires R.Inv(r) && r.cp.Loading? && r.cp.skip == 0
    requires m.Read? ==> |r.cp.buf| < r.cp.avail
    requires m.Skip? ==> r.cp.avail > 0
    requires m.Take? ==> m.used <= |r.cp.buf|
    ensures R.Enabled(r, RingAction(m, 0))
  {
  }

  lemma MoveIsEnabled(s: State)
    requires Inv(s) && s.ring.cp.Loading?
    ensures Enabled(s, CpMove)
  {
    MoveIsPossible(s.codec, s.ring.cp.avail, s.ring.cp.buf);
    RingMoveIsEnabled(s.ring, Next(s));
  }

  /** A load moves on until it returns the next packet, and stops without it only while its bytes are incomplete. */
  lemma LoadStopsOnlyShort(codec: Codec, capacity: nat, cache: seq<byte>, as': seq<Action>, t: State)
    requires cache != [] && Runs(Initial(codec, capacity, cache), as', t) && t.ring.cp.Loading?
    ensures Enabled(t, CpMove) && t.returned <= t.accepted
    ensures Next(t).GiveUp? ==> Rest(t) == [] || t.ring.cp.avail < |Encode(t.codec, Rest(t)[0])|
    ensures Next(t).GiveUp? || Next(t).Read?
            || (Rest(t) != [] && Next(t) == Take(Rest(t)[0], |Encode(t.codec, Rest(t)[0])|))
  {
    InitialInv(codec, capacity, cache);
    RunKeepsInv(Initial(codec, capacity, cache), as', t);
    MoveIsEnabled(t);
    NextFollowsFrame(t);
  }

  // ---- A load without interference ----

  /** The packet a load in progress is to return: the next one, if the snapshot covers its frame. */
  function Due(s: State): seq<Packet>
    requires s.ring.cp.Loading? && s.returned <= s.accepted
  {
    if Rest(s) != [] && |Encode(s.codec, Rest(s)[0])| <= s.ring.cp.avail then [Rest(s)[0]] else []
  }

  lemma TakeReturnsDue(s: State)
    requires Inv(s) && Enabled(s, CpMove) && Next(s).Take?
    ensures Step(s, CpMove).ring.cp.CpIdle? && Step(s, CpMove).returned == s.returned + Due(s)
  {
    TakeFromRing(s);
    TakeOutsideRing(s);
    NextFollowsFrame(s);
  }

  /** A move that takes nothing leaves everything outside the ring, and a load that goes on keeps its snapshot. */
  lemma OtherMoveIs(s: State)
    requires Inv(s) && Enabled(s, CpMove) && !Next(s).Take?
    ensures var t := Step(s, CpMove);
      && t.codec == s.codec && t.accepted == s.accepted && t.returned == s.returned
      && (Next(s).GiveUp? <==> t.ring.cp.CpIdle?)
      && (t.ring.cp.Loading? ==> t.ring.cp.avail == s.ring.cp.avail)
      && (Next(s).GiveUp? ==> Due(s) == [])
  {
    NextFollowsFrame(s);
  }

  lemma {:induction false} LoadEnds(s: State, as': seq<Action>, t: State)
    requires Inv(s) && s.ring.cp.Loading? && t.ring.cp.CpIdle? && Runs(s, as', t) && forall k | 0 <= k < |as'| :: as'[k] == CpMove
    ensures t.returned == s.returned + Due(s)
    decreases |as'|
  {
    StepKeepsInv(s, CpMove);
    var u := Step(s, CpMove);
    if Next(s).Take? {
      TakeReturnsDue(s);
      NoMoveWhenIdle(u, as'[1..], t);
    } else {
      OtherMoveIs(s);
      if u.ring.cp.Loading? {
        LoadEnds(u, as'[1..], t);
      } else {
        NoMoveWhenIdle(u, as'[1..], t);
      }
    }
  }

  lemma NoMoveWhenIdle(s: State, as': seq<Action>, t: State)
    requires s.ring.cp.CpIdle? && Runs(s, as', t) && forall k | 0 <= k < |as'| :: as'[k] == CpMove
    ensures t == s
  {
  }

  /** A load left alone returns the next packet exactly when its whole frame is in the cache, and else nothing. */
  lemma LoadReturnsNextIff(s: State, as': seq<Action>, t: State)
    requires Inv(s) && s.ring.cp.CpIdle? && t.ring.cp.CpIdle?
    requires Runs(Step(s, CpSnapshot), as', t) && forall k | 0 <= k < |as'| :: as'[k] == CpMove
    ensures t.returned == s.returned +
              if Rest(s) != [] && |Encode(s.codec, Rest(s)[0])| <= |R.Live(s.ring)| then [Rest(s)[0]] else []
  {
    StepKeepsInv(s, CpSnapshot);
    LoadEnds(Step(s, CpSnapshot), as', t);
  }
}

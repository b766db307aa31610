/**
 * The MCU and the coprocessor around the input cache as a step system.
 * Every access to a shared variable, every lock section of the queue and every copied byte is a step of its own,
 * so a run interleaves the two sides anywhere. Stores to cp_in_wpos and cp_in_rpos are Publish and Commit.
 */
module CpRing {
  import opened Bytes
  import opened Cyclic
  import opened CpInCaches

  /** The MCU's place in mcu_load_a2dp_encoded_data. `free` and `size` come from snapshots and may be stale. */
  datatype Mcu =
    | McuIdle | GotFree(free: nat) | GotSize(size: nat) | Copying(size: nat, done: nat) | Published(size: nat)

  /** The coprocessor's place in a load: `avail` bytes by its snapshot, `skip` passed over, `buf` read behind them. */
  datatype Cp = CpIdle | Loading(avail: nat, skip: nat, buf: seq<byte>)

  datatype State = State(
    cache: seq<byte>, wpos: nat, rpos: nat, queue: seq<byte>, mcu: Mcu, cp: Cp,
    enqueued: seq<byte>, consumed: seq<byte>)

  datatype Action =
    | Enqueue(data: seq<byte>)
    | SnapshotFree | ReadLength | Peek | CopyByte | Publish | Dequeue
    | SnapshotAvail | ReadByte | SkipByte | Abandon | Commit(n: nat)

  function Initial(cache: seq<byte>): State {
    State(cache, 0, 0, [], McuIdle, CpIdle, [], [])
  }

  predicate InRange(s: State) {
    s.wpos < |s.cache| && s.rpos < |s.cache|
  }

  function LiveLen(s: State): nat
    requires InRange(s)
  {
    Offset(s.rpos, s.wpos, |s.cache|)
  }

  /** The bytes in the cache that the coprocessor has not consumed. */
  function Live(s: State): seq<byte>
    requires InRange(s)
  {
    Window(s.cache, s.rpos, LiveLen(s))
  }

  /** What the code lets each side do next. */
  predicate Enabled(s: State, a: Action)
    requires InRange(s)
  {
    match a
    case Enqueue(_) => true
    case SnapshotFree => s.mcu.McuIdle?
    case ReadLength => s.mcu.GotFree?
    case Peek => s.mcu.GotSize? && s.mcu.size <= |s.queue|
    case CopyByte => s.mcu.Copying? && s.mcu.done < s.mcu.size <= |s.queue| && s.mcu.done < |s.cache|
    case Publish => s.mcu.Copying? && s.mcu.done == s.mcu.size && s.mcu.size < |s.cache|
    case Dequeue => s.mcu.Published? && s.mcu.size <= |s.queue|
    case SnapshotAvail => s.cp.CpIdle?
    case ReadByte => s.cp.Loading? && s.cp.skip + |s.cp.buf| < s.cp.avail < |s.cache|
    case SkipByte => s.cp.Loading? && s.cp.skip < s.cp.avail
    case Abandon => s.cp.Loading?
    case Commit(n) => s.cp.Loading? && n <= s.cp.skip + |s.cp.buf| && n < |s.cache|
  }

  function Step(s: State, a: Action): State
    requires InRange(s) && Enabled(s, a)
  {
    match a
    case Enqueue(data) =>
      s.(queue := s.queue + data, enqueued := s.enqueued + data)
    case SnapshotFree =>
      var free := FreeLen(s.wpos, s.rpos, |s.cache|);
      s.(mcu := if free == 0 then McuIdle else GotFree(free))
    case ReadLength =>
      s.(mcu := GotSize(if |s.queue| > s.mcu.free then s.mcu.free else |s.queue|))
    case Peek =>
      s.(mcu := Copying(s.mcu.size, 0))
    case CopyByte =>
      s.(cache := Splice(s.cache, Wrap(s.wpos + s.mcu.done, |s.cache|), [s.queue[s.mcu.done]]),
         mcu := s.mcu.(done := s.mcu.done + 1))
    case Publish =>
      s.(wpos := Wrap(s.wpos + s.mcu.size, |s.cache|), mcu := Published(s.mcu.size))
    case Dequeue =>
      s.(queue := s.queue[s.mcu.size..], mcu := McuIdle)
    case SnapshotAvail =>
      s.(cp := Loading(LiveLen(s), 0, []))
    case ReadByte =>
      s.(cp := s.cp.(buf := s.cp.buf + [s.cache[Wrap(s.rpos + (s.cp.skip + |s.cp.buf|), |s.cache|)]]))
    case SkipByte =>
      s.(cp := s.cp.(skip := s.cp.skip + 1, buf := []))
    case Abandon =>
      s.(cp := CpIdle)
    case Commit(n) =>
      s.(consumed := s.consumed + Window(s.cache, s.rpos, n),
         rpos := Wrap(s.rpos + n, |s.cache|), cp := CpIdle)
  }

  /** Queued bytes that are not in the cache as well. */
  function Pending(s: State): seq<byte> {
    if s.mcu.Published? && s.mcu.size <= |s.queue| then s.queue[s.mcu.size..] else s.queue
  }

  ghost predicate McuInv(s: State)
    requires InRange(s)
  {
    match s.mcu
    case McuIdle => true
    case GotFree(free) => free + LiveLen(s) < |s.cache|
    case GotSize(size) => size + LiveLen(s) < |s.cache| && size <= |s.queue|
    case Copying(size, done) =>
      && size + LiveLen(s) < |s.cache| && size <= |s.queue|
      && done <= size && Window(s.cache, s.wpos, done) == s.queue[..done]
    case Published(size) => size <= |s.queue|
  }

  ghost predicate CpInv(s: State)
    requires InRange(s)
  {
    s.cp.Loading? ==>
      && s.cp.skip + |s.cp.buf| <= s.cp.avail <= LiveLen(s)
      && s.cp.buf == Live(s)[s.cp.skip..s.cp.skip + |s.cp.buf|]
  }

  ghost predicate Inv(s: State) {
    && InRange(s) && McuInv(s) && CpInv(s)
    && s.consumed + Live(s) + Pending(s) == s.enqueued
  }

  lemma CopySparesLive(s: State)
    requires Inv(s) && Enabled(s, CopyByte)
    ensures Live(Step(s, CopyByte)) == Live(s)
  {
    var n, done := |s.cache|, s.mcu.done;
    var at := Wrap(s.wpos + done, n);
    assert Offset(s.rpos, at, n) == LiveLen(s) + done;
    SpliceOutside(s.cache, s.rpos, LiveLen(s), at, [s.queue[done]]);
  }

  /** One more byte behind a window that holds the first ones of a queue. */
  lemma CopyExtends(cache: seq<byte>, wpos: nat, queue: seq<byte>, done: nat)
    requires wpos < |cache| && done < |queue| && done < |cache| && Window(cache, wpos, done) == queue[..done]
    ensures Window(Splice(cache, Wrap(wpos + done, |cache|), [queue[done]]), wpos, done + 1) == queue[..done + 1]
  {
    SpliceExtends(cache, wpos, done, [queue[done]]);
    assert queue[..done] + [queue[done]] == queue[..done + 1];
  }

  /** A copied byte lands behind the live bytes and extends what was copied before it. */
  lemma CopyEffect(s: State)
    requires Inv(s) && Enabled(s, CopyByte)
    ensures var t := Step(s, CopyByte);
            Live(t) == Live(s) && Window(t.cache, t.wpos, t.mcu.done) == s.queue[..t.mcu.done]
  {
    CopySparesLive(s);
    CopyExtends(s.cache, s.wpos, s.queue, s.mcu.done);
  }

  lemma OffsetGrows(rpos: nat, wpos: nat, n: nat, k: nat)
    requires rpos < n && wpos < n && Offset(rpos, wpos, n) + k < n
    ensures Wrap(wpos + k, n) < n && Offset(rpos, Wrap(wpos + k, n), n) == Offset(rpos, wpos, n) + k
    ensures wpos == Wrap(rpos + Offset(rpos, wpos, n), n)
  {
  }

  lemma WindowInTwo(cache: seq<byte>, rpos: nat, first: nat, k: nat)
    requires rpos < |cache| && first + k < |cache|
    ensures Wrap(rpos + first, |cache|) < |cache|
    ensures Window(cache, rpos, first + k) == Window(cache, rpos, first) + Window(cache, Wrap(rpos + first, |cache|), k)
  {
    WindowParts(cache, rpos, first, first + k);
    var w := Window(cache, rpos, first + k);
    assert w == w[..first] + w[first..];
  }

  lemma PublishEffect(s: State)
    requires Inv(s) && Enabled(s, Publish)
    ensures Live(Step(s, Publish)) == Live(s) + s.queue[..s.mcu.size]
  {
    OffsetGrows(s.rpos, s.wpos, |s.cache|, s.mcu.size);
    WindowInTwo(s.cache, s.rpos, LiveLen(s), s.mcu.size);
  }

  lemma PublishKeepsInv(s: State)
    requires Inv(s) && Enabled(s, Publish)
    ensures Inv(Step(s, Publish))
  {
    PublishEffect(s);
    Regroup(s.consumed, Live(s), s.queue[..s.mcu.size], s.queue[s.mcu.size..]);
    assert s.queue == s.queue[..s.mcu.size] + s.queue[s.mcu.size..];
  }

  lemma CommitEffect(s: State, k: nat)
    requires Inv(s) && Enabled(s, Commit(k))
    ensures var t := Step(s, Commit(k));
            t.consumed == s.consumed + Live(s)[..k] && Live(t) == Live(s)[k..] && LiveLen(t) == LiveLen(s) - k
  {
    assert LiveLen(Step(s, Commit(k))) == LiveLen(s) - k;
    WindowParts(s.cache, s.rpos, k, LiveLen(s));
  }

  lemma CommitKeepsInv(s: State, k: nat)
    requires Inv(s) && Enabled(s, Commit(k))
    ensures Inv(Step(s, Commit(k)))
  {
    CommitEffect(s, k);
    Regroup(s.consumed, Live(s)[..k], Live(s)[k..], Pending(s));
    assert Live(s) == Live(s)[..k] + Live(s)[k..];
  }

  lemma Regroup(a: seq<byte>, b: seq<byte>, c: seq<byte>, d: seq<byte>)
    ensures (a + b) + c + d == a + (b + c) + d
    ensures a + (b + c) + d == a + b + (c + d)
  {
  }

  lemma EnqueueKeepsInv(s: State, data: seq<byte>)
    requires Inv(s)
    ensures Inv(Step(s, Enqueue(data)))
  {
    var t := Step(s, Enqueue(data));
    assert Pending(t) == Pending(s) + data;
    assert s.consumed + Live(s) + (Pending(s) + data) == (s.consumed + Live(s) + Pending(s)) + data;
    if s.mcu.Copying? {
      assert t.queue[..s.mcu.done] == s.queue[..s.mcu.done];
    }
  }

  lemma OneMoreRead(live: seq<byte>, skip: nat, buf: seq<byte>, b: byte)
    requires skip + |buf| < |live| && buf == live[skip..skip + |buf|] && b == live[skip + |buf|]
    ensures buf + [b] == live[skip..skip + |buf| + 1]
  {
  }

  lemma ReadKeepsInv(s: State)
    requires Inv(s) && Enabled(s, ReadByte)
    ensures Inv(Step(s, ReadByte))
  {
    var k := s.cp.skip + |s.cp.buf|;
    var b := s.cache[Wrap(s.rpos + k, |s.cache|)];
    OneMoreRead(Live(s), s.cp.skip, s.cp.buf, b);
    assert Step(s, ReadByte) == s.(cp := s.cp.(buf := s.cp.buf + [b]));
  }

  lemma CopyKeepsInv(s: State)
    requires Inv(s) && Enabled(s, CopyByte)
    ensures Inv(Step(s, CopyByte))
  {
    CopyEffect(s);
  }

  lemma SkipKeepsInv(s: State)
    requires Inv(s) && Enabled(s, SkipByte)
    ensures Inv(Step(s, SkipByte))
  {
    assert Live(s)[s.cp.skip + 1..s.cp.skip + 1] == [];
  }

  lemma StepKeepsInv(s: State, a: Action)
    requires Inv(s) && Enabled(s, a)
    ensures Inv(Step(s, a))
  {
    match a
    case Enqueue(data) => EnqueueKeepsInv(s, data);
    case CopyByte => CopyKeepsInv(s);
    case Publish => PublishKeepsInv(s);
    case Commit(n) => CommitKeepsInv(s, n);
    case ReadByte => ReadKeepsInv(s);
    case SkipByte => SkipKeepsInv(s);
    case _ =>
  }

  ghost predicate Runs(s: State, as': seq<Action>, t: State)
    decreases |as'|
  {
    if as' == [] then s == t
    else InRange(s) && Enabled(s, as'[0]) && Runs(Step(s, as'[0]), as'[1..], t)
  }

  lemma {:induction false} RunKeepsInv(s: State, as': seq<Action>, t: State)
    requires Inv(s) && Runs(s, as', t)
    ensures Inv(t)
    decreases |as'|
  {
    if as' != [] {
      StepKeepsInv(s, as'[0]);
      RunKeepsInv(Step(s, as'[0]), as'[1..], t);
    }
  }

  /** No byte is lost, repeated, reordered or overwritten, whatever the interleaving; equal positions mean empty. */
  lemma BytesConserved(cache: seq<byte>, as': seq<Action>, t: State)
    requires cache != [] && Runs(Initial(cache), as', t)
    ensures Inv(t) && t.consumed + Live(t) + Pending(t) == t.enqueued
    ensures t.wpos == t.rpos <==> Live(t) == []
    ensures t.cp.Loading? && t.cp.buf != [] ==> t.cp.buf == Live(t)[t.cp.skip..t.cp.skip + |t.cp.buf|]
  {
    assert Window(cache, 0, 0) == [];
    RunKeepsInv(Initial(cache), as', t);
  }

  /** The guards that keep memory accesses in range are never what stops a side: the code does not check them. */
  lemma CodeNeverBlocks(cache: seq<byte>, as': seq<Action>, t: State)
    requires cache != [] && Runs(Initial(cache), as', t)
    ensures InRange(t)
    ensures t.mcu.GotSize? ==> Enabled(t, Peek)
    ensures t.mcu.Copying? ==> Enabled(t, if t.mcu.done < t.mcu.size then CopyByte else Publish)
    ensures t.mcu.Published? ==> Enabled(t, Dequeue)
    ensures t.cp.Loading? && t.cp.skip + |t.cp.buf| < t.cp.avail ==> Enabled(t, ReadByte)
    ensures forall n | t.cp.Loading? && 0 <= n <= t.cp.skip + |t.cp.buf| :: Enabled(t, Commit(n))
  {
    assert Window(cache, 0, 0) == [];
    RunKeepsInv(Initial(cache), as', t);
  }

  function CopyBytes(cache: seq<byte>, at: nat, d: seq<byte>): (r: seq<byte>)
    requires at < |cache| && |d| <= |cache|
    ensures |r| == |cache|
    decreases |d|
  {
    if d == [] then cache
    else Splice(CopyBytes(cache, at, d[..|d| - 1]), Wrap(at + |d| - 1, |cache|), [d[|d| - 1]])
  }

  /** Byte by byte the copy writes what CpInCache.CopyIn writes with its memcpys. */
  lemma {:induction false} CopyBytesIsSplice(cache: seq<byte>, at: nat, d: seq<byte>)
    requires at < |cache| && |d| <= |cache|
    ensures CopyBytes(cache, at, d) == Splice(cache, at, d)
    decreases |d|
  {
    if d != [] {
      var m := |d| - 1;
      CopyBytesIsSplice(cache, at, d[..m]);
      SpliceTwice(cache, at, d[..m], [d[m]]);
      assert d == d[..m] + [d[m]];
    }
  }

  // ---- A turn of the MCU without interference ----

  predicate ByMcu(a: Action) {
    a.ReadLength? || a.Peek? || a.CopyByte? || a.Publish? || a.Dequeue?
  }

  /** How many bytes the turn will have moved. */
  function Moving(s: State): nat {
    match s.mcu
    case McuIdle => 0
    case GotFree(free) => if |s.queue| > free then free else |s.queue|
    case GotSize(size) => size
    case Copying(size, _) => size
    case Published(_) => 0
  }

  /** Bytes already published and still queued. */
  function Doubled(s: State): nat {
    if s.mcu.Published? then s.mcu.size else 0
  }

  /** The live bytes and the queue as they will be at the end of the turn. */
  function Outcome(s: State): (seq<byte>, seq<byte>)
    requires InRange(s) && Moving(s) + Doubled(s) <= |s.queue|
  {
    (Live(s) + s.queue[..Moving(s)], s.queue[Moving(s) + Doubled(s)..])
  }

  lemma PublishKeepsOutcome(s: State)
    requires Inv(s) && Enabled(s, Publish)
    ensures Inv(Step(s, Publish)) && Outcome(Step(s, Publish)) == Outcome(s)
  {
    PublishKeepsInv(s);
    PublishEffect(s);
    var t := Step(s, Publish);
    assert Live(t) + t.queue[..0] == Live(t);
  }

  lemma CopyKeepsOutcome(s: State)
    requires Inv(s) && Enabled(s, CopyByte)
    ensures Inv(Step(s, CopyByte)) && Outcome(Step(s, CopyByte)) == Outcome(s)
  {
    CopyKeepsInv(s);
    CopyEffect(s);
  }

  lemma McuKeepsOutcome(s: State, a: Action)
    requires Inv(s) && Enabled(s, a) && ByMcu(a)
    ensures Inv(Step(s, a)) && Outcome(Step(s, a)) == Outcome(s)
  {
    match a
    case CopyByte => CopyKeepsOutcome(s);
    case Publish => PublishKeepsOutcome(s);
    case _ => StepKeepsInv(s, a);
  }

  /** However many steps it takes: idle again, the MCU has moved over what fits of the queue, and nothing else. */
  lemma {:induction false} McuEndsWithOutcome(s: State, as': seq<Action>, t: State)
    requires Inv(s) && Runs(s, as', t) && (forall a | a in as' :: ByMcu(a)) && t.mcu.McuIdle?
    ensures Inv(t) && (Live(t), t.queue) == Outcome(s)
    decreases |as'|
  {
    if as' == [] {
      assert Live(t) + t.queue[..0] == Live(t);
    } else {
      assert as'[0] in as' && forall a | a in as'[1..] :: a in as';
      McuKeepsOutcome(s, as'[0]);
      McuEndsWithOutcome(Step(s, as'[0]), as'[1..], t);
    }
  }

  /** One turn moves the longest prefix of the queue that leaves one place of the cache empty. */
  lemma McuTurnMovesAllThatFits(s: State, as': seq<Action>, t: State)
    requires Inv(s) && s.mcu.McuIdle? && t.mcu.McuIdle?
    requires Runs(Step(s, SnapshotFree), as', t) && forall a | a in as' :: ByMcu(a)
    ensures Inv(t)
    ensures var free := |s.cache| - 1 - |Live(s)|;
      var n := if |s.queue| < free then |s.queue| else free;
      Live(t) == Live(s) + s.queue[..n] && t.queue == s.queue[n..]
  {
    StepKeepsInv(s, SnapshotFree);
    McuEndsWithOutcome(Step(s, SnapshotFree), as', t);
  }
}

/**
 * Caller and thread of the SCO reframer as a step system. The length tests outside the lock, the locked copies and the
 * signal are separate steps.
 */
module ScoReframeRuns {
  import opened ScoReframe

  /** bt_sco_chain_reframe_tx_process: test, store, test, read, signal. */
  datatype Caller = Outside | MayStore(room: bool, frame: seq<Sample>) | Stored | MayRead(enough: bool) | ToSignal

  /** The thread: asleep, at the top of its loop, holding a block, holding a result, or about to store it. */
  datatype Thread =
    | Asleep | AtLoop | HasBlock(block: seq<Sample>) | HasResult(pcm: seq<int>) | MayWrite(room: bool, pcm: seq<int>)

  /** What one call handed out: samples, or zeros after an underflow. */
  datatype Block = Real(pcm: seq<int>) | Zero

  datatype State = State(
    io: nat, input: seq<Sample>, output: seq<int>, signal: bool, caller: Caller, thread: Thread,
    preCache: seq<int>, written: seq<Sample>, delivered: seq<Block>, underflows: nat, losses: nat, blocks: nat)

  datatype Action =
    | CallTestRoom(frame: seq<Sample>) | CallStore | CallTestEnough | CallRead | CallSignal
    | ThreadWake | ThreadTake | ThreadTestRoom | ThreadTestAgain | ThreadStore

  function Initial(io: nat, preCache: seq<int>): State {
    State(io, [], preCache, false, Outside, Asleep, preCache, [], [], 0, 0, 0)
  }

  predicate Enabled(s: State, a: Action) {
    match a
    case CallTestRoom(frame) => s.caller.Outside? && |frame| == s.io
    case CallStore => s.caller.MayStore?
    case CallTestEnough => s.caller.Stored?
    case CallRead => s.caller.MayRead? && (s.caller.enough ==> s.io <= |s.output|)
    case CallSignal => s.caller.ToSignal?
    case ThreadWake => s.thread.Asleep? && s.signal
    case ThreadTake => s.thread.AtLoop?
    case ThreadTestRoom => s.thread.HasBlock?
    case ThreadTestAgain => s.thread.HasResult?
    case ThreadStore => s.thread.MayWrite?
  }

  function Step(s: State, a: Action): State
    requires Enabled(s, a)
  {
    match a
    case CallTestRoom(frame) =>
      s.(caller := MayStore(|s.input| + s.io <= QUEUE_BUF_PCM_NUM, frame))
    case CallStore =>
      if s.caller.room then
        s.(input := s.input + s.caller.frame, written := s.written + s.caller.frame, caller := Stored)
      else s.(losses := s.losses + 1, caller := Stored)
    case CallTestEnough => s.(caller := MayRead(|s.output| >= s.io))
    case CallRead =>
      if s.caller.enough then
        s.(delivered := s.delivered + [Real(s.output[..s.io])], output := s.output[s.io..], caller := ToSignal)
      else s.(delivered := s.delivered + [Zero], underflows := s.underflows + 1, caller := ToSignal)
    case CallSignal => s.(signal := true, caller := Outside)
    case ThreadWake => s.(signal := false, thread := AtLoop)
    case ThreadTake =>
      if |s.input| >= PROCESS_FRAME_LEN then
        s.(thread := HasBlock(s.input[..PROCESS_FRAME_LEN]), input := s.input[PROCESS_FRAME_LEN..],
           blocks := s.blocks + 1)
      else s.(thread := Asleep)
    case ThreadTestRoom =>
      if |s.output| + PROCESS_FRAME_LEN <= QUEUE_BUF_PCM_NUM then s.(thread := HasResult(Vp(s.thread.block)))
      else s.(thread := Asleep, losses := s.losses + 1)
    case ThreadTestAgain =>
      s.(thread := MayWrite(|s.output| + |s.thread.pcm| <= QUEUE_BUF_PCM_NUM, s.thread.pcm))
    case ThreadStore =>
      if s.thread.room then s.(output := s.output + s.thread.pcm, thread := AtLoop)
      else s.(losses := s.losses + 1, thread := AtLoop)
  }

  /** Processed samples in the thread's hands. */
  function InHand(s: State): seq<int> {
    match s.thread
    case HasBlock(block) => Vp(block)
    case HasResult(pcm) => pcm
    case MayWrite(_, pcm) => pcm
    case _ => []
  }

  function RealSamples(bs: seq<Block>): seq<int> {
    if bs == [] then []
    else RealSamples(bs[..|bs| - 1]) + if bs[|bs| - 1].Real? then bs[|bs| - 1].pcm else []
  }

  function Zeros(bs: seq<Block>): nat {
    if bs == [] then 0 else Zeros(bs[..|bs| - 1]) + if bs[|bs| - 1].Zero? then 1 else 0
  }

  /** Calls between their store and their read. */
  function Pending(s: State): nat {
    if s.caller.Stored? || s.caller.MayRead? then 1 else 0
  }

  /** Samples not yet processed: queued, or in the thread's hands. */
  function Unprocessed(s: State): nat {
    |s.input| + |InHand(s)|
  }

  /** `u` underflows so far still leave room for one more frame. */
  predicate InBudget(s: State) {
    PRE_CACHE_OUT_PCM + (s.underflows + 1) * s.io <= QUEUE_BUF_PCM_NUM
  }

  /** Holds in every run: a test taken outside the lock stays true until the copy it guards. */
  ghost predicate TestsStayTrue(s: State) {
    && |s.input| <= QUEUE_BUF_PCM_NUM && |s.output| <= QUEUE_BUF_PCM_NUM
    && (s.caller.MayStore? ==> |s.caller.frame| == s.io)
    && (s.caller.MayStore? && s.caller.room ==> |s.input| + s.io <= QUEUE_BUF_PCM_NUM)
    && (s.caller.MayRead? && s.caller.enough ==> s.io <= |s.output|)
    && (s.thread.HasBlock? || s.thread.HasResult? || s.thread.MayWrite? ==> |InHand(s)| == PROCESS_FRAME_LEN)
    && (s.thread.MayWrite? && s.thread.room ==> |s.output| + PROCESS_FRAME_LEN <= QUEUE_BUF_PCM_NUM)
  }

  /** Everything handed out and still on its way is the pre-cache and the input, in order. */
  ghost predicate StreamKept(s: State) {
    RealSamples(s.delivered) + s.output + InHand(s) + Vp(s.input) == s.preCache + Vp(s.written)
  }

  /** What is on its way is the pre-cache, a frame more for each underflow, and one for a call under way. */
  ghost predicate LengthsAddUp(s: State) {
    |s.output| + Unprocessed(s) == PRE_CACHE_OUT_PCM + (s.underflows + Pending(s)) * s.io
  }

  /** Holds while the underflows are within the budget. */
  ghost predicate Flowing(s: State) {
    && s.losses == 0
    && (s.caller.MayStore? ==> s.caller.room) && (s.thread.MayWrite? ==> s.thread.room)
    && StreamKept(s)
    && LengthsAddUp(s)
    && (s.thread.Asleep? && !s.signal && s.caller.Outside? ==> |s.input| < PROCESS_FRAME_LEN)
    && (s.thread.Asleep? && !s.signal && s.caller.MayStore? ==> |s.input| < PROCESS_FRAME_LEN)
  }

  ghost predicate Inv(s: State) {
    && TestsStayTrue(s)
    && Zeros(s.delivered) == s.underflows
    && |s.written| == |s.input| + s.blocks * PROCESS_FRAME_LEN
    && (InBudget(s) ==> Flowing(s))
  }

  lemma BlocksAppend(bs: seq<Block>, b: Block)
    ensures RealSamples(bs + [b]) == RealSamples(bs) + if b.Real? then b.pcm else []
    ensures Zeros(bs + [b]) == Zeros(bs) + if b.Zero? then 1 else 0
  {
    assert (bs + [b])[..|bs|] == bs;
  }

  lemma BudgetShrinks(u: nat, io: nat)
    ensures (u + 1) * io == u * io + io && (u + 2) * io == u * io + io + io && (u + 0) * io == u * io
  {
  }

  lemma CallStoreKeepsInv(s: State)
    requires Inv(s) && Enabled(s, CallStore)
    ensures Inv(Step(s, CallStore))
  {
    BudgetShrinks(s.underflows, s.io);
    var t := Step(s, CallStore);
    if InBudget(s) {
      VpConcat(s.input, s.caller.frame);
      VpConcat(s.written, s.caller.frame);
      var before := RealSamples(s.delivered) + s.output + InHand(s);
      assert before + (Vp(s.input) + Vp(s.caller.frame)) == (before + Vp(s.input)) + Vp(s.caller.frame);
      assert s.preCache + (Vp(s.written) + Vp(s.caller.frame)) == (s.preCache + Vp(s.written)) + Vp(s.caller.frame);
    }
  }

  lemma RealReadKeepsStream(s: State)
    requires StreamKept(s) && s.caller.MayRead? && s.caller.enough && s.io <= |s.output|
    ensures StreamKept(Step(s, CallRead))
  {
    var t := Step(s, CallRead);
    BlocksAppend(s.delivered, Real(s.output[..s.io]));
    HandOut(RealSamples(s.delivered), s.output, s.io);
    assert RealSamples(t.delivered) + t.output == RealSamples(s.delivered) + s.output;
    assert InHand(t) == InHand(s);
  }

  lemma HandOut(out: seq<int>, queue: seq<int>, n: nat)
    requires n <= |queue|
    ensures (out + queue[..n]) + queue[n..] == out + queue
  {
  }

  lemma ReadKeepsTests(s: State)
    requires TestsStayTrue(s) && Enabled(s, CallRead)
    ensures TestsStayTrue(Step(s, CallRead))
    ensures Unprocessed(Step(s, CallRead)) == Unprocessed(s)
  {
    assert InHand(Step(s, CallRead)) == InHand(s);
  }

  lemma ReadKeepsLengths(s: State)
    requires LengthsAddUp(s) && Enabled(s, CallRead)
    requires Unprocessed(Step(s, CallRead)) == Unprocessed(s)
    ensures LengthsAddUp(Step(s, CallRead))
  {
    BudgetShrinks(s.underflows, s.io);
  }

  lemma RealReadKeepsInv(s: State)
    requires Inv(s) && Enabled(s, CallRead) && s.caller.enough
    ensures Inv(Step(s, CallRead))
  {
    ReadKeepsTests(s);
    BlocksAppend(s.delivered, Real(s.output[..s.io]));
    if InBudget(s) {
      RealReadKeepsStream(s);
      ReadKeepsLengths(s);
    }
  }

  lemma UnderflowKeepsStream(s: State)
    requires StreamKept(s) && s.caller.MayRead? && !s.caller.enough
    ensures StreamKept(Step(s, CallRead))
  {
    var t := Step(s, CallRead);
    BlocksAppend(s.delivered, Zero);
    assert RealSamples(t.delivered) == RealSamples(s.delivered) && InHand(t) == InHand(s);
  }

  lemma UnderflowKeepsInv(s: State)
    requires Inv(s) && Enabled(s, CallRead) && !s.caller.enough
    ensures Inv(Step(s, CallRead))
  {
    ReadKeepsTests(s);
    BlocksAppend(s.delivered, Zero);
    BudgetShrinks(s.underflows, s.io);
    if InBudget(s) {
      UnderflowKeepsStream(s);
      ReadKeepsLengths(s);
    }
  }

  lemma ThreadTakeKeepsInv(s: State)
    requires Inv(s) && Enabled(s, ThreadTake)
    ensures Inv(Step(s, ThreadTake))
  {
    if |s.input| >= PROCESS_FRAME_LEN {
      var block, rest := s.input[..PROCESS_FRAME_LEN], s.input[PROCESS_FRAME_LEN..];
      assert s.input == block + rest;
      VpConcat(block, rest);
      var before := RealSamples(s.delivered) + s.output;
      assert before + Vp(block) + Vp(rest) == before + [] + (Vp(block) + Vp(rest));
    }
  }

  lemma ThreadPassesKeepsInv(s: State, a: Action)
    requires Inv(s) && Enabled(s, a) && (a.ThreadTestRoom? || a.ThreadTestAgain? || a.ThreadStore?)
    ensures Inv(Step(s, a))
  {
    if InBudget(s) {
      BudgetShrinks(s.underflows, s.io);
      assert |s.output| + PROCESS_FRAME_LEN <= QUEUE_BUF_PCM_NUM;
      assert RealSamples(s.delivered) + s.output + InHand(s) == RealSamples(s.delivered) + (s.output + InHand(s)) + [];
    }
  }

  lemma CallTestKeepsInv(s: State, a: Action)
    requires Inv(s) && Enabled(s, a) && (a.CallTestRoom? || a.CallTestEnough?)
    ensures Inv(Step(s, a))
  {
    BudgetShrinks(s.underflows, s.io);
  }

  lemma SignalKeepsInv(s: State, a: Action)
    requires Inv(s) && Enabled(s, a) && (a.CallSignal? || a.ThreadWake?)
    ensures Inv(Step(s, a))
  {
  }

  lemma StepKeepsInv(s: State, a: Action)
    requires Inv(s) && Enabled(s, a)
    ensures Inv(Step(s, a))
  {
    match a
    case CallStore => CallStoreKeepsInv(s);
    case CallRead => if s.caller.enough { RealReadKeepsInv(s); } else { UnderflowKeepsInv(s); }
    case ThreadTake => ThreadTakeKeepsInv(s);
    case ThreadTestRoom | ThreadTestAgain | ThreadStore => ThreadPassesKeepsInv(s, a);
    case CallTestRoom(_) | CallTestEnough => CallTestKeepsInv(s, a);
    case CallSignal | ThreadWake => SignalKeepsInv(s, a);
  }

  ghost predicate Runs(s: State, as': seq<Action>, t: State)
    decreases |as'|
  {
    if as' == [] then s == t
    else Enabled(s, as'[0]) && Runs(Step(s, as'[0]), as'[1..], t)
  }

  lemma {:induction false} RunKeepsInv(s: State, as': seq<Action>, t: State)
    requires Inv(s) && Runs(s, as', t)
    ensures Inv(t) && t.io == s.io && t.preCache == s.preCache
    decreases |as'|
  {
    if as' != [] {
      StepKeepsInv(s, as'[0]);
      RunKeepsInv(Step(s, as'[0]), as'[1..], t);
    }
  }

  lemma InitialInv(io: nat, preCache: seq<int>)
    requires |preCache| == PRE_CACHE_OUT_PCM
    ensures Inv(Initial(io, preCache))
  {
    var s := Initial(io, preCache);
    assert RealSamples(s.delivered) + s.output + InHand(s) + Vp(s.input) == preCache;
    assert preCache + Vp([]) == preCache;
    BudgetShrinks(0, io);
  }

  /**
   * While 640 + (u+1)*IO <= 1280 for the u underflows so far, no write overflows and no block is dropped; the samples
   * handed out are the pre-cache followed by the input, with one block of zeros for each underflow.
   */
  lemma OutputIsDelayedInput(io: nat, preCache: seq<int>, as': seq<Action>, t: State)
    requires |preCache| == PRE_CACHE_OUT_PCM && Runs(Initial(io, preCache), as', t)
    requires PRE_CACHE_OUT_PCM + (t.underflows + 1) * io <= QUEUE_BUF_PCM_NUM
    ensures t.losses == 0 && Zeros(t.delivered) == t.underflows
    ensures RealSamples(t.delivered) <= preCache + Vp(t.written)
    ensures RealSamples(t.delivered) + t.output + InHand(t) + Vp(t.input) == preCache + Vp(t.written)
  {
    InitialInv(io, preCache);
    RunKeepsInv(Initial(io, preCache), as', t);
    var out, rest := RealSamples(t.delivered), t.output + InHand(t) + Vp(t.input);
    assert out + rest == out + t.output + InHand(t) + Vp(t.input);
  }

  /** In every run whatsoever the guarded copies stay inside the queues, and a tested read finds its samples. */
  lemma UnlockedTestsAreSafe(io: nat, preCache: seq<int>, as': seq<Action>, t: State)
    requires |preCache| == PRE_CACHE_OUT_PCM && Runs(Initial(io, preCache), as', t)
    ensures TestsStayTrue(t)
    ensures t.caller.MayRead? ==> Enabled(t, CallRead)
  {
    InitialInv(io, preCache);
    RunKeepsInv(Initial(io, preCache), as', t);
  }

  /** A read underflows exactly when more than 640 + u*IO samples are unprocessed at its test. */
  lemma UnderflowIff(io: nat, preCache: seq<int>, as': seq<Action>, t: State)
    requires |preCache| == PRE_CACHE_OUT_PCM && Runs(Initial(io, preCache), as', t)
    requires t.caller.Stored? && PRE_CACHE_OUT_PCM + (t.underflows + 1) * io <= QUEUE_BUF_PCM_NUM
    ensures Step(t, CallTestEnough).caller == MayRead(false)
            <==> Unprocessed(t) > PRE_CACHE_OUT_PCM + t.underflows * io
  {
    InitialInv(io, preCache);
    RunKeepsInv(Initial(io, preCache), as', t);
    BudgetShrinks(t.underflows, io);
  }

  /** The thread has nothing left to do. */
  predicate Drained(s: State) {
    s.thread.Asleep? && !s.signal && |s.input| < PROCESS_FRAME_LEN
  }

  /** Nobody is about to wake the thread, and yet no whole block waits for it. */
  lemma NoBlockLeftBehind(io: nat, preCache: seq<int>, as': seq<Action>, t: State)
    requires |preCache| == PRE_CACHE_OUT_PCM && Runs(Initial(io, preCache), as', t)
    requires PRE_CACHE_OUT_PCM + (t.underflows + 1) * io <= QUEUE_BUF_PCM_NUM
    ensures t.thread.Asleep? && !t.signal && t.caller.Outside? ==> Drained(t)
  {
    InitialInv(io, preCache);
    RunKeepsInv(Initial(io, preCache), as', t);
  }

  // ---- Whole turns without interference ----

  predicate ByThread(a: Action) {
    a.ThreadWake? || a.ThreadTake? || a.ThreadTestRoom? || a.ThreadTestAgain? || a.ThreadStore?
  }

  /** What the thread, left alone, will have made of both queues when it sleeps. */
  function Outcome(s: State): (seq<Sample>, seq<int>) {
    match s.thread
    case Asleep => (s.input, s.output)
    case AtLoop => Drain(s.input, s.output)
    case HasBlock(block) =>
      if |s.output| + PROCESS_FRAME_LEN <= QUEUE_BUF_PCM_NUM then Drain(s.input, s.output + Vp(block))
      else (s.input, s.output)
    case HasResult(pcm) =>
      Drain(s.input, if |s.output| + |pcm| <= QUEUE_BUF_PCM_NUM then s.output + pcm else s.output)
    case MayWrite(room, pcm) => Drain(s.input, if room then s.output + pcm else s.output)
  }

  lemma ThreadKeepsOutcome(s: State, a: Action)
    requires TestsStayTrue(s) && Enabled(s, a) && ByThread(a) && !a.ThreadWake?
    ensures Outcome(Step(s, a)) == Outcome(s) && Step(s, a).caller == s.caller
  {
  }

  lemma ThreadKeepsTests(s: State, a: Action)
    requires TestsStayTrue(s) && Enabled(s, a) && ByThread(a)
    ensures TestsStayTrue(Step(s, a))
  {
  }

  /** However many steps it takes: once asleep again, the thread has made of the queues what one turn makes of them. */
  lemma {:induction false} TurnIsDrain(s: State, as': seq<Action>, t: State)
    requires TestsStayTrue(s) && Runs(s, as', t) && forall a | a in as' :: ByThread(a) && !a.ThreadWake?
    requires t.thread.Asleep?
    ensures (t.input, t.output) == Outcome(s)
    ensures s.thread.AtLoop? ==> DrainedTo(s.input, s.output, t.input, t.output)
    decreases |as'|
  {
    if as' != [] {
      assert as'[0] in as' && forall a | a in as'[1..] :: a in as';
      ThreadKeepsOutcome(s, as'[0]);
      ThreadKeepsTests(s, as'[0]);
      TurnIsDrain(Step(s, as'[0]), as'[1..], t);
    }
    DrainDrains(s.input, s.output);
  }

  /** The thread's only next step. */
  function ThreadNext(s: State): Action {
    match s.thread
    case Asleep => ThreadWake
    case AtLoop => ThreadTake
    case HasBlock(_) => ThreadTestRoom
    case HasResult(_) => ThreadTestAgain
    case MayWrite(_, _) => ThreadStore
  }

  function StepsLeft(p: Thread): nat {
    match p
    case Asleep => 0
    case AtLoop => 1
    case MayWrite(_, _) => 2
    case HasResult(_) => 3
    case HasBlock(_) => 4
  }

  /** There is such a turn from wherever the thread stands. */
  lemma {:induction false} TurnEnds(s: State) returns (as': seq<Action>, t: State)
    requires TestsStayTrue(s)
    ensures Runs(s, as', t) && t.thread.Asleep? && forall a | a in as' :: ByThread(a) && !a.ThreadWake?
    decreases |s.input|, StepsLeft(s.thread)
  {
    if s.thread.Asleep? {
      as', t := [], s;
    } else {
      var a := ThreadNext(s);
      ThreadKeepsTests(s, a);
      var rest;
      rest, t := TurnEnds(Step(s, a));
      as' := [a] + rest;
      assert as'[1..] == rest;
    }
  }

  /** The steps of one call without interference. */
  function CallSteps(frame: seq<Sample>): seq<Action> {
    [CallTestRoom(frame)] + [CallStore, CallTestEnough, CallRead, CallSignal]
  }

  lemma FirstStep(s: State, a: Action, rest: seq<Action>, t: State)
    requires Runs(s, [a] + rest, t)
    ensures Enabled(s, a) && Runs(Step(s, a), rest, t)
  {
    assert ([a] + rest)[1..] == rest;
  }

  /** One call alone takes a frame in and hands one out, as far as there is room and are samples, and signals. */
  lemma CallAlone(s: State, frame: seq<Sample>, t: State)
    requires s.caller.Outside? && |frame| == s.io && Runs(s, CallSteps(frame), t)
    ensures t.caller.Outside? && t.signal && t.thread == s.thread
    ensures t.input == if |s.input| + s.io <= QUEUE_BUF_PCM_NUM then s.input + frame else s.input
    ensures if |s.output| >= s.io then t.output == s.output[s.io..] && t.delivered == s.delivered + [Real(s.output[..s.io])]
            else t.output == s.output && t.delivered == s.delivered + [Zero]
  {
    FirstStep(s, CallTestRoom(frame), [CallStore, CallTestEnough, CallRead, CallSignal], t);
    var s1 := Step(s, CallTestRoom(frame));
    FirstStep(s1, CallStore, [CallTestEnough, CallRead, CallSignal], t);
    var s2 := Step(s1, CallStore);
    FirstStep(s2, CallTestEnough, [CallRead, CallSignal], t);
    var s3 := Step(s2, CallTestEnough);
    FirstStep(s3, CallRead, [CallSignal], t);
    FirstStep(Step(s3, CallRead), CallSignal, [], t);
  }

  /** Every call starts with the thread drained. */
  ghost predicate Calm(s: State, as': seq<Action>, t: State)
    decreases |as'|
  {
    if as' == [] then s == t
    else && Enabled(s, as'[0]) && (as'[0].CallTestRoom? ==> Drained(s))
         && Calm(Step(s, as'[0]), as'[1..], t)
  }

  ghost predicate CalmInv(s: State) {
    && s.underflows == 0
    && (s.caller.MayStore? ==> Unprocessed(s) < PROCESS_FRAME_LEN)
    && (s.caller.Stored? ==> Unprocessed(s) < PROCESS_FRAME_LEN + s.io)
    && (s.caller.MayRead? ==> s.caller.enough)
  }

  lemma CallerKeepsCalm(s: State, a: Action)
    requires Inv(s) && CalmInv(s) && 0 < s.io < PROCESS_FRAME_LEN && Enabled(s, a)
    requires !ByThread(a) && (a.CallTestRoom? ==> Drained(s))
    ensures CalmInv(Step(s, a))
  {
    BudgetShrinks(s.underflows, s.io);
  }

  lemma ThreadKeepsCalm(s: State, a: Action)
    requires Inv(s) && CalmInv(s) && Enabled(s, a) && ByThread(a)
    ensures CalmInv(Step(s, a))
  {
    assert Unprocessed(Step(s, a)) <= Unprocessed(s);
  }

  lemma {:induction false} CalmKeepsInv(s: State, as': seq<Action>, t: State)
    requires Inv(s) && CalmInv(s) && 0 < s.io < PROCESS_FRAME_LEN && Calm(s, as', t)
    ensures Inv(t) && CalmInv(t) && t.io == s.io
    decreases |as'|
  {
    if as' != [] {
      StepKeepsInv(s, as'[0]);
      if ByThread(as'[0]) {
        ThreadKeepsCalm(s, as'[0]);
      } else {
        CallerKeepsCalm(s, as'[0]);
      }
      CalmKeepsInv(Step(s, as'[0]), as'[1..], t);
    }
  }

  /** If the thread drains before each next call no read underflows, and then k*IO mod 320 samples wait in the input. */
  lemma DrainedNeverUnderflows(io: nat, preCache: seq<int>, as': seq<Action>, t: State)
    requires |preCache| == PRE_CACHE_OUT_PCM && 0 < io < PROCESS_FRAME_LEN && Calm(Initial(io, preCache), as', t)
    ensures t.underflows == 0 && t.losses == 0
    ensures Drained(t) ==> |t.input| == |t.written| % PROCESS_FRAME_LEN
  {
    InitialInv(io, preCache);
    CalmKeepsInv(Initial(io, preCache), as', t);
    assert InBudget(t);
  }
}

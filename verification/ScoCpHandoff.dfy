/** The hand-off of one SCO frame at a time between MCU and coprocessor (apps/audioplayers/bt_sco_chain_cp.c). */
module ScoCpHandoff {

  const FRAME_LEN_MAX := 256
  const CHANNEL_NUM_MAX := 3
  const BUF_LEN := FRAME_LEN_MAX * CHANNEL_NUM_MAX

  type Pcm = seq<int>

  datatype Reference = NoRef | Ref(pcm: Pcm)

  /** What a call passes in; the reference channel is optional. */
  datatype Request = Request(pcm: Pcm, ref: Reference, status: int)

  /** What a call gets back: samples (their number is the returned length) and a status. */
  datatype Reply = Reply(pcm: Pcm, status: int)

  /** sco_cp_algo: its own state, the samples, the reference and the status give a new state and a reply. */
  type Algo<!A> = (A, Pcm, Pcm, int) -> (A, Reply)

  ghost predicate FitsBuffers<A(!new)>(algo: Algo<A>) {
    forall a, pcm, ref, status :: |algo(a, pcm, ref, status).1.pcm| <= BUF_LEN
  }

  /** g_cp_state and the shared buffers. */
  datatype Shared = Shared(
    working: bool, inPcm: Pcm, inRef: Pcm, outPcm: Pcm, pcmLen: nat, statusIn: int, statusOut: int)

  /** The buffer with its first elements replaced. */
  function Overwrite(buf: Pcm, x: Pcm): Pcm {
    x + if |x| <= |buf| then buf[|x|..] else []
  }

  /** The first n elements, or all there are. */
  function Head(buf: Pcm, n: nat): Pcm {
    if n <= |buf| then buf[..n] else buf
  }

  predicate Shaped(h: Shared, frameLen: nat) {
    && |h.inPcm| == BUF_LEN && |h.outPcm| == BUF_LEN && |h.inRef| == FRAME_LEN_MAX
    && h.pcmLen <= BUF_LEN && frameLen <= FRAME_LEN_MAX
  }

  function TakeIn(h: Shared, r: Request): Shared {
    h.(inPcm := Overwrite(h.inPcm, r.pcm), statusIn := r.status,
       inRef := if r.ref.Ref? then Overwrite(h.inRef, r.ref.pcm) else h.inRef)
  }

  function GiveOut(h: Shared): Reply {
    Reply(Head(h.outPcm, h.pcmLen), h.statusOut)
  }

  function RunAlgo<A>(algo: Algo<A>, a: A, h: Shared, frameLen: nat): (A, Shared)
    requires Shaped(h, frameLen)
  {
    var (a', r) := algo(a, h.inPcm[..h.pcmLen], h.inRef[..frameLen], h.statusIn);
    (a', h.(inPcm := Overwrite(h.inPcm, r.pcm), pcmLen := |r.pcm|, statusIn := r.status))
  }

  function CopyOut(h: Shared): Shared {
    h.(outPcm := Overwrite(h.outPcm, Head(h.inPcm, h.pcmLen)),
       statusOut := h.statusIn)
  }

  datatype Mcu = Outside | Spinning(r: Request) | Entered(r: Request) | TookIn(r: Request) | GaveOut | Started
  datatype Cp = Resting | Computing | Computed | CopiedOut

  datatype State<A> = State(
    frameLen: nat, channels: nat, shared: Shared, event: bool, mcu: Mcu, cp: Cp, algoState: A,
    calls: seq<Request>, replies: seq<Reply>)

  datatype Action =
    | Call(r: Request) | Poll | CopyIn | ReadReply | SetWorking | SendEvent
    | CpWake | CpCompute | CpCopyOut | CpSetIdle

  /** A request has one frame per channel, and a reference of one frame if any. */
  predicate Accepts<A>(s: State<A>, r: Request) {
    |r.pcm| == s.frameLen * s.channels && (r.ref.Ref? ==> |r.ref.pcm| == s.frameLen)
  }

  predicate Enabled<A>(s: State<A>, a: Action) {
    match a
    case Call(r) => s.mcu.Outside? && Accepts(s, r)
    case Poll => s.mcu.Spinning?
    case CopyIn => s.mcu.Entered?
    case ReadReply => s.mcu.TookIn?
    case SetWorking => s.mcu.GaveOut?
    case SendEvent => s.mcu.Started?
    case CpWake => s.cp.Resting? && s.event
    case CpCompute => s.cp.Computing? && Shaped(s.shared, s.frameLen)
    case CpCopyOut => s.cp.Computed?
    case CpSetIdle => s.cp.CopiedOut?
  }

  function Step<A>(algo: Algo<A>, s: State<A>, a: Action): State<A>
    requires Enabled(s, a)
  {
    var h := s.shared;
    match a
    case Call(r) => s.(mcu := Spinning(r))
    case Poll => if h.working then s else s.(mcu := Entered(s.mcu.r))
    case CopyIn => s.(shared := TakeIn(h, s.mcu.r), mcu := TookIn(s.mcu.r))
    case ReadReply =>
      s.(shared := h.(pcmLen := |s.mcu.r.pcm|), mcu := GaveOut,
         calls := s.calls + [s.mcu.r], replies := s.replies + [GiveOut(h)])
    case SetWorking => s.(shared := h.(working := true), mcu := Started)
    case SendEvent => s.(event := true, mcu := Outside)
    case CpWake => s.(event := false, cp := Computing)
    case CpCompute =>
      var (a', h') := RunAlgo(algo, s.algoState, h, s.frameLen);
      s.(algoState := a', shared := h', cp := Computed)
    case CpCopyOut => s.(shared := CopyOut(h), cp := CopiedOut)
    case CpSetIdle => s.(shared := h.(working := false), cp := Resting)
  }

  /** sco_cp_init: zeroed buffers and a first reply of one frame. */
  function Initial<A>(frameLen: nat, channels: nat, a: A, status: int): State<A> {
    State(frameLen, channels,
          Shared(false, Zeros(BUF_LEN), Zeros(FRAME_LEN_MAX), Zeros(BUF_LEN), frameLen, 0, status),
          false, Outside, Resting, a, [], [])
  }

  function Zeros(n: nat): Pcm {
    seq(n, _ => 0)
  }

  /** The reference: the calls handled one after the other, with the reply each leaves for the next call. */
  datatype Model<A> = Model(algoState: A, ref: Pcm, reply: Reply)

  function Sequential<A>(algo: Algo<A>, frameLen: nat, a: A, status: int, calls: seq<Request>): Model<A> {
    if calls == [] then Model(a, Zeros(frameLen), Reply(Zeros(frameLen), status)) else
    var m, r := Sequential(algo, frameLen, a, status, calls[..|calls| - 1]), calls[|calls| - 1];
    var ref := if r.ref.Ref? then r.ref.pcm else m.ref;
    var (a', reply) := algo(m.algoState, r.pcm, ref, r.status);
    Model(a', ref, reply)
  }

  /** The MCU is inside its part of the hand-off. */
  predicate McuTouches<A>(s: State<A>) {
    s.mcu.Entered? || s.mcu.TookIn? || s.mcu.GaveOut?
  }

  /** WORKING means the coprocessor is due: about to be told, told, or at work. */
  ghost predicate Exclusive<A>(s: State<A>) {
    && (McuTouches(s) ==> !s.shared.working)
    && (s.shared.working <==> s.mcu.Started? || s.event || !s.cp.Resting?)
    && !(s.mcu.Started? && s.event) && !(s.mcu.Started? && !s.cp.Resting?) && !(s.event && !s.cp.Resting?)
  }

  /** The shared buffers against the reference model after the calls handed in. */
  ghost predicate BuffersMatch<A>(algo: Algo<A>, a: A, status: int, s: State<A>) {
    var h := s.shared;
    var now := Sequential(algo, s.frameLen, a, status, s.calls);
    var due := |s.calls| > 0;
    var last := if due then s.calls[|s.calls| - 1] else Request([], NoRef, 0);
    var before := Sequential(algo, s.frameLen, a, status, if due then s.calls[..|s.calls| - 1] else []);
    if s.mcu.GaveOut? || s.mcu.Started? || s.event || s.cp.Computing? then
      && due && s.algoState == before.algoState && h.pcmLen == |last.pcm| && h.statusIn == last.status
      && Head(h.inPcm, h.pcmLen) == last.pcm && Head(h.inRef, s.frameLen) == now.ref
    else if s.cp.Computed? then
      s.algoState == now.algoState && Head(h.inRef, s.frameLen) == now.ref
      && Reply(Head(h.inPcm, h.pcmLen), h.statusIn) == now.reply
    else
      && s.algoState == now.algoState && GiveOut(h) == now.reply
      && (match s.mcu
          case TookIn(r) => Head(h.inPcm, |r.pcm|) == r.pcm && h.statusIn == r.status
                            && Head(h.inRef, s.frameLen) == if r.ref.Ref? then r.ref.pcm else now.ref
          case _ => Head(h.inRef, s.frameLen) == now.ref)
  }

  ghost predicate Inv<A>(algo: Algo<A>, a: A, status: int, s: State<A>) {
    && Shaped(s.shared, s.frameLen) && s.frameLen * s.channels <= BUF_LEN
    && Exclusive(s)
    && (s.mcu.Spinning? || s.mcu.Entered? || s.mcu.TookIn? ==> Accepts(s, s.mcu.r))
    && (forall r | r in s.calls :: Accepts(s, r))
    && BuffersMatch(algo, a, status, s)
    && |s.replies| == |s.calls|
    && (forall k | 0 <= k < |s.replies| ::
          s.replies[k] == Sequential(algo, s.frameLen, a, status, s.calls[..k]).reply)
  }

  lemma CopyInKeepsInv<A(!new)>(algo: Algo<A>, a: A, status: int, s: State<A>)
    requires Inv(algo, a, status, s) && Enabled(s, CopyIn)
    ensures Inv(algo, a, status, Step(algo, s, CopyIn))
  {
    var r, h := s.mcu.r, s.shared;
    assert Overwrite(h.inPcm, r.pcm)[..|r.pcm|] == r.pcm;
    if r.ref.Ref? {
      assert Overwrite(h.inRef, r.ref.pcm)[..s.frameLen] == r.ref.pcm;
    }
  }

  lemma ReadReplyKeepsInv<A(!new)>(algo: Algo<A>, a: A, status: int, s: State<A>)
    requires Inv(algo, a, status, s) && Enabled(s, ReadReply)
    ensures Inv(algo, a, status, Step(algo, s, ReadReply))
  {
    var t := Step(algo, s, ReadReply);
    assert t.calls[..|s.calls|] == s.calls;
    forall k | 0 <= k < |t.replies|
      ensures t.replies[k] == Sequential(algo, s.frameLen, a, status, t.calls[..k]).reply
    {
      assert t.calls[..k] == s.calls[..k];
      assert s.calls[..|s.calls|] == s.calls;
    }
  }

  lemma ComputeKeepsInv<A(!new)>(algo: Algo<A>, a: A, status: int, s: State<A>)
    requires FitsBuffers(algo) && Inv(algo, a, status, s) && Enabled(s, CpCompute)
    ensures Inv(algo, a, status, Step(algo, s, CpCompute))
  {
    var h := s.shared;
    var (_, r) := algo(s.algoState, h.inPcm[..h.pcmLen], h.inRef[..s.frameLen], h.statusIn);
    assert |r.pcm| <= BUF_LEN && Overwrite(h.inPcm, r.pcm)[..|r.pcm|] == r.pcm;
  }

  lemma CopyOutKeepsInv<A(!new)>(algo: Algo<A>, a: A, status: int, s: State<A>)
    requires Inv(algo, a, status, s) && Enabled(s, CpCopyOut)
    ensures Inv(algo, a, status, Step(algo, s, CpCopyOut))
  {
    var h := s.shared;
    assert CopyOut(h).outPcm[..h.pcmLen] == h.inPcm[..h.pcmLen];
  }

  lemma StepKeepsInv<A(!new)>(algo: Algo<A>, a: A, status: int, s: State<A>, act: Action)
    requires FitsBuffers(algo) && Inv(algo, a, status, s) && Enabled(s, act)
    ensures Inv(algo, a, status, Step(algo, s, act))
  {
    match act
    case CopyIn => CopyInKeepsInv(algo, a, status, s);
    case ReadReply => ReadReplyKeepsInv(algo, a, status, s);
    case CpCompute => ComputeKeepsInv(algo, a, status, s);
    case CpCopyOut => CopyOutKeepsInv(algo, a, status, s);
    case _ =>
  }

  ghost predicate Runs<A>(algo: Algo<A>, s: State<A>, as': seq<Action>, t: State<A>)
    decreases |as'|
  {
    if as' == [] then s == t
    else Enabled(s, as'[0]) && Runs(algo, Step(algo, s, as'[0]), as'[1..], t)
  }

  lemma {:induction false} RunKeepsInv<A(!new)>(
      algo: Algo<A>, a: A, status: int, s: State<A>, as': seq<Action>, t: State<A>)
    requires FitsBuffers(algo) && Inv(algo, a, status, s) && Runs(algo, s, as', t)
    ensures Inv(algo, a, status, t) && t.frameLen == s.frameLen && t.channels == s.channels
    decreases |as'|
  {
    if as' != [] {
      StepKeepsInv(algo, a, status, s, as'[0]);
      RunKeepsInv(algo, a, status, Step(algo, s, as'[0]), as'[1..], t);
    }
  }

  lemma InitialInv<A(!new)>(algo: Algo<A>, frameLen: nat, channels: nat, a: A, status: int)
    requires frameLen <= FRAME_LEN_MAX && 0 < channels <= CHANNEL_NUM_MAX
    ensures Inv(algo, a, status, Initial(frameLen, channels, a, status))
  {
    assert frameLen * channels <= FRAME_LEN_MAX * CHANNEL_NUM_MAX;
    assert Zeros(BUF_LEN)[..frameLen] == Zeros(frameLen) == Zeros(FRAME_LEN_MAX)[..frameLen];
  }

  /**
   * Under every interleaving, call k gets what the algorithm makes of the first k requests in order, so the result for
   * request k-1, and the first call gets zeros.
   */
  lemma OneFrameDelay<A(!new)>(
      algo: Algo<A>, frameLen: nat, channels: nat, a: A, status: int, as': seq<Action>, t: State<A>, k: nat)
    requires FitsBuffers(algo) && frameLen <= FRAME_LEN_MAX && 0 < channels <= CHANNEL_NUM_MAX
    requires Runs(algo, Initial(frameLen, channels, a, status), as', t) && k < |t.calls|
    ensures |t.replies| == |t.calls|
    ensures t.replies[k] == Sequential(algo, frameLen, a, status, t.calls[..k]).reply
    ensures t.replies[0].pcm == Zeros(frameLen)
  {
    InitialInv(algo, frameLen, channels, a, status);
    RunKeepsInv(algo, a, status, Initial(frameLen, channels, a, status), as', t);
    assert t.calls[..0] == [];
  }

  /** The MCU touches the shared buffers only in IDLE and the coprocessor only in WORKING, so never both. */
  lemma BuffersAreExclusive<A(!new)>(
      algo: Algo<A>, frameLen: nat, channels: nat, a: A, status: int, as': seq<Action>, t: State<A>)
    requires FitsBuffers(algo) && frameLen <= FRAME_LEN_MAX && 0 < channels <= CHANNEL_NUM_MAX
    requires Runs(algo, Initial(frameLen, channels, a, status), as', t)
    ensures McuTouches(t) ==> !t.shared.working && t.cp.Resting? && !t.event
    ensures !t.cp.Resting? ==> t.shared.working
    ensures t.cp.Computing? ==> Enabled(t, CpCompute)
  {
    InitialInv(algo, frameLen, channels, a, status);
    RunKeepsInv(algo, a, status, Initial(frameLen, channels, a, status), as', t);
  }

  /** speech_copy_int16 to the front of a buffer. */
  method CopyToFront(dst: array<int>, src: Pcm)
    requires |src| <= dst.Length
    modifies dst
    ensures dst[..] == Overwrite(old(dst[..]), src)
  {
    forall k | 0 <= k < |src| {
      dst[k] := src[k];
    }
  }

  /** The shared memory itself, and the two entry points that overwrite it in turn. */
  class ScoCp {
    const frameLen: nat
    const channels: nat
    const inPcm: array<int>
    const inRef: array<int>
    const outPcm: array<int>
    var working: bool
    var pcmLen: nat
    var statusIn: int
    var statusOut: int

    ghost predicate Valid()
      reads this, inPcm, inRef, outPcm
    {
      && inPcm != inRef && inPcm != outPcm && inRef != outPcm
      && 0 < channels && frameLen * channels <= BUF_LEN && Shaped(View(), frameLen)
    }

    ghost function View(): Shared
      reads this, inPcm, inRef, outPcm
    {
      Shared(working, inPcm[..], inRef[..], outPcm[..], pcmLen, statusIn, statusOut)
    }

    constructor (frameLen: nat, channels: nat, status: int)
      requires frameLen <= FRAME_LEN_MAX && 0 < channels <= CHANNEL_NUM_MAX
      ensures Valid() && fresh(inPcm) && fresh(inRef) && fresh(outPcm)
      ensures this.frameLen == frameLen && this.channels == channels
      ensures View() == Initial(frameLen, channels, (), status).shared
    {
      this.frameLen, this.channels := frameLen, channels;
      inPcm := new int[BUF_LEN](_ => 0);
      inRef := new int[FRAME_LEN_MAX](_ => 0);
      outPcm := new int[BUF_LEN](_ => 0);
      working, pcmLen, statusIn, statusOut := false, frameLen, 0, status;
      new;
      assert frameLen * channels <= FRAME_LEN_MAX * CHANNEL_NUM_MAX;
    }

    /** The idle part of sco_cp_process: the caller's buffer goes in, the previous result comes out into it. */
    method Process(pcm: array<int>, ref: Reference, len: nat, status: int) returns (len': nat, status': int)
      requires Valid() && !working
      requires pcm != inPcm && pcm != inRef && pcm != outPcm && len <= pcm.Length && pcmLen <= pcm.Length
      requires len == frameLen * channels && (ref.Ref? ==> |ref.pcm| == frameLen)
      modifies this, inPcm, inRef, pcm
      ensures Valid()
      ensures var r := Request(old(pcm[..len]), ref, status);
        View() == TakeIn(old(View()), r).(pcmLen := len, working := true)
      ensures len' <= pcm.Length && Reply(pcm[..len'], status') == GiveOut(old(View()))
    {
      CopyToFront(inPcm, pcm[..len]);
      if ref.Ref? {
        CopyToFront(inRef, ref.pcm);
      }
      statusIn := status;
      CopyToFront(pcm, outPcm[..pcmLen]);
      status' := statusOut;
      len' := pcmLen;
      pcmLen := len;
      working := true;
    }

    /** sco_cp_main: the algorithm works in place on the input buffer, then its result is copied out. */
    method CpMain<A>(algo: Algo<A>, a: A) returns (a': A)
      requires Valid() && working
      requires |algo(a, inPcm[..pcmLen], inRef[..frameLen], statusIn).1.pcm| <= BUF_LEN
      modifies this, inPcm, outPcm
      ensures Valid()
      ensures var (a2, h) := RunAlgo(algo, a, old(View()), frameLen);
        a' == a2 && View() == CopyOut(h).(working := false)
    {
      var (state, reply) := algo(a, inPcm[..pcmLen], inRef[..frameLen], statusIn);
      a' := state;
      CopyToFront(inPcm, reply.pcm);
      pcmLen, statusIn := |reply.pcm|, reply.status;
      CopyToFront(outPcm, inPcm[..pcmLen]);
      statusOut := statusIn;
      working := false;
    }
  }
}

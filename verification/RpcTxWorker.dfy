/** Senders and the transmit thread of apps/app_rpc_old/rpc_bth_dsp.c, joined by a queue and a counting semaphore. */
module RpcTxWorker {
  import opened Bytes
  import opened RpcQueues
  import opened RpcFifo

  const TX_BUFF_SIZE := 2048
  const SEMA_MAX := 65535
  const SEND_TMP_SIZE := 512
  const MAX_DATA_PACKET_SIZE := 512
  const CODE_BYTES := 2

  /**
   * Where the transmit thread stands in its loop, or which assertion stopped it: the one on the peeked length, or the
   * one behind the look-up of a popped message's command code.
   */
  datatype Phase = Waiting | Holding | NonEmpty | Peeked(n: nat) | Handling(m: Message) | TooLong | Unknown(m: Message)

  /** `table` are the registered command codes; `owed` senders have pushed (or been refused) and not yet released. */
  datatype State = State(
    table: seq<nat>, queue: seq<Message>, sema: nat, owed: nat, phase: Phase, accepted: seq<Message>, handled: seq<Message>)

  /** Each action is one critical section or one semaphore call, of any sender or of the thread. */
  datatype Action = Push(cmdcode: nat, buff: seq<byte>) | Release | Acquire | TestLength | PeekLength | Pop | Handle

  function Initial(table: seq<nat>): State {
    State(table, [], 0, 0, Waiting, [], [])
  }

  /** What a send call's own assertion lets through, and the message it makes of it. */
  predicate Sendable(cmdcode: nat, buff: seq<byte>) {
    cmdcode < 0x1_0000 && |buff| <= MAX_DATA_PACKET_SIZE
  }

  function Packet(cmdcode: nat, buff: seq<byte>): (m: Message)
    requires Sendable(cmdcode, buff)
    ensures Short(m) && |m| == CODE_BYTES + |buff| && CodeOf(m) == cmdcode
  {
    Le16RoundTrip(cmdcode, buff);
    Le16(cmdcode) + buff
  }

  /** The command code in front of a message; every message of a send call has one. */
  function CodeOf(m: Message): nat {
    if |m| < CODE_BYTES then 0 else Le16Value(m)
  }

  /** The message fits the thread's buffer. */
  predicate Fits(m: Message) {
    |m| <= SEND_TMP_SIZE
  }

  /** It passes both assertions. */
  predicate Served(table: seq<nat>, m: Message) {
    Fits(m) && CodeOf(m) in table
  }

  predicate AllServed(table: seq<nat>, ms: seq<Message>) {
    forall i | 0 <= i < |ms| :: Served(table, ms[i])
  }

  predicate Enabled(s: State, a: Action) {
    match a
    case Push(cmdcode, buff) => Sendable(cmdcode, buff)
    case Release => s.owed > 0
    case Acquire => s.phase.Waiting? && s.sema > 0
    case TestLength => s.phase.Holding?
    case PeekLength => s.phase.NonEmpty?
    case Pop => s.phase.Peeked?
    case Handle => s.phase.Handling?
  }

  function Step(s: State, a: Action): State
    requires Enabled(s, a)
  {
    match a
    case Push(cmdcode, buff) =>
      var m := Packet(cmdcode, buff);
      var (answer, queue) := FifoStep(s.queue, TX_BUFF_SIZE, Send(m));
      s.(queue := queue, owed := s.owed + 1,
         accepted := if answer.Accepted? then s.accepted + [m] else s.accepted)
    case Release =>
      s.(owed := s.owed - 1, sema := if s.sema < SEMA_MAX then s.sema + 1 else s.sema)
    case Acquire =>
      s.(sema := s.sema - 1, phase := Holding)
    case TestLength =>
      s.(phase := if s.queue != [] then NonEmpty else Waiting)
    case PeekLength =>
      var n := if s.queue == [] then 0 else |s.queue[0]|;
      s.(phase := if n <= SEND_TMP_SIZE then Peeked(n) else TooLong)
    case Pop =>
      if s.phase.n == 0 then s.(phase := Waiting) else
      var (answer, queue) := FifoStep(s.queue, TX_BUFF_SIZE, Receive);
      s.(queue := queue, phase := Handling(answer.buff))
    case Handle =>
      if CodeOf(s.phase.m) in s.table then s.(phase := Waiting, handled := s.handled + [s.phase.m])
      else s.(phase := Unknown(s.phase.m))
  }

  ghost predicate Runs(s: State, as': seq<Action>, t: State)
    decreases |as'|
  {
    if as' == [] then s == t
    else Enabled(s, as'[0]) && Runs(Step(s, as'[0]), as'[1..], t)
  }

  function InHand(s: State): seq<Message> {
    match s.phase
    case Handling(m) => [m]
    case Unknown(m) => [m]
    case _ => []
  }

  predicate Halted(s: State) {
    s.phase.TooLong? || s.phase.Unknown?
  }

  /** The token the thread took and has not yet spent on a message. */
  function Taken(s: State): nat {
    if s.phase.Holding? || s.phase.NonEmpty? || s.phase.Peeked? || s.phase.TooLong? then 1 else 0
  }

  ghost predicate Inv(s: State) {
    && |Frames(s.queue)| <= TX_BUFF_SIZE
    && (forall m | m in s.queue :: Short(m))
    && s.sema <= SEMA_MAX
    && s.sema + s.owed + Taken(s) >= |s.queue|
    && s.handled + InHand(s) + s.queue == s.accepted
    && AllServed(s.table, s.handled) && (s.phase.Handling? ==> Fits(s.phase.m))
    && (s.phase.NonEmpty? ==> s.queue != [])
    && (s.phase.Peeked? ==> s.queue != [] && s.phase.n == |s.queue[0]| && Fits(s.queue[0]))
    && (s.phase.TooLong? ==> s.queue != [] && !Fits(s.queue[0]))
    && (s.phase.Unknown? ==> CodeOf(s.phase.m) !in s.table)
  }

  lemma {:induction false} FramesLength(ms: seq<Message>)
    ensures |Frames(ms)| >= 2 * |ms|
  {
    if ms != [] {
      FramesLength(ms[1..]);
    }
  }

  lemma PushKeepsInv(s: State, cmdcode: nat, buff: seq<byte>)
    requires Inv(s) && Sendable(cmdcode, buff)
    ensures Inv(Step(s, Push(cmdcode, buff)))
  {
    var m := Packet(cmdcode, buff);
    FramesAppend(s.queue, m);
    assert s.handled + InHand(s) + (s.queue + [m]) == (s.handled + InHand(s) + s.queue) + [m];
  }

  lemma PopKeepsInv(s: State)
    requires Inv(s) && s.phase.Peeked?
    ensures Inv(Step(s, Pop))
  {
    assert s.queue[0] in s.queue && forall m | m in s.queue[1..] :: m in s.queue;
    assert s.handled + [s.queue[0]] + s.queue[1..] == s.handled + [] + s.queue;
  }

  lemma HandleKeepsInv(s: State)
    requires Inv(s) && s.phase.Handling?
    ensures Inv(Step(s, Handle))
  {
    assert s.handled + [s.phase.m] + [] == s.handled + [s.phase.m];
  }

  lemma StepKeepsInv(s: State, a: Action)
    requires Inv(s) && Enabled(s, a)
    ensures Inv(Step(s, a)) && Step(s, a).table == s.table
  {
    match a
    case Push(cmdcode, buff) => PushKeepsInv(s, cmdcode, buff);
    case Pop => PopKeepsInv(s);
    case Handle => HandleKeepsInv(s);
    case Release => FramesLength(s.queue);
    case _ =>
  }

  /** Tokens, releases still owed and a token in hand always cover the queue, and messages keep their order. */
  lemma {:induction false} RunKeepsInv(s: State, as': seq<Action>, t: State)
    requires Inv(s) && Runs(s, as', t)
    ensures Inv(t) && t.table == s.table
    decreases |as'|
  {
    if as' != [] {
      StepKeepsInv(s, as'[0]);
      RunKeepsInv(Step(s, as'[0]), as'[1..], t);
    }
  }

  /** Nothing can move until someone sends again. */
  predicate Resting(s: State) {
    s.owed == 0 && (Halted(s) || (s.phase.Waiting? && s.sema == 0))
  }

  /** How many messages are in front of the first that is too long or has an unregistered code. */
  function FirstBad(table: seq<nat>, ms: seq<Message>): (k: nat)
    ensures k <= |ms| && (forall i | 0 <= i < k :: Served(table, ms[i])) && (k < |ms| ==> !Served(table, ms[k]))
  {
    if ms == [] || !Served(table, ms[0]) then 0 else 1 + FirstBad(table, ms[1..])
  }

  lemma InTwo(handled: seq<Message>, hand: seq<Message>, queue: seq<Message>, accepted: seq<Message>)
    requires handled + hand + queue == accepted
    ensures |handled| <= |accepted| && accepted[..|handled|] == handled
    ensures hand != [] ==> |handled| < |accepted| && accepted[|handled|] == hand[0]
    ensures hand == [] && queue != [] ==> |handled| < |accepted| && accepted[|handled|] == queue[0]
  {
  }

  lemma FirstBadIsBehind(table: seq<nat>, ms: seq<Message>, k: nat)
    requires k <= |ms| && AllServed(table, ms[..k])
    ensures k <= FirstBad(table, ms)
    ensures k < |ms| && !Served(table, ms[k]) ==> k == FirstBad(table, ms)
  {
    forall i | 0 <= i < k
      ensures Served(table, ms[i])
    {
      assert ms[i] == ms[..k][i];
    }
  }

  /** All that is handled is in front of the first bad message, and a halted thread has come to that one. */
  lemma HaltsAtFirstBad(s: State)
    requires Inv(s)
    ensures |s.handled| <= |s.accepted| && s.handled == s.accepted[..|s.handled|]
    ensures |s.handled| <= FirstBad(s.table, s.accepted)
    ensures Halted(s) ==> |s.handled| == FirstBad(s.table, s.accepted) < |s.accepted|
  {
    InTwo(s.handled, InHand(s), s.queue, s.accepted);
    FirstBadIsBehind(s.table, s.accepted, |s.handled|);
  }

  /**
   * No lost wake-up: a run can stop only with every accepted message handled in push order up to the first that is too
   * long for the thread's buffer or has an unregistered code, and it stops halted exactly when there is such a message.
   */
  lemma NoMessageStranded(table: seq<nat>, as': seq<Action>, t: State)
    requires Runs(Initial(table), as', t)
    ensures (forall a: Action | !a.Push? :: !Enabled(t, a)) <==> Resting(t)
    ensures Resting(t) ==> t.handled == t.accepted[..FirstBad(table, t.accepted)]
    ensures Resting(t) ==> (Halted(t) <==> !AllServed(table, t.accepted))
    ensures t.handled <= t.accepted[..FirstBad(table, t.accepted)]
  {
    RunKeepsInv(Initial(table), as', t);
    HaltsAtFirstBad(t);
    NotEnabledMeansResting(t);
  }

  lemma NotEnabledMeansResting(t: State)
    ensures (forall a: Action | !a.Push? :: !Enabled(t, a)) <==> Resting(t)
  {
    if forall a: Action | !a.Push? :: !Enabled(t, a) {
      assert !Enabled(t, Release) && !Enabled(t, Acquire) && !Enabled(t, TestLength);
      assert !Enabled(t, PeekLength) && !Enabled(t, Pop) && !Enabled(t, Handle);
    }
  }

  /** The longest payload whose message the thread can take. */
  const LONGEST := SEND_TMP_SIZE - CODE_BYTES

  /** A call the thread gets through: a registered code, and a payload with room for the code in front of it. */
  predicate GoodCall(table: seq<nat>, cmdcode: nat, buff: seq<byte>) {
    cmdcode in table && |buff| <= LONGEST
  }

  /** When all calls are good the thread never halts, and at rest all is handled. */
  lemma {:induction false} GoodCallsNeverHalt(s: State, as': seq<Action>, t: State)
    requires Inv(s) && AllServed(s.table, s.accepted) && Runs(s, as', t)
    requires forall a | a in as' && a.Push? :: GoodCall(s.table, a.cmdcode, a.buff)
    ensures AllServed(s.table, t.accepted) && !Halted(t) && (Resting(t) ==> t.handled == t.accepted)
    decreases |as'|
  {
    if as' == [] {
      HaltsAtFirstBad(t);
    } else {
      StepKeepsInv(s, as'[0]);
      assert as'[0] in as' && forall a | a in as'[1..] :: a in as';
      GoodCallsNeverHalt(Step(s, as'[0]), as'[1..], t);
    }
  }

  lemma StepThenRun(s: State, as': seq<Action>, rest: seq<Action>, t: State)
    requires as' != [] && as'[1..] == rest && Enabled(s, as'[0]) && Runs(Step(s, as'[0]), rest, t)
    ensures Runs(s, as', t)
  {
  }

  lemma FirstThenRun(s: State, a: Action, rest: seq<Action>, t: State)
    requires Enabled(s, a) && Runs(Step(s, a), rest, t)
    ensures Runs(s, [a] + rest, t)
  {
    StepThenRun(s, [a] + rest, rest, t);
  }

  /** One call, and the thread's turn on its message as far as it gets. */
  function OneSend(cmdcode: nat, buff: seq<byte>): seq<Action> {
    [Push(cmdcode, buff), Release, Acquire, TestLength]
      + if |buff| <= LONGEST then [PeekLength, Pop, Handle] else [PeekLength]
  }

  function AfterOneSend(table: seq<nat>, cmdcode: nat, buff: seq<byte>): State
    requires Sendable(cmdcode, buff)
  {
    var m := Packet(cmdcode, buff);
    if |buff| > LONGEST then State(table, [m], 0, 0, TooLong, [m], [])
    else if cmdcode in table then State(table, [], 0, 0, Waiting, [m], [m])
    else State(table, [], 0, 0, Unknown(m), [m], [])
  }

  /** The part of the turn that looks at the message. */
  lemma TurnRuns(table: seq<nat>, cmdcode: nat, buff: seq<byte>)
    requires Sendable(cmdcode, buff)
    ensures var m := Packet(cmdcode, buff);
      Runs(State(table, [m], 0, 0, NonEmpty, [m], []),
           if |buff| <= LONGEST then [PeekLength, Pop, Handle] else [PeekLength], AfterOneSend(table, cmdcode, buff))
  {
    var m, t := Packet(cmdcode, buff), AfterOneSend(table, cmdcode, buff);
    var s := State(table, [m], 0, 0, NonEmpty, [m], []);
    if |buff| > LONGEST {
      StepThenRun(s, [PeekLength], [], t);
    } else {
      var popped := State(table, [], 0, 0, Handling(m), [m], []);
      StepThenRun(popped, [Handle], [], t);
      assert Step(s.(phase := Peeked(|m|)), Pop) == popped;
      StepThenRun(s.(phase := Peeked(|m|)), [Pop, Handle], [Handle], t);
      StepThenRun(s, [PeekLength, Pop, Handle], [Pop, Handle], t);
    }
  }

  lemma TurnStarts(table: seq<nat>, cmdcode: nat, buff: seq<byte>, turn: seq<Action>, t: State)
    requires Sendable(cmdcode, buff)
    requires var m := Packet(cmdcode, buff); Runs(State(table, [m], 0, 0, NonEmpty, [m], []), turn, t)
    ensures Runs(Initial(table), [Push(cmdcode, buff), Release, Acquire, TestLength] + turn, t)
  {
    var m := Packet(cmdcode, buff);
    var s := State(table, [m], 0, 0, Holding, [m], []);
    var pushed := s.(phase := Waiting, owed := 1);
    FirstThenRun(s, TestLength, turn, t);
    FirstThenRun(s.(phase := Waiting, sema := 1), Acquire, [TestLength] + turn, t);
    FirstThenRun(pushed, Release, [Acquire] + ([TestLength] + turn), t);
    assert Step(Initial(table), Push(cmdcode, buff)) == pushed;
    FirstThenRun(Initial(table), Push(cmdcode, buff), [Release] + ([Acquire] + ([TestLength] + turn)), t);
    assert [Push(cmdcode, buff), Release, Acquire, TestLength] + turn
        == [Push(cmdcode, buff)] + ([Release] + ([Acquire] + ([TestLength] + turn)));
  }

  /** A single call that the sender lets through halts the thread in its turn exactly when it is not a good one. */
  lemma OneSendHaltsIff(table: seq<nat>, cmdcode: nat, buff: seq<byte>)
    requires Sendable(cmdcode, buff)
    ensures Runs(Initial(table), OneSend(cmdcode, buff), AfterOneSend(table, cmdcode, buff))
    ensures Halted(AfterOneSend(table, cmdcode, buff)) <==> !GoodCall(table, cmdcode, buff)
  {
    TurnRuns(table, cmdcode, buff);
    TurnStarts(table, cmdcode, buff, if |buff| <= LONGEST then [PeekLength, Pop, Handle] else [PeekLength],
               AfterOneSend(table, cmdcode, buff));
  }

  /** An empty command with an unregistered code: its message is popped, and the thread stops without handling it. */
  lemma UnknownCodeHalts(table: seq<nat>)
    requires 0xffff !in table
    ensures var m := Packet(0xffff, []);
      Runs(Initial(table), [Push(0xffff, []), Release, Acquire, TestLength, PeekLength, Pop, Handle],
           State(table, [], 0, 0, Unknown(m), [m], []))
  {
    OneSendHaltsIff(table, 0xffff, []);
    assert OneSend(0xffff, []) == [Push(0xffff, []), Release, Acquire, TestLength, PeekLength, Pop, Handle];
  }

  function Rank(p: Phase): nat {
    match p
    case Waiting => 0
    case Holding => 4
    case NonEmpty => 3
    case Peeked(_) => 2
    case Handling(_) => 1
    case TooLong => 0
    case Unknown(_) => 0
  }

  function Work(s: State): nat {
    6 * s.owed + 5 * s.sema + Rank(s.phase)
  }

  /** Without new sends the system comes to rest: no schedule is longer than Work. */
  lemma {:induction false} DrainIsBounded(s: State, as': seq<Action>, t: State)
    requires Runs(s, as', t) && forall a | a in as' :: !a.Push?
    ensures |as'| + Work(t) <= Work(s)
    ensures t.accepted == s.accepted
    decreases |as'|
  {
    if as' != [] {
      assert as'[0] in as' && forall a | a in as'[1..] :: a in as';
      DrainIsBounded(Step(s, as'[0]), as'[1..], t);
    }
  }

  /** The thread's steps from taking the semaphore until it waits again or has stopped. */
  function Turn(s: State): State
    requires s.phase.Waiting? && s.sema > 0
  {
    var tested := Step(Step(s, Acquire), TestLength);
    if tested.phase.Waiting? then tested else
    var peeked := Step(tested, PeekLength);
    if peeked.phase.TooLong? then peeked else
    var popped := Step(peeked, Pop);
    if popped.phase.Waiting? then popped else Step(popped, Handle)
  }

  lemma TurnIs(s: State)
    requires s.phase.Waiting? && s.sema > 0 && (s.queue != [] ==> Short(s.queue[0]))
    ensures var t := Turn(s);
      && t.table == s.table && t.sema == s.sema - 1
      && t.queue == (if s.queue != [] && Fits(s.queue[0]) then s.queue[1..] else s.queue)
      && (Halted(t) <==> s.queue != [] && !Served(s.table, s.queue[0]))
      && t.handled == s.handled + if s.queue != [] && Served(s.table, s.queue[0]) then [s.queue[0]] else []
  {
    assert s.handled + [] == s.handled;
  }

  /** The shared context of the two, with the semaphore as its count and the linked table of command codes. */
  class CoreCtx {
    const cmdTable: seq<nat>
    const txQueue: RpcQueue
    var sema: nat

    ghost predicate Valid()
      reads this, txQueue, txQueue.queue
    {
      txQueue.Valid() && txQueue.queue.base.Length == TX_BUFF_SIZE && sema <= SEMA_MAX
    }

    constructor (cmdTable: seq<nat>)
      ensures Valid() && this.cmdTable == cmdTable && txQueue.queue.Contents() == Frames([]) && sema == 0
    {
      this.cmdTable := cmdTable;
      txQueue := new RpcQueue(TX_BUFF_SIZE);
      sema := 0;
    }

    /** The queue, the semaphore and the table are those of a state of the step system. */
    ghost predicate Matches(s: State)
      requires Valid()
      reads this, txQueue, txQueue.queue, txQueue.queue.base
    {
      s.table == cmdTable && s.sema == sema && Represents(txQueue.queue.Contents(), TX_BUFF_SIZE, s.queue)
    }

    /** rpc_bth_dsp_send_cmd: push, then release whether or not the push was accepted. */
    method SendCmd(cmdcode: nat, buff: seq<byte>, ghost s: State) returns (res: int)
      requires Valid() && Sendable(cmdcode, buff) && Matches(s)
      modifies this`sema, txQueue.queue, txQueue.queue.base
      ensures Valid() && Matches(Step(Step(s, Push(cmdcode, buff)), Release))
      ensures res == 0 <==> |Frames(s.queue)| + 2 + |Packet(cmdcode, buff)| <= TX_BUFF_SIZE
      ensures Represents(txQueue.queue.Contents(), TX_BUFF_SIZE,
                         s.queue + if res == 0 then [Packet(cmdcode, buff)] else [])
      ensures sema == if old(sema) < SEMA_MAX then old(sema) + 1 else old(sema)
    {
      var packet := Packet(cmdcode, buff);
      StepRefines(txQueue.queue.Contents(), TX_BUFF_SIZE, s.queue, Send(packet));
      assert s.queue + [] == s.queue;
      res := txQueue.Push(packet);
      if sema < SEMA_MAX {
        sema := sema + 1;
      }
    }

    /** bth_dsp_get_task_cmd_entry: the first entry with the code; behind the last one the source asserts. */
    method GetTaskCmdEntry(cmdcode: nat) returns (index: nat)
      ensures index <= |cmdTable| && (index < |cmdTable| ==> cmdTable[index] == cmdcode)
      ensures cmdcode !in cmdTable[..index] && (index < |cmdTable| <==> cmdcode in cmdTable)
    {
      index := 0;
      while index < |cmdTable|
        invariant index <= |cmdTable| && cmdcode !in cmdTable[..index]
      {
        if cmdTable[index] == cmdcode {
          return;
        }
        index := index + 1;
      }
    }

    /**
     * One turn of the transmit loop once the semaphore can be taken: `sent` goes to the command's handler, unless the
     * assertion on the length stops the thread before the pop, or the one on the command code behind it.
     */
    method TxTurn(ghost s: State) returns (sent: seq<Message>, halted: bool)
      requires Valid() && sema > 0 && Matches(s) && s.phase.Waiting?
      modifies this`sema, txQueue.queue, txQueue.queue.base
      ensures Valid() && sema == old(sema) - 1
      ensures halted <==> s.queue != [] && !Served(cmdTable, s.queue[0])
      ensures sent == if s.queue == [] || halted then [] else [s.queue[0]]
      ensures Matches(Turn(s)) && halted == Halted(Turn(s)) && Turn(s).handled == s.handled + sent
    {
      sema := sema - 1;
      sent, halted := [], false;
      StepRefines(txQueue.queue.Contents(), TX_BUFF_SIZE, s.queue, Receive);
      TurnIs(s);
      var queued := txQueue.queue.LengthOfCQueue();
      if queued > 0 {
        var length := txQueue.GetNextEntryLength();
        if s.queue != [] {
          PopOldest(s.queue[0], Frames(s.queue[1..]));
        }
        if length > SEND_TMP_SIZE {
          halted := true;
        } else if length > 0 {
          var buff := txQueue.Pop(length);
          var entry := GetTaskCmdEntry(CodeOf(buff));
          if entry < |cmdTable| {
            sent := [buff];
          } else {
            halted := true;
          }
        }
      }
    }
  }
}

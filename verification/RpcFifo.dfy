/** The byte queue with its length headers refines a bounded FIFO of whole messages. */
module RpcFifo {
  import opened Bytes
  import opened RpcQueues

  /** A receive peeks the length and pops that many bytes, as the rx and tx workers do. */
  datatype Op = Send(m: Message) | Receive
  datatype Answer = Accepted | Refused | Got(buff: seq<byte>)

  function ByteStep(c: seq<byte>, capacity: nat, op: Op): (r: (Answer, seq<byte>))
    requires |c| <= capacity
    ensures |r.1| <= capacity
  {
    match op
    case Send(m) =>
      var (ok, c') := Pushed(c, capacity, m);
      (if ok then Accepted else Refused, c')
    case Receive =>
      var (buff, c') := Popped(c, NextLength(c));
      (Got(buff), c')
  }

  /** The reference: a list of messages whose frames may take `capacity` bytes together. */
  function FifoStep(ms: seq<Message>, capacity: nat, op: Op): (Answer, seq<Message>) {
    match op
    case Send(m) =>
      if m != [] && |Frames(ms)| + DATA_LEN_BYTES + |m| <= capacity then (Accepted, ms + [m]) else (Refused, ms)
    case Receive =>
      if ms == [] then (Got([]), []) else (Got(ms[0]), ms[1..])
  }

  predicate Short(m: Message) {
    0 < |m| < 0x1_0000
  }

  ghost predicate Represents(c: seq<byte>, capacity: nat, ms: seq<Message>) {
    c == Frames(ms) && |c| <= capacity && forall m | m in ms :: Short(m)
  }

  lemma FrameParts(m: Message, rest: seq<byte>)
    requires Short(m)
    ensures Frame(m) + rest == Le16(|m|) + (m + rest)
    ensures (Frame(m) + rest)[DATA_LEN_BYTES..] == m + rest
  {
    var header := Le16(|m|);
    assert Frame(m) == header + m;
    assert (header + m) + rest == header + (m + rest);
    assert (header + (m + rest))[|header|..] == m + rest;
  }

  lemma PopOldest(m: Message, rest: seq<byte>)
    requires Short(m)
    ensures NextLength(Frame(m) + rest) == |m|
    ensures Popped(Frame(m) + rest, |m|) == (m, rest)
  {
    FrameParts(m, rest);
    Le16RoundTrip(|m|, m + rest);
    assert (m + rest)[..|m|] == m && (m + rest)[|m|..] == rest;
  }

  lemma StepRefines(c: seq<byte>, capacity: nat, ms: seq<Message>, op: Op)
    requires Represents(c, capacity, ms)
    requires op.Send? ==> |op.m| < 0x1_0000
    ensures ByteStep(c, capacity, op).0 == FifoStep(ms, capacity, op).0
    ensures Represents(ByteStep(c, capacity, op).1, capacity, FifoStep(ms, capacity, op).1)
  {
    match op
    case Send(m) =>
      FramesAppend(ms, m);
    case Receive =>
      if ms != [] {
        assert forall m | m in ms[1..] :: m in ms;
        PopOldest(ms[0], Frames(ms[1..]));
      }
  }

  function ByteRun(c: seq<byte>, capacity: nat, ops: seq<Op>): (seq<Answer>, seq<byte>)
    requires |c| <= capacity
    decreases |ops|
  {
    if ops == [] then ([], c) else
    var (a, c') := ByteStep(c, capacity, ops[0]);
    var (as', last) := ByteRun(c', capacity, ops[1..]);
    ([a] + as', last)
  }

  function FifoRun(ms: seq<Message>, capacity: nat, ops: seq<Op>): (seq<Answer>, seq<Message>)
    decreases |ops|
  {
    if ops == [] then ([], ms) else
    var (a, ms') := FifoStep(ms, capacity, ops[0]);
    var (as', last) := FifoRun(ms', capacity, ops[1..]);
    ([a] + as', last)
  }

  /** Every run gives the FIFO's answers, refusals included, and leaves its messages. */
  lemma {:induction false} RunRefinesFifo(c: seq<byte>, capacity: nat, ms: seq<Message>, ops: seq<Op>)
    requires Represents(c, capacity, ms)
    requires forall op | op in ops && op.Send? :: |op.m| < 0x1_0000
    ensures ByteRun(c, capacity, ops).0 == FifoRun(ms, capacity, ops).0
    ensures Represents(ByteRun(c, capacity, ops).1, capacity, FifoRun(ms, capacity, ops).1)
    decreases |ops|
  {
    if ops != [] {
      StepRefines(c, capacity, ms, ops[0]);
      RunRefinesFifo(ByteStep(c, capacity, ops[0]).1, capacity, FifoStep(ms, capacity, ops[0]).1, ops[1..]);
    }
  }

  /** The queue is untouched, or gained a frame that a pop gives back as `m`. */
  predicate PushIsWhole(c: seq<byte>, c': seq<byte>, m: Message) {
    || c' == c
    || (c <= c' && NextLength(c'[|c|..]) == |m| && Popped(c'[|c|..], |m|) == (m, []))
  }

  /** A push keeps the queue readable exactly when the length fits its header or the push is refused. */
  lemma PushWholeIff(c: seq<byte>, capacity: nat, m: Message)
    requires |c| <= capacity
    ensures PushIsWhole(c, Pushed(c, capacity, m).1, m)
            <==> |m| < 0x1_0000 || |m| % 0x1_0000 + DATA_LEN_BYTES > capacity - |c|
  {
    var c' := Pushed(c, capacity, m).1;
    if c' != c {
      if |m| < 0x1_0000 {
        assert c'[|c|..] == Frame(m) + [];
        PopOldest(m, []);
      } else {
        assert c'[|c|..] == Le16(|m| % 0x1_0000) + if |c| + DATA_LEN_BYTES + |m| <= capacity then m else [];
        Le16RoundTrip(|m| % 0x1_0000, c'[|c| + DATA_LEN_BYTES..]);
      }
    }
  }
}

/** The length-prefixed message queue of apps/app_rpc/rpc_queue.c over a CQueue. */
module RpcQueues {
  import opened Bytes
  import opened CQueues

  type Message = seq<byte>

  const DATA_LEN_BYTES := 2

  /** A message as the queue stores it: the low 16 bits of its length, then its bytes. */
  function Frame(m: Message): seq<byte> {
    Le16(|m| % 0x1_0000) + m
  }

  function Frames(ms: seq<Message>): seq<byte> {
    if ms == [] then [] else Frame(ms[0]) + Frames(ms[1..])
  }

  lemma {:induction false} FramesAppend(ms: seq<Message>, m: Message)
    ensures Frames(ms + [m]) == Frames(ms) + Frame(m)
  {
    if ms == [] {
      assert ms + [m] == [m] && Frames([m][1..]) == [];
    } else {
      FramesAppend(ms[1..], m);
      assert (ms + [m])[1..] == ms[1..] + [m];
    }
  }

  lemma HeaderThenBytes(c: seq<byte>, m: Message)
    ensures c + Le16(|m| % 0x1_0000) + m == c + Frame(m)
  {
  }

  /** What a push answers and leaves in a queue of `capacity` bytes holding `c`. */
  function Pushed(c: seq<byte>, capacity: nat, m: Message): (bool, seq<byte>)
    requires |c| <= capacity
  {
    if |m| == 0 || |m| % 0x1_0000 + DATA_LEN_BYTES > capacity - |c| then (false, c)
    else if |c| + DATA_LEN_BYTES + |m| <= capacity then (true, c + Frame(m))
    else (true, c + Le16(|m| % 0x1_0000))
  }

  function NextLength(c: seq<byte>): nat {
    if |c| < DATA_LEN_BYTES then 0 else Le16Value(c)
  }

  /** The buffer a pop of `n` bytes fills, and what it leaves queued. */
  function Popped(c: seq<byte>, n: nat): (seq<byte>, seq<byte>) {
    var body := if |c| < DATA_LEN_BYTES then c else c[DATA_LEN_BYTES..];
    if n <= |body| then (body[..n], body[n..]) else (Zeros(n), body)
  }

  function Zeros(n: nat): seq<byte> {
    seq(n, _ => 0)
  }

  class RpcQueue {
    const queue: CQueue

    ghost predicate Valid()
      reads this, queue
    {
      queue.Valid()
    }

    constructor (size: nat)
      ensures Valid() && fresh(queue) && fresh(queue.base) && queue.base.Length == size
      ensures queue.Contents() == []
    {
      queue := new CQueue(size);
    }

    method Push(data: Message) returns (res: int)
      requires Valid()
      modifies queue, queue.base
      ensures Valid()
      ensures (res == 0, queue.Contents()) == Pushed(old(queue.Contents()), queue.base.Length, data)
      ensures var free := queue.base.Length - |old(queue.Contents())|;
        && (res == 0 <==> data != [] && |data| % 0x1_0000 + 2 <= free)
        && queue.Contents() == old(queue.Contents())
             + (if res != 0 then [] else Le16(|data| % 0x1_0000) + if |data| + 2 <= free then data else [])
    {
      res := -1;
      if |data| > 0 {
        var dataLen := |data| % 0x1_0000;
        var available := queue.AvailableOfCQueue();
        if dataLen + DATA_LEN_BYTES <= available {
          var _ := queue.EnCQueue(Le16(dataLen));
          var _ := queue.EnCQueue(data);
          HeaderThenBytes(old(queue.Contents()), data);
          res := 0;
        }
      }
    }

    method GetNextEntryLength() returns (length: nat)
      requires Valid()
      ensures length == NextLength(queue.Contents())
      ensures var c := queue.Contents(); length == if |c| < 2 then 0 else c[0] as int + 256 * c[1] as int
    {
      var ok, e1, len1, e2, len2 := queue.PeekCQueue(DATA_LEN_BYTES);
      if !ok {
        return 0;
      }
      var bytes := queue.base[e1..e1 + len1] + queue.base[e2..e2 + len2];
      length := Le16Value(bytes);
    }

    /** memset of two segments that hold no queued byte. */
    method ClearSegments(e1: nat, len1: nat, e2: nat, len2: nat)
      requires Valid() && e1 + len1 <= queue.base.Length && e2 + len2 <= queue.base.Length
      requires forall i: nat | e1 <= i < e1 + len1 || e2 <= i < e2 + len2 :: !queue.Holds(i, 0)
      modifies queue.base
      ensures queue.Contents() == old(queue.Contents())
    {
      forall i | e1 <= i < e1 + len1 {
        queue.base[i] := 0;
      }
      forall i | e2 <= i < e2 + len2 {
        queue.base[i] := 0;
      }
      queue.ContentsFramed();
    }

    /** Fills a caller's buffer with `n` bytes; the storage of the popped bytes is cleared. */
    method Pop(n: nat) returns (buff: seq<byte>)
      requires Valid()
      modifies queue, queue.base
      ensures Valid()
      ensures (buff, queue.Contents()) == Popped(old(queue.Contents()), n)
      ensures var c := old(queue.Contents());
        var body := if |c| < 2 then c else c[2..];
        if n <= |body| then body == buff + queue.Contents() && |buff| == n
        else buff == seq(n, _ => 0) && queue.Contents() == body
    {
      var _ := queue.DeCQueue(DATA_LEN_BYTES);
      ghost var body := queue.Contents();
      var ok, e1, len1, e2, len2 := queue.PeekCQueue(n);
      if n == len1 + len2 {
        buff := queue.base[e1..e1 + len1] + queue.base[e2..e2 + len2];
        var _ := queue.DeCQueue(n);
        ClearSegments(e1, len1, e2, len2);
      } else {
        buff := Zeros(n);
      }
    }
  }
}

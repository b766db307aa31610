/** The input cache between MCU and coprocessor (apps/audioplayers/a2dpplay.cpp): the routines on its storage. */
module CpInCaches {
  import opened Bytes
  import opened Cyclic
  import opened CQueues
  import opened A2dpFrames

  const IN_CACHE_SIZE := 10240

  /** Bytes that may still be written, one place always staying empty. */
  function FreeLen(wpos: nat, rpos: nat, size: nat): (n: nat)
    requires wpos < size && rpos < size
    ensures n == size - 1 - Offset(rpos, wpos, size)
  {
    if wpos < rpos then rpos - wpos - 1 else size - wpos + rpos - 1
  }

  /** How many of `queued` bytes fit behind `live` ones. */
  function Moved(live: nat, queued: nat): (n: nat)
    requires live < IN_CACHE_SIZE
    ensures n <= queued && live + n < IN_CACHE_SIZE && (n == queued || live + n == IN_CACHE_SIZE - 1)
  {
    if queued < IN_CACHE_SIZE - 1 - live then queued else IN_CACHE_SIZE - 1 - live
  }

  /** Overrun is a copy that leaves the frame buffer: what memory holds from there on is not described. */
  datatype LoadResult = Loaded(packet: Packet, readBytes: int) | NotLoaded(ret: int) | Overrun

  /** Bytes a load takes out of the cache: none unless it returns a packet. */
  function Used(m: Move): nat {
    if m.Take? then m.used else 0
  }

  /** The smallest of the decoder's read sizes that exceeds the packet. */
  function AacReadBytes(len: nat): (n: int)
    ensures n in {64, 128, 256, 512, 1024, 2048}
    ensures len < AAC_READBUF_SIZE ==> len < n && (n > 64 ==> n <= 2 * len)
  {
    if len < 64 then 64 else if len < 128 then 128 else if len < 256 then 256
    else if len < 512 then 512 else if len < 1024 then 1024 else 2048
  }

  function AacResult(m: Move, avail: nat): LoadResult {
    if m.Take? then Loaded(m.packet, AacReadBytes(|m.packet|))
    else if m.Reject? then NotLoaded(2)
    else NotLoaded(if avail < AAC_LEN_BYTES then 1 else 3)
  }

  function LhdcResult(m: Move): LoadResult {
    if m.Take? then Loaded(m.packet, |m.packet|) else NotLoaded(1)
  }

  /** A header's announcement as the loader's 32-bit test sees it, with `n` bytes from the header on. */
  predicate Complete(announced: nat, n: nat) {
    (LHDC_HEADER_SIZE + announced) % 0x1_0000_0000 <= n
  }

  predicate FitsReadBuffer(announced: nat) {
    LHDC_HEADER_SIZE + announced <= LHDC_READBUF_SIZE
  }

  /** What the loader makes of a header at `i` that announces `n` bytes. */
  function Announced(live: seq<byte>, i: nat, n: nat): (r: LoadResult)
    requires i + LHDC_HEADER_SIZE <= |live|
    ensures r.NotLoaded? ==> r.ret == 1
  {
    if !Complete(n, |live| - i) then NotLoaded(1)
    else if !FitsReadBuffer(n) then Overrun
    else Loaded(live[i + LHDC_HEADER_SIZE..i + LHDC_HEADER_SIZE + n], n)
  }

  function LhdcLoad(live: seq<byte>): (r: LoadResult)
    ensures r.NotLoaded? ==> r.ret == 1
  {
    var i := FirstTag(live);
    if i == |live| then NotLoaded(1) else Announced(live, i, Le32Value(live[i + 4..]))
  }

  /** The loader's test takes the frame for complete, and its announcement is too long for the buffer. */
  predicate TooLong(n: nat, room: nat) {
    Complete(n, room) && !FitsReadBuffer(n)
  }

  lemma AnnouncedIsFrame(live: seq<byte>, i: nat, n: nat)
    requires i + LHDC_HEADER_SIZE <= |live| && n == Le32Value(live[i + 4..])
    ensures TooLong(n, |live| - i) ==> Announced(live, i, n) == Overrun
    ensures !TooLong(n, |live| - i) ==> Announced(live, i, n) == LhdcResult(FrameAt(live, i))
    ensures Announced(live, i, n).Loaded? ==> Used(FrameAt(live, i)) == i + LHDC_HEADER_SIZE + n
  {
  }

  predicate FirstIsTooLong(live: seq<byte>) {
    var i := FirstTag(live);
    i < |live| && TooLong(Le32Value(live[i + 4..]), |live| - i)
  }

  /** A load overruns its buffer exactly on a header with a long announcement that its test takes for complete. */
  lemma LhdcLoadIsParseIff(live: seq<byte>)
    ensures LhdcLoad(live) == if FirstIsTooLong(live) then Overrun else LhdcResult(Parse(Lhdc, live))
  {
    ScanStopsAtFirstTag(live);
    var i := FirstTag(live);
    if i < |live| {
      AnnouncedIsFrame(live, i, Le32Value(live[i + 4..]));
    }
  }

  class CpInCache {
    const cache: array<byte>
    var inWpos: nat
    var inRpos: nat
    var decResetQueue: bool
    var latencyIndex: byte

    ghost predicate Valid()
      reads this
    {
      cache.Length == IN_CACHE_SIZE && inWpos < cache.Length && inRpos < cache.Length
    }

    /** The bytes loaded and not yet consumed. */
    ghost function Live(): (s: seq<byte>)
      requires Valid()
      reads this, cache
      ensures |s| < cache.Length
    {
      Window(cache[..], inRpos, Offset(inRpos, inWpos, cache.Length))
    }

    constructor ()
      ensures Valid() && fresh(cache) && Live() == [] && !decResetQueue
    {
      cache := new byte[IN_CACHE_SIZE](_ => 0);
      inWpos, inRpos := 0, 0;
      decResetQueue, latencyIndex := false, 0;
    }

    /** cp_get_in_cache_data: `len` bytes from a read position, given a snapshot of the write position. */
    method GetInCacheData(len: nat, wpos: nat, rpos: nat) returns (data: seq<byte>)
      requires Valid() && wpos < cache.Length && rpos < cache.Length && len <= Offset(rpos, wpos, cache.Length)
      ensures data == Window(cache[..], rpos, len)
    {
      WindowSlices(cache[..], rpos, len);
      if wpos > rpos || cache.Length >= rpos + len {
        data := cache[rpos..rpos + len];
      } else {
        var copyLen := cache.Length - rpos;
        data := cache[rpos..] + cache[..len - copyLen];
      }
    }

    /** The copy of two queue segments into the cache, from snapshots of both positions; returns where it ends. */
    method CopyIn(wpos: nat, rpos: nat, e1: seq<byte>, e2: seq<byte>) returns (next: nat)
      requires Valid() && wpos < cache.Length && rpos < cache.Length
      requires |e1| + |e2| <= FreeLen(wpos, rpos, cache.Length)
      requires |e1| == 0 ==> |e2| == 0
      modifies cache
      ensures cache[..] == Splice(old(cache[..]), wpos, e1 + e2)
      ensures next == Wrap(wpos + |e1| + |e2|, cache.Length)
    {
      ghost var before := cache[..];
      next := wpos;
      if wpos < rpos {
        Memcpy(cache, next, e1);
        next := next + |e1|;
        SpliceTwice(before, wpos, e1, e2);
        Memcpy(cache, next, e2);
        next := next + |e2|;
      } else {
        if |e1| > 0 {
          next := CopyPiece(next, e1);
        } else {
          assert e1 + e2 == [] && cache[..] == Splice(before, wpos, []);
        }
        if |e2| > 0 {
          SpliceTwice(before, wpos, e1, e2);
          next := CopyPiece(next, e2);
        } else {
          assert e1 + e2 == e1;
        }
      }
    }

    /** One segment, in two memcpys when it reaches the end of the cache. */
    method CopyPiece(at: nat, e: seq<byte>) returns (next: nat)
      requires Valid() && at < cache.Length && 0 < |e| < cache.Length
      modifies cache
      ensures cache[..] == Splice(old(cache[..]), at, e)
      ensures next == Wrap(at + |e|, cache.Length)
    {
      var n := cache.Length - at;
      if n > |e| {
        n := |e|;
      }
      ghost var before := cache[..];
      assert e == e[..n] + e[n..];
      SpliceTwice(before, at, e[..n], e[n..]);
      Memcpy(cache, at, e[..n]);
      next := Wrap(at + n, cache.Length);
      if n < |e| {
        Memcpy(cache, next, e[n..]);
        next := Wrap(next + (|e| - n), cache.Length);
      } else {
        assert e[n..] == [];
      }
    }

    /** Two segments are copied behind the live bytes, then the new write position is stored. */
    method CopyAndPublish(d1: seq<byte>, d2: seq<byte>)
      requires Valid() && |d1| + |d2| <= FreeLen(inWpos, inRpos, cache.Length) && (|d1| == 0 ==> |d2| == 0)
      modifies cache, this`inWpos
      ensures Valid() && Live() == old(Live()) + (d1 + d2)
    {
      ghost var n := Offset(inRpos, inWpos, cache.Length);
      SpliceExtends(cache[..], inRpos, n, d1 + d2);
      var next := CopyIn(inWpos, inRpos, d1, d2);
      assert Offset(inRpos, next, cache.Length) == n + (|d1| + |d2|);
      inWpos := next;
    }

    method Room() returns (freeLen: nat)
      requires Valid()
      ensures freeLen == IN_CACHE_SIZE - 1 - |Live()|
    {
      freeLen := FreeLen(inWpos, inRpos, cache.Length);
    }

    lemma NothingMoved(live: seq<byte>, queued: seq<byte>)
      ensures live == live + queued[..0] && queued == queued[0..]
    {
    }

    /** Peeks at the queue's first bytes and copies them behind the live ones. */
    method LoadFirst(q: CQueue, size: nat) returns (ok: bool)
      requires Valid() && q.Valid() && q.base != cache && size < IN_CACHE_SIZE - |Live()|
      modifies cache, this`inWpos
      ensures Valid() && ok == (size <= |q.Contents()|)
      ensures Live() == if ok then old(Live()) + q.Contents()[..size] else old(Live())
    {
      var e1, len1, e2, len2;
      ok, e1, len1, e2, len2 := q.PeekCQueue(size);
      if ok {
        CopyAndPublish(q.base[e1..e1 + len1], q.base[e2..e2 + len2]);
      }
    }

    /** mcu_load_a2dp_encoded_data without interference: the queue's first bytes move behind the live ones. */
    method McuLoad(q: CQueue) returns (ret: int)
      requires Valid() && q.Valid() && q.base != cache
      modifies cache, this`inWpos, q`read, q`len
      ensures Valid() && q.Valid() && ret == 0
      ensures var n := Moved(|old(Live())|, |old(q.Contents())|);
              Live() == old(Live()) + old(q.Contents())[..n] && q.Contents() == old(q.Contents())[n..]
    {
      var freeLen := Room();
      if freeLen == 0 {
        NothingMoved(Live(), q.Contents());
        return 0;
      }
      var size := q.LengthOfCQueue();
      if size > freeLen {
        size := freeLen;
      }
      var ok := LoadFirst(q, size);
      if !ok {
        return 1;
      }
      var _ := q.DeCQueue(size);
      ret := 0;
    }

    /** `live` are the live bytes and `rpos` is where number `at` of them stands. */
    ghost predicate Stands(live: seq<byte>, rpos: nat, at: nat)
      reads this, cache
    {
      Valid() && live == Live() && at <= |live| && rpos == Wrap(inRpos + at, cache.Length)
    }

    lemma StandsAt(live: seq<byte>, rpos: nat, at: nat)
      requires Stands(live, rpos, at)
      ensures Offset(rpos, inWpos, cache.Length) == |live| - at
      ensures Window(cache[..], rpos, |live| - at) == live[at..]
    {
      WindowParts(cache[..], inRpos, at, |live|);
    }

    /** Reads `n` live bytes from number `at` on. */
    method ReadLive(rpos: nat, n: nat, ghost live: seq<byte>, ghost at: nat) returns (data: seq<byte>)
      requires Stands(live, rpos, at) && at + n <= |live|
      ensures data == live[at..at + n]
    {
      StandsAt(live, rpos, at);
      data := GetInCacheData(n, inWpos, rpos);
      WindowParts(cache[..], rpos, n, |live| - at);
      assert live[at..][..n] == live[at..at + n];
    }

    /** Moves a local read position past `n` bytes. */
    method Advance(rpos: nat, n: nat, ghost live: seq<byte>, ghost at: nat) returns (next: nat)
      requires Stands(live, rpos, at) && at + n <= |live|
      ensures Stands(live, next, at + n)
    {
      next := Wrap(rpos + n, cache.Length);
    }

    /** Reads the `n` bytes behind a header and publishes the position behind them: all before it is consumed. */
    method TakePayload(rpos: nat, n: nat, ghost live: seq<byte>, ghost at: nat) returns (data: seq<byte>)
      requires Stands(live, rpos, at) && at + n <= |live|
      modifies this`inRpos
      ensures Valid() && data == live[at..at + n] && Live() == live[at + n..]
    {
      data := ReadLive(rpos, n, live, at);
      var next := Advance(rpos, n, live, at);
      StandsAt(live, next, at + n);
      inRpos := next;
    }

    /** cp_load_aac_frame: the next AAC packet and the rounded-up size the decoder may read. */
    method LoadAacFrame() returns (r: LoadResult)
      requires Valid()
      modifies this`inRpos, this`decResetQueue
      ensures Valid()
      ensures r == AacResult(Parse(Aac, old(Live())), |old(Live())|)
      ensures Live() == old(Live())[Used(Parse(Aac, old(Live())))..]
      ensures var b := old(Live());
        if |b| < 2 then r == NotLoaded(1) && decResetQueue == old(decResetQueue)
        else
          var len := b[0] as int + 256 * b[1] as int;
          && (r == NotLoaded(2) <==> len >= 2048)
          && decResetQueue == (old(decResetQueue) || len >= 2048)
          && (len < 2048 ==> r == if |b| < 2 + len then NotLoaded(3) else Loaded(b[2..2 + len], AacReadBytes(len)))
    {
      var rpos, wpos := inRpos, inWpos;
      var len := Offset(rpos, wpos, cache.Length);
      ghost var live := Live();
      if len < AAC_LEN_BYTES {
        return NotLoaded(1);
      }
      var aacLen;
      if wpos > rpos || cache.Length >= rpos + AAC_LEN_BYTES {
        aacLen := cache[rpos] as int + 256 * cache[rpos + 1] as int;
      } else {
        aacLen := cache[rpos] as int + 256 * cache[0] as int;
      }
      assert aacLen == Le16Value(live);
      rpos := Advance(rpos, AAC_LEN_BYTES, live, 0);
      if aacLen >= AAC_READBUF_SIZE {
        decResetQueue := true;
        return NotLoaded(2);
      }
      var maxRead := AacReadBytes(aacLen);
      if len < AAC_LEN_BYTES + aacLen {
        return NotLoaded(3);
      }
      var data := TakePayload(rpos, aacLen, live, AAC_LEN_BYTES);
      return Loaded(data, maxRead);
    }

    /** A header read at distance `i` shows whether a tag is there, and which length it announces. */
    lemma HeaderShows(live: seq<byte>, i: nat, ph: seq<byte>)
      requires i + LHDC_HEADER_SIZE <= |live| && ph == live[i..i + LHDC_HEADER_SIZE]
      ensures ph[..4] == LHDC_TAG <==> TagAt(live, i)
      ensures Le32Value(ph[4..]) == Le32Value(live[i + 4..])
    {
      assert forall k | 0 <= k < 4 :: ph[..4][k] == live[i + k];
    }

    /** A header's worth of bytes, or none when fewer are there. */
    method ReadHeader(rpos: nat, ghost live: seq<byte>, ghost at: nat) returns (ph: seq<byte>)
      requires Stands(live, rpos, at)
      ensures if at + LHDC_HEADER_SIZE <= |live| then ph == live[at..at + LHDC_HEADER_SIZE] else ph == []
      ensures ph != [] ==> (ph[..4] == LHDC_TAG <==> TagAt(live, at))
    {
      StandsAt(live, rpos, at);
      if Offset(rpos, inWpos, cache.Length) < LHDC_HEADER_SIZE {
        return [];
      }
      ph := ReadLive(rpos, LHDC_HEADER_SIZE, live, at);
      HeaderShows(live, at, ph);
    }

    /** The header search of cp_load_lhdc_frame, one byte at a time from the committed read position. */
    method ScanForTag(ghost live: seq<byte>) returns (rpos: nat, ph: seq<byte>, ghost skipped: nat)
      requires Stands(live, inRpos, 0)
      ensures FirstTag(live) == if ph == [] then |live| else skipped
      ensures ph != [] ==> TagAt(live, skipped) && Stands(live, rpos, skipped)
      ensures ph != [] ==> ph == live[skipped..skipped + LHDC_HEADER_SIZE]
    {
      rpos, skipped := inRpos, 0;
      while true
        invariant Stands(live, rpos, skipped) && NoTagBefore(live, skipped)
        decreases |live| - skipped
      {
        ph := ReadHeader(rpos, live, skipped);
        if ph == [] {
          NoTagAtAll(live, skipped);
          return;
        }
        if ph[..4] == LHDC_TAG {
          TagIsFirst(live, skipped);
          return;
        }
        rpos := Advance(rpos, 1, live, skipped);
        skipped := skipped + 1;
      }
    }

    /** The rest of cp_load_lhdc_frame once a header was found. */
    method TakeFrame(rpos: nat, ph: seq<byte>, ghost live: seq<byte>, ghost at: nat) returns (r: LoadResult)
      requires Stands(live, rpos, at) && at + LHDC_HEADER_SIZE <= |live| && ph == live[at..at + LHDC_HEADER_SIZE]
      modifies this`inRpos
      ensures Valid() && r == Announced(live, at, Le32Value(live[at + 4..]))
      ensures !r.Overrun? ==> Live() == live[if r.Loaded? then Used(FrameAt(live, at)) else 0..]
    {
      AnnouncedIsFrame(live, at, Le32Value(live[at + 4..]));
      HeaderShows(live, at, ph);
      StandsAt(live, rpos, at);
      var packetLen := Le32Value(ph[4..]);
      if Offset(rpos, inWpos, cache.Length) < (LHDC_HEADER_SIZE + packetLen) % 0x1_0000_0000 {
        return NotLoaded(1);
      }
      if LHDC_HEADER_SIZE + packetLen > LHDC_READBUF_SIZE {
        return Overrun;
      }
      var next := Advance(rpos, LHDC_HEADER_SIZE, live, at);
      var data := TakePayload(next, packetLen, live, at + LHDC_HEADER_SIZE);
      return Loaded(data, packetLen);
    }

    /**
     * cp_load_lhdc_frame: a changed latency setting costs one load, a decoder that is not ready answers 0 without a
     * packet, and otherwise the next frame is searched.
     */
    method LoadLhdcFrame(latencyUpdated: byte, ready: bool) returns (r: LoadResult)
      requires Valid()
      modifies this`inRpos, this`latencyIndex
      ensures Valid() && latencyIndex == latencyUpdated
      ensures r == if old(latencyIndex) != latencyUpdated then NotLoaded(1)
                   else if !ready then NotLoaded(0) else LhdcLoad(old(Live()))
      ensures !r.Overrun? ==>
                Live() == if r.Loaded? then old(Live())[Used(Parse(Lhdc, old(Live())))..] else old(Live())
    {
      if latencyIndex != latencyUpdated {
        latencyIndex := latencyUpdated;
        return NotLoaded(1);
      }
      if !ready {
        return NotLoaded(0);
      }
      ghost var live := Live();
      ScanStopsAtFirstTag(live);
      var rpos, ph, skipped := ScanForTag(live);
      if ph == [] {
        return NotLoaded(1);
      }
      r := TakeFrame(rpos, ph, live, skipped);
    }
  }
}

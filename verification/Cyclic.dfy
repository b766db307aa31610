/** Cyclic reads and writes of a ring of bytes, as functions on the storage. */
module Cyclic {
  import opened Bytes

  /** A position that ran past the end of a ring of `size` bytes at most once. */
  function Wrap(pos: nat, size: nat): (p: nat)
    requires pos < 2 * size
    ensures p < size
  {
    if pos >= size then pos - size else pos
  }

  lemma ModIsWrap(pos: nat, size: nat)
    requires pos < 2 * size
    ensures pos % size == Wrap(pos, size)
  {
    if pos >= size {
      assert pos == (pos - size) + 1 * size;
    }
  }

  /** How far `pos` lies after `start` going round the ring. */
  function Offset(start: nat, pos: nat, size: nat): (k: nat)
    requires start < size && pos < size
    ensures k < size && Wrap(start + k, size) == pos
  {
    if pos >= start then pos - start else pos + size - start
  }

  /** The `n` bytes from `start` on, going round. */
  function Window(ring: seq<byte>, start: nat, n: nat): (w: seq<byte>)
    requires start < |ring| && n <= |ring|
    ensures |w| == n
    ensures forall k | 0 <= k < n :: w[k] == ring[Wrap(start + k, |ring|)]
  {
    seq(n, k requires 0 <= k < n => ring[Wrap(start + k, |ring|)])
  }

  /** The ring with `d` written from `at` on, going round. */
  function Splice(ring: seq<byte>, at: nat, d: seq<byte>): (r: seq<byte>)
    requires at < |ring| && |d| <= |ring|
    ensures |r| == |ring|
    ensures forall i | 0 <= i < |ring| ::
              r[i] == if Offset(at, i, |ring|) < |d| then d[Offset(at, i, |ring|)] else ring[i]
  {
    seq(|ring|, i requires 0 <= i < |ring| =>
      if Offset(at, i, |ring|) < |d| then d[Offset(at, i, |ring|)] else ring[i])
  }

  /** A window is one slice, or two when it runs past the end. */
  lemma WindowSlices(ring: seq<byte>, start: nat, n: nat)
    requires start < |ring| && n <= |ring|
    ensures start + n <= |ring| ==> Window(ring, start, n) == ring[start..start + n]
    ensures start + n > |ring| ==> Window(ring, start, n) == ring[start..] + ring[..start + n - |ring|]
  {
  }

  lemma WindowParts(ring: seq<byte>, start: nat, m: nat, n: nat)
    requires start < |ring| && m <= n <= |ring|
    ensures Window(ring, start, n)[..m] == Window(ring, start, m)
    ensures m < |ring| ==> Window(ring, start, n)[m..] == Window(ring, Wrap(start + m, |ring|), n - m)
  {
  }

  /** Writing behind a window extends it and leaves its bytes alone. */
  lemma SpliceExtends(ring: seq<byte>, start: nat, n: nat, d: seq<byte>)
    requires start < |ring| && n + |d| <= |ring| && n < |ring|
    ensures Window(Splice(ring, Wrap(start + n, |ring|), d), start, n + |d|) == Window(ring, start, n) + d
  {
    var at := Wrap(start + n, |ring|);
    forall k | 0 <= k < n + |d|
      ensures Splice(ring, at, d)[Wrap(start + k, |ring|)] == (Window(ring, start, n) + d)[k]
    {
      var i := Wrap(start + k, |ring|);
      assert Offset(at, i, |ring|) == if k >= n then k - n else k - n + |ring|;
    }
  }

  /** A write that starts behind a window and stops before it comes round leaves the window alone. */
  lemma SpliceOutside(ring: seq<byte>, start: nat, n: nat, at: nat, d: seq<byte>)
    requires start < |ring| && at < |ring|
    requires n <= Offset(start, at, |ring|) && Offset(start, at, |ring|) + |d| <= |ring|
    ensures Window(Splice(ring, at, d), start, n) == Window(ring, start, n)
  {
    forall k | 0 <= k < n
      ensures Window(Splice(ring, at, d), start, n)[k] == Window(ring, start, n)[k]
    {
      assert Offset(at, Wrap(start + k, |ring|), |ring|) == k - Offset(start, at, |ring|) + |ring|;
    }
  }

  /** Two consecutive writes are one. */
  lemma SpliceTwice(ring: seq<byte>, at: nat, x: seq<byte>, y: seq<byte>)
    requires at < |ring| && |x| + |y| <= |ring| && |x| < |ring|
    ensures Splice(Splice(ring, at, x), Wrap(at + |x|, |ring|), y) == Splice(ring, at, x + y)
  {
    var n := |ring|;
    var mid := Wrap(at + |x|, n);
    forall i | 0 <= i < n
      ensures Splice(Splice(ring, at, x), mid, y)[i] == Splice(ring, at, x + y)[i]
    {
      var k := Offset(at, i, n);
      assert Offset(mid, i, n) == if k >= |x| then k - |x| else k - |x| + n;
    }
  }

  /** memcpy of `src` to `dst` at `at`, where it fits without going round. */
  method Memcpy(dst: array<byte>, at: nat, src: seq<byte>)
    requires at + |src| <= dst.Length
    modifies dst
    ensures dst[..] == old(dst[..at]) + src + old(dst[at + |src|..])
    ensures at < dst.Length ==> dst[..] == Splice(old(dst[..]), at, src)
  {
    forall k | 0 <= k < |src| {
      dst[at + k] := src[k];
    }
  }

  /** Writes `d` from `at` on, in two pieces when it reaches the end of the ring; returns where it stopped. */
  method WriteAround(ring: array<byte>, at: nat, d: seq<byte>) returns (next: nat)
    requires at < ring.Length && |d| <= ring.Length
    modifies ring
    ensures ring[..] == Splice(old(ring[..]), at, d)
    ensures next == Wrap(at + |d|, ring.Length)
  {
    var toTheEnd := ring.Length - at;
    if toTheEnd > |d| {
      Memcpy(ring, at, d);
      next := at + |d|;
    } else {
      ghost var before := ring[..];
      var head, tail := d[..toTheEnd], d[toTheEnd..];
      assert d == head + tail;
      Memcpy(ring, at, head);
      Memcpy(ring, 0, tail);
      next := |d| - toTheEnd;
      if at > 0 {
        SpliceTwice(before, at, head, tail);
      }
    }
  }
}

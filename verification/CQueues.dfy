/** The circular byte queue of utils/cqueue/cqueue.c. */
module CQueues {
  import opened Bytes
  import opened Cyclic

  class CQueue {
    var read: nat
    var write: nat
    var len: nat
    const base: array<byte>

    ghost predicate Valid()
      reads this
    {
      && len <= base.Length
      && (base.Length == 0 ==> read == 0 && write == 0)
      && (base.Length > 0 ==> read < base.Length && write == Wrap(read + len, base.Length))
    }

    /** The queued bytes, oldest first. */
    ghost function Contents(): (s: seq<byte>)
      requires Valid()
      reads this, base
      ensures |s| == len
    {
      if base.Length == 0 then [] else Window(base[..], read, len)
    }

    /** Index `i` of the storage holds a queued byte that is not among the first `n`. */
    ghost predicate Holds(i: nat, n: nat)
      requires Valid()
      reads this
    {
      i < base.Length && n <= Offset(read, i, base.Length) < len
    }

    /** Storage outside the queued bytes may change freely. */
    twostate lemma ContentsFramed()
      requires old(Valid()) && unchanged(this)
      requires forall i: nat | Holds(i, 0) :: base[i] == old(base[i])
      ensures Contents() == old(Contents())
    {
    }

    constructor (size: nat)
      ensures Valid() && fresh(base) && base.Length == size && Contents() == []
    {
      base := new byte[size](_ => 0);
      read, write, len := 0, 0, 0;
    }

    method LengthOfCQueue() returns (n: nat)
      requires Valid()
      ensures n == |Contents()|
    {
      n := len;
    }

    method AvailableOfCQueue() returns (n: nat)
      requires Valid()
      ensures n == base.Length - |Contents()|
    {
      n := base.Length - len;
    }

    /** All or nothing; bytes already queued do not move, so segments handed out by PeekCQueue stay intact. */
    method EnCQueue(e: seq<byte>) returns (ok: bool)
      requires Valid()
      modifies this`len, this`write, base
      ensures Valid()
      ensures ok == (|e| <= base.Length - |old(Contents())|)
      ensures Contents() == if ok then old(Contents()) + e else old(Contents())
      ensures forall i: nat | old(Holds(i, 0)) :: base[i] == old(base[i])
    {
      if base.Length - len < |e| {
        return false;
      }
      if 0 < base.Length {
        if len < base.Length {
          SpliceExtends(base[..], read, len, e);
        }
        len := len + |e|;
        write := WriteAround(base, write, e);
      }
      ok := true;
    }

    /** DeCQueue with a null destination: drops a prefix. */
    method DeCQueue(n: nat) returns (ok: bool)
      requires Valid()
      modifies this`len, this`read
      ensures Valid()
      ensures ok == (n <= |old(Contents())|)
      ensures Contents() == if ok then old(Contents())[n..] else old(Contents())
      ensures ok ==> forall i: nat | Holds(i, 0) :: old(Holds(i, n))
    {
      if len < n {
        return false;
      }
      if 0 < base.Length {
        ModIsWrap(read + n, base.Length);
        WindowParts(base[..], read, n, len);
        read := (read + n) % base.Length;
      } else {
        read := 0;
      }
      len := len - n;
      ok := true;
    }

    /** DeCQueue with a destination: the dropped prefix is copied out. */
    method DeCQueueInto(n: nat) returns (ok: bool, e: seq<byte>)
      requires Valid()
      modifies this`len, this`read
      ensures Valid()
      ensures ok == (n <= |old(Contents())|)
      ensures e == if ok then old(Contents())[..n] else []
      ensures Contents() == if ok then old(Contents())[n..] else old(Contents())
    {
      if len < n {
        return false, [];
      }
      if 0 < base.Length {
        WindowParts(base[..], read, n, len);
        WindowSlices(base[..], read, n);
      }
      len := len - n;
      var bytesToTheEnd := base.Length - read;
      if bytesToTheEnd > n {
        e := base[read..read + n];
        read := read + n;
      } else {
        e := base[read..] + base[..n - bytesToTheEnd];
        read := n - bytesToTheEnd;
      }
      ok := true;
    }

    /** The first `want` bytes as at most two segments of the storage, `[e1, e1+len1)` and `[e2, e2+len2)`. */
    method PeekCQueue(want: nat) returns (ok: bool, e1: nat, len1: nat, e2: nat, len2: nat)
      requires Valid()
      ensures ok == (want <= |Contents()|)
      ensures e1 + len1 <= base.Length && e2 + len2 <= base.Length
      ensures len1 + len2 == (if ok then want else 0) && (len1 == 0 ==> len2 == 0)
      ensures ok ==> base[e1..e1 + len1] + base[e2..e2 + len2] == Contents()[..want]
      ensures forall i: nat | e1 <= i < e1 + len1 || e2 <= i < e2 + len2 :: Holds(i, 0) && !Holds(i, want)
    {
      if len < want {
        return false, 0, 0, 0, 0;
      }
      if 0 < base.Length {
        WindowParts(base[..], read, want, len);
        WindowSlices(base[..], read, want);
      }
      e1 := read;
      if write > read || base.Length - read >= want {
        return true, e1, want, 0, 0;
      } else {
        len1 := base.Length - read;
        return true, e1, len1, 0, want - len1;
      }
    }

    method ResetCQueue()
      requires Valid()
      modifies this`len, this`read, this`write
      ensures Valid() && Contents() == []
    {
      len := 0;
      read, write := 0, 0;
    }
  }
}

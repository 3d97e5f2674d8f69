/** The sliding IO buffer: a fixed array with a read and a write cursor that is compacted on demand.
    Through `Contents` it is a bounded FIFO queue; compaction is never visible. */
module IoBuffer {
  import opened Bytes

  /** A closure over a mutable slice: from its captured state and the slice to the new captured state,
      the new bytes of the slice and the count (or error) it returns. */
  type SliceFn<!S, E> = (S, seq<byte>) -> (S, seq<byte>, Result<nat, E>)

  /** How `WriteAll` answers a closure that left `bytes` in its slice and returned `result`: an error
      leaves the queue alone, a count within the slice appends exactly that many of the bytes. */
  ghost predicate Absorbed<E>(before: seq<byte>, after: seq<byte>, bytes: seq<byte>,
                              result: Result<nat, E>, r: Result<nat, E>)
  {
    match result
    case Err(_) => r == result && after == before
    case Ok(n) =>
      && before <= after
      && r == Ok(|after| - |before|)
      && (n <= |bytes| ==> after == before + bytes[..n])
  }

  class Buffer {
    const inner: array<byte>
    var rpos: nat
    var wpos: nat

    ghost predicate Valid()
      reads this
    {
      rpos <= wpos <= inner.Length
    }

    /** The queue: bytes written and not yet read. */
    ghost function Contents(): (s: seq<byte>)
      requires Valid()
      reads this, inner
      ensures |s| == wpos - rpos
    {
      inner[rpos..wpos]
    }

    constructor (storage: array<byte>)
      ensures Valid() && Contents() == []
      ensures inner == storage
    {
      inner := storage;
      rpos, wpos := 0, 0;
    }

    function AvailableRead(): (n: nat)
      requires Valid()
      reads this, inner
      ensures n == |Contents()|
    {
      wpos - rpos
    }

    function AvailableWrite(): (n: nat)
      requires Valid()
      reads this
    {
      inner.Length - wpos
    }

    method Clear()
      requires Valid()
      modifies this
      ensures Valid() && Contents() == []
      ensures AvailableWrite() == inner.Length
    {
      rpos, wpos := 0, 0;
    }

    /** Moves the unread bytes to the front: the queue is unchanged and all free space is behind it. */
    method Shift()
      requires Valid()
      modifies this, inner
      ensures Valid() && Contents() == old(Contents())
      ensures AvailableWrite() == inner.Length - |Contents()|
    {
      if rpos != wpos {
        forall i | 0 <= i < wpos - rpos {
          inner[i] := inner[rpos + i];
        }
        wpos := wpos - rpos;
        rpos := 0;
      } else {
        Clear();
      }
    }

    /** Overwrites the first `|data|` free bytes behind the queue. */
    method Put(data: seq<byte>)
      requires Valid() && |data| <= AvailableWrite()
      modifies inner
      ensures Contents() == old(Contents())
      ensures inner[wpos..wpos + |data|] == data
    {
      forall i | 0 <= i < |data| {
        inner[wpos + i] := data[i];
      }
    }

    method Write(data: seq<byte>) returns (count: nat)
      requires Valid()
      modifies this, inner
      ensures Valid()
      ensures count == Min(|data|, inner.Length - |old(Contents())|)
      ensures Contents() == old(Contents()) + data[..count]
    {
      if AvailableWrite() < |data| {
        Shift();
      }
      count := Min(AvailableWrite(), |data|);
      Put(data[..count]);
      wpos := wpos + count;
    }

    method WriteAll<S(!new), E>(maxCount: nat, overflow: E, state: S, f: SliceFn<S, E>)
      returns (newState: S, r: Result<nat, E>, ghost slice: seq<byte>)
      requires Valid()
      requires forall w :: |w| == maxCount ==> |f(state, w).1| == maxCount
      modifies this, inner
      ensures Valid()
      ensures inner.Length - |old(Contents())| < maxCount ==>
                newState == state && r == Err(overflow) && Contents() == old(Contents())
      ensures inner.Length - |old(Contents())| >= maxCount ==>
                && |slice| == maxCount
                && newState == f(state, slice).0
                && Absorbed(old(Contents()), Contents(), f(state, slice).1, f(state, slice).2, r)
    {
      newState, slice := state, [];
      if AvailableWrite() < maxCount {
        Shift();
        if AvailableWrite() < maxCount {
          return state, Err(overflow), [];
        }
      }
      slice := inner[wpos..wpos + maxCount];
      var (after, bytes, result) := f(state, inner[wpos..wpos + maxCount]);
      newState := after;
      Put(bytes);
      r := Advance(maxCount, bytes, result);
    }

    /** Moves the write cursor over what the closure reported. */
    method Advance<E>(maxCount: nat, ghost bytes: seq<byte>, result: Result<nat, E>) returns (r: Result<nat, E>)
      requires Valid() && maxCount <= AvailableWrite()
      requires |bytes| == maxCount && inner[wpos..wpos + maxCount] == bytes
      modifies this
      ensures Valid()
      ensures Absorbed(old(Contents()), Contents(), bytes, result, r)
    {
      match result {
        case Err(e) => r := Err(e);
        case Ok(n) =>
          var advanceBy := Min(n, inner.Length - wpos);
          assert n <= maxCount ==> inner[wpos..wpos + n] == bytes[..n];
          wpos := wpos + advanceBy;
          r := Ok(advanceBy);
      }
    }

    method Read<S, E>(state: S, f: SliceFn<S, E>) returns (newState: S, r: Result<nat, E>)
      requires Valid()
      requires |f(state, Contents()).1| == |Contents()|
      modifies this, inner
      ensures Valid()
      ensures var (after, bytes, result) := f(state, old(Contents()));
              && newState == after
              && match result
                 case Err(e) => r == Err(e) && Contents() == bytes
                 case Ok(n) =>
                   && r == Ok(Min(n, |old(Contents())|))
                   && Contents() == bytes[Min(n, |old(Contents())|)..]
    {
      var (after, bytes, result) := f(state, inner[rpos..wpos]);
      newState := after;
      forall i | 0 <= i < |bytes| {
        inner[rpos + i] := bytes[i];
      }
      assert Contents() == bytes;
      match result {
        case Err(e) => r := Err(e);
        case Ok(n) =>
          var advanceBy := Min(n, wpos - rpos);
          rpos := rpos + advanceBy;
          r := Ok(advanceBy);
      }
    }

    method FillUpTo(value: byte, upTo: nat)
      requires Valid()
      modifies this, inner
      ensures Valid()
      ensures var count := Min(upTo, inner.Length - |old(Contents())|);
              Contents() == old(Contents()) + seq(count, _ => value)
    {
      if AvailableWrite() < upTo {
        Shift();
      }
      var count := Min(AvailableWrite(), upTo);
      Put(seq(count, _ => value));
      wpos := wpos + count;
    }
  }
}

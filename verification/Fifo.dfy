/** The sliding buffer against a bounded queue, over every sequence of operations. */
module Fifo {
  import opened Bytes
  import opened IoBuffer

  /** `PutAll` carries what its closure does with a slice of `max` bytes: it fails, or leaves bytes at the
      front and reports how many. */
  datatype Op =
    | Put(data: seq<byte>)
    | PutAll(max: nat, reply: Option<seq<byte>>)
    | Take(n: nat)
    | Pad(value: byte, n: nat)
    | Wipe

  datatype Out = Count(n: nat) | Overflow | Failed | Bytes(bytes: seq<byte>) | Nothing

  /** One operation on a queue of at most `cap` bytes. */
  function Queue(cap: nat, q: seq<byte>, op: Op): (r: (seq<byte>, Out))
    requires |q| <= cap
    ensures |r.0| <= cap
  {
    match op
    case Put(data) => var n := Min(|data|, cap - |q|); (q + data[..n], Count(n))
    case PutAll(max, reply) =>
      if cap - |q| < max then (q, Overflow)
      else if reply.None? then (q, Failed)
      else var n := Min(|reply.value|, max); (q + reply.value[..n], Count(n))
    case Take(n) => var k := Min(n, |q|); (q[k..], Bytes(q[..k]))
    case Pad(value, n) => (q + seq(Min(n, cap - |q|), _ => value), Nothing)
    case Wipe => ([], Nothing)
  }

  function QueueAfter(cap: nat, ops: seq<Op>): (r: (seq<byte>, seq<Out>))
    ensures |r.0| <= cap
    decreases |ops|
  {
    if ops == [] then ([], []) else
    var before := QueueAfter(cap, ops[..|ops| - 1]);
    var now := Queue(cap, before.0, ops[|ops| - 1]);
    (now.0, before.1 + [now.1])
  }

  method Apply(b: Buffer, op: Op) returns (out: Out)
    requires b.Valid()
    modifies b, b.inner
    ensures b.Valid()
    ensures (b.Contents(), out) == Queue(b.inner.Length, old(b.Contents()), op)
  {
    match op {
      case Put(data) =>
        var n := b.Write(data);
        out := Count(n);
      case PutAll(max, reply) =>
        out := ApplyPutAll(b, max, reply);
      case Take(n) =>
        var copy: SliceFn<seq<byte>, ()> := (_: seq<byte>, w: seq<byte>) => (w[..Min(n, |w|)], w, Ok(n));
        var bytes, _ := b.Read([], copy);
        out := Bytes(bytes);
      case Pad(value, n) =>
        b.FillUpTo(value, n);
        out := Nothing;
      case Wipe =>
        b.Clear();
        out := Nothing;
    }
  }

  method ApplyPutAll(b: Buffer, max: nat, reply: Option<seq<byte>>) returns (out: Out)
    requires b.Valid()
    modifies b, b.inner
    ensures b.Valid()
    ensures (b.Contents(), out) == Queue(b.inner.Length, old(b.Contents()), PutAll(max, reply))
  {
    var put: SliceFn<(), bool> := (_: (), w: seq<byte>) =>
      if reply.None? then ((), w, Err(true))
      else
        var n := Min(|reply.value|, |w|);
        ((), reply.value[..n] + w[n..], Ok(n));
    ghost var q := b.Contents();
    var _, r, slice := b.WriteAll(max, false, (), put);
    match r {
      case Err(closureFailed) => out := if closureFailed then Failed else Overflow;
      case Ok(n) => out := Count(n);
    }
    if b.inner.Length - |q| >= max && reply.Some? {
      var n := Min(|reply.value|, max);
      assert put((), slice).1[..n] == reply.value[..n];
    }
  }

  /** From a new buffer, any sequence of operations gives the results of the queue, and the unread bytes at
      the end are the queue's: where the cursors stood and when the bytes were moved never shows. */
  method Drive(cap: nat, ops: seq<Op>) returns (outs: seq<Out>, unread: seq<byte>)
    ensures (unread, outs) == QueueAfter(cap, ops)
  {
    var storage := new byte[cap];
    var b := new Buffer(storage);
    outs := [];
    for i := 0 to |ops|
      invariant b.Valid() && b.inner == storage && fresh(b)
      invariant (b.Contents(), outs) == QueueAfter(cap, ops[..i])
    {
      var out := Apply(b, ops[i]);
      outs := outs + [out];
      assert ops[..i + 1][..i] == ops[..i];
    }
    assert ops[..|ops|] == ops;
    unread := b.inner[b.rpos..b.wpos];
  }
}

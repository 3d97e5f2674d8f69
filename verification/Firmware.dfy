/** The example firmware's command loop with storage in memory, as it runs on the device: the storage is written
    in place and the offset is a field that survives from call to call. */
module Firmware {
  import opened Bytes
  import opened Codec
  import opened Transport
  import opened Runs
  import opened BulkOnlyTransport
  import opened Dispatch
  import opened Storage

  /** `copy_from_slice` into part of an array. */
  method CopyInto(a: array<byte>, at: nat, data: seq<byte>)
    requires at + |data| <= a.Length
    modifies a
    ensures a[..] == Overwrite(old(a[..]), at, data)
  {
    forall i | 0 <= i < |data| {
      a[at + i] := data[i];
    }
  }

  /** Writing back what was there changes nothing. */
  lemma OverwriteRest(s: seq<byte>, at: nat, end: nat, dst: seq<byte>, data: seq<byte>)
    requires at + |data| <= end <= |s| && dst == s[at..end]
    ensures Overwrite(s, at, data + dst[|data|..]) == Overwrite(s, at, data)
  {
    assert s[..at] + (data + dst[|data|..]) + s[end..] == s[..at] + data + s[at + |data|..];
  }

  /** The part of the direct Write handler that takes bytes. */
  function Fetch(d: Device, x: Extent): (h: Handled)
    requires Within(d.disk, x)
  {
    var o := Transport.ReadData(d.m, x.size - d.disk.offset);
    match o.r
    case Err(e) => Handled(Device(o.m, d.disk), Err(e))
    case Ok(bytes) => Handled(Device(o.m, Taken(d.disk, x, bytes)), Ok(()))
  }

  /** `read_data` into the slice `lo..hi` of `s` came to `r`, with the transport at `n` and the array at `after`. */
  ghost predicate ReadsInto(m: Machine, s: seq<byte>, lo: nat, hi: nat, n: Machine, after: seq<byte>, r: Answer<nat>)
    requires lo <= hi
  {
    match Transport.ReadData(m, hi - lo)
    case Outcome(m', Err(e)) => n == m' && r == Err(e) && after == s
    case Outcome(m', Ok(bytes)) =>
      && n == m' && r == Ok(|bytes|) && |bytes| <= hi - lo && |bytes| <= |m.buf|
      && after == Overwrite(s, lo, bytes)
  }

  lemma FetchIs(d: Device, x: Extent, n: Machine, after: seq<byte>, r: Answer<nat>)
    requires Within(d.disk, x) && d.disk.offset < x.size
    requires ReadsInto(d.m, d.disk.storage, x.at + d.disk.offset, x.at + x.size, n, after, r)
    ensures r.Err? ==> Fetch(d, x) == Handled(Device(n, d.disk), Err(r.error)) && after == d.disk.storage
    ensures r.Ok? ==>
              var k := Disk(after, d.disk.offset + r.value, d.disk.decode, d.disk.base);
              Fetch(d, x) == Handled(Device(n, k), Ok(()))
  {
  }

  /** The direct Write handler, case by case. */
  lemma WriteArmCases(d: Device, x: Extent)
    requires TakesStatus(d.m.state) && Within(d.disk, x)
    ensures d.disk.offset == x.size ==> Storage.WriteArm(d, x) == Storage.Pass(d)
    ensures d.disk.offset != x.size ==>
              var h := Fetch(d, x);
              && TakesStatus(h.d.m.state) && h.d.disk.offset < U32_LIMIT
              && Storage.WriteArm(d, x) == if h.r.Ok? && h.d.disk.offset == x.size then Storage.Pass(h.d) else h
  {
  }

  /** The Read handler, case by case. */
  lemma ReadArmCases(d: Device, x: Extent)
    requires TakesStatus(d.m.state) && Within(d.disk, x)
    ensures d.disk.offset == x.size ==> Storage.ReadArm(d, x) == Storage.Pass(d)
    ensures d.disk.offset != x.size ==>
              var o := Transport.WriteData(d.m, d.disk.storage[x.at + d.disk.offset..x.at + x.size]);
              Storage.ReadArm(d, x) ==
              match o.r
              case Err(e) => Handled(Device(o.m, d.disk), Err(e))
              case Ok(count) => Handled(Device(o.m, d.disk.(offset := d.disk.offset + count)), Ok(()))
  {
  }

  /** `read_data` into the slice `lo..hi` of an array. */
  method ReadInto(t: BulkOnly, a: array<byte>, lo: nat, hi: nat) returns (r: Answer<nat>)
    requires t.Valid() && a != t.buf.inner && lo <= hi <= a.Length
    modifies a, t, t.buf, t.buf.inner
    ensures t.Valid()
    ensures ReadsInto(old(t.View()), old(a[..]), lo, hi, t.View(), a[..], r)
  {
    ghost var o := Transport.ReadData(t.View(), hi - lo);
    ghost var before := a[..];
    var dst := a[lo..hi];
    var copied, count := t.ReadData(dst);
    if count.Err? {
      return Err(count.error);
    }
    OverwriteRest(before, lo, hi, dst, o.r.value);
    CopyInto(a, lo, copied);
    r := Ok(count.value);
  }

  /** A data call of a handler. */
  method Do(t: BulkOnly, call: Call)
    requires t.Valid()
    modifies t, t.buf, t.buf.inner
    ensures t.Valid() && t.View() == Step(old(t.View()), EventOf(call))
  {
    match call {
      case CallWrite(src) =>
        var _ := t.WriteData(src);
      case CallWriteAll(src) =>
        var _ := t.TryWriteDataAll(src);
      case CallRead(room) =>
        var _, _ := t.ReadData(seq(room, _ => 0));
    }
  }

  method DoAll(t: BulkOnly, calls: seq<Call>)
    requires t.Valid()
    modifies t, t.buf, t.buf.inner
    ensures t.Valid() && t.View() == RunCalls(old(t.View()), calls)
  {
    ghost var m := t.View();
    for i := 0 to |calls|
      invariant t.Valid()
      invariant RunCalls(m, calls) == RunCalls(t.View(), calls[i..])
    {
      ghost var rest := calls[i..];
      assert rest[0] == calls[i] && rest[1..] == calls[i + 1..];
      Do(t, calls[i]);
    }
  }

  class DirectFirmware {
    const t: BulkOnly
    const storage: array<byte>
    const decode: Cbw -> BlockOp
    var offset: nat
    ghost var base: seq<byte>

    ghost predicate Ready()
      reads this, t, t.buf, t.buf.inner
    {
      t.Valid() && storage != t.buf.inner
    }

    ghost function View(): (d: Device)
      requires t.buf.Valid()
      reads this, storage, t, t.buf, t.buf.inner
    {
      Device(t.View(), Disk(storage[..], offset, decode, base))
    }

    constructor (transport: BulkOnly, blocks: array<byte>, blockSize: nat, extended: bool)
      requires transport.Valid() && blocks != transport.buf.inner
      ensures Ready() && t == transport && storage == blocks
      ensures offset == 0 && base == blocks[..]
      ensures forall c :: decode(c) == Decode(blockSize, extended, c)
    {
      t := transport;
      storage := blocks;
      decode := c => Decode(blockSize, extended, c);
      offset := 0;
      base := blocks[..];
    }

    method Pass()
      requires Ready() && TakesStatus(t.state) && offset < U32_LIMIT
      modifies this, t
      ensures Ready() && View() == Storage.Pass(old(View())).d
    {
      t.SetStatus(Passed, offset);
      offset := 0;
    }

    method ReadArm(x: Extent) returns (r: Answer<()>)
      requires Ready() && TakesStatus(t.state) && Within(View().disk, x)
      modifies this, t, t.buf, t.buf.inner
      ensures Ready() && Storage.ReadArm(old(View()), x) == Handled(View(), r)
    {
      ReadArmCases(View(), x);
      r := Ok(());
      if offset != x.size {
        var count := t.WriteData(storage[x.at + offset..x.at + x.size]);
        if count.Err? {
          return Err(count.error);
        }
        offset := offset + count.value;
      } else {
        Pass();
      }
    }

    /** Moves what the transport has of the command's bytes into the storage. */
    method Take(x: Extent) returns (r: Answer<()>)
      requires Ready() && Within(View().disk, x) && offset != x.size
      modifies this, storage, t, t.buf, t.buf.inner
      ensures Ready() && Fetch(old(View()), x) == Handled(View(), r)
    {
      ghost var d := View();
      var count := ReadInto(t, storage, x.at + offset, x.at + x.size);
      FetchIs(d, x, t.View(), storage[..], count);
      if count.Err? {
        return Err(count.error);
      }
      offset := offset + count.value;
      r := Ok(());
    }

    method WriteArm(x: Extent) returns (r: Answer<()>)
      requires Ready() && TakesStatus(t.state) && Within(View().disk, x)
      modifies this, storage, t, t.buf, t.buf.inner
      ensures Ready() && Storage.WriteArm(old(View()), x) == Handled(View(), r)
    {
      WriteArmCases(View(), x);
      r := Ok(());
      if offset != x.size {
        r := Take(x);
        if r.Err? {
          return;
        }
        if offset == x.size {
          Pass();
        }
      } else {
        Pass();
      }
    }

    /** A handler that moves no blocks: its data calls in order, then its verdict. */
    method MiscArm(cb: Callback) returns (r: Answer<()>)
      requires Ready() && TakesStatus(t.state)
      modifies this, t, t.buf, t.buf.inner
      ensures Ready() && Storage.MiscArm(old(View()), cb) == Handled(View(), r)
    {
      DoAll(t, cb.calls);
      if cb.verdict.Some? {
        t.SetStatus(cb.verdict.value.0, cb.verdict.value.1);
      }
      r := if cb.ok then Ok(()) else Err(Error(InvalidState));
    }

    /** `poll_command`. */
    method PollCommand(misc: Callback) returns (r: Answer<()>)
      requires Ready() && (Offered(t.View()) ==> CanHandle(View()))
      modifies this, storage, t, t.buf, t.buf.inner
      ensures Ready() && View() == PollDevice(old(View()), misc)
      ensures r == PollDeviceAnswer(old(View()), misc)
    {
      r := Ok(());
      if t.GetCommand().Some? && !t.HasStatus() {
        OfferIsSafe(t.View());
        HandleGood(View(), misc);
        match decode(t.cbw) {
          case ReadOp(x) => r := ReadArm(x);
          case WriteOp(x) => r := WriteArm(x);
          case NoOp => r := MiscArm(misc);
        }
        if r.Ok? {
          r := t.Poll();
        }
      }
    }
  }
}

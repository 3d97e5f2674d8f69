/** The example firmware with storage in flash, as it runs on the device: the write buffer is filled in place and the
    flash is programmed block by block. */
module FlashFirmware {
  import opened Bytes
  import opened Codec
  import opened Transport
  import opened BulkOnlyTransport
  import opened Dispatch
  import opened Storage
  import opened Firmware
  import opened Staging
  import opened StagedRuns

  class StagedFirmware {
    const t: BulkOnly
    const writeBuffer: array<byte>
    const decode: Cbw -> BlockOp
    const limit: nat // the size of the file system at the front of the flash
    var flash: seq<byte>
    var offset: nat
    ghost var programs: seq<Block> // flash calls made for the current Write
    ghost var origin: seq<byte> // the flash when the current Write began
    ghost var base: seq<byte> // the flash at the last reset

    ghost predicate Ready()
      reads this, t, t.buf, t.buf.inner
    {
      t.Valid() && writeBuffer != t.buf.inner && writeBuffer.Length > 0
    }

    ghost function StageView(): (g: Stage)
      reads this, writeBuffer
    {
      Stage(flash, writeBuffer[..], offset, programs, origin)
    }

    ghost function View(): (d: StagedDevice)
      requires t.buf.Valid()
      reads this, writeBuffer, t, t.buf, t.buf.inner
    {
      StagedDevice(t.View(), StageView(), decode, limit, base)
    }

    constructor (transport: BulkOnly, staging: array<byte>, contents: seq<byte>, size: nat, extended: bool)
      requires transport.Valid() && staging != transport.buf.inner && staging.Length > 0
      ensures Ready() && t == transport && writeBuffer == staging
      ensures View() == StagedDevice(t.View(), Stage(contents, staging[..], 0, [], contents), decode, size, contents)
      ensures forall c :: decode(c) == Decode(staging.Length, extended, c)
    {
      t := transport;
      writeBuffer := staging;
      decode := c => Decode(staging.Length, extended, c);
      limit := size;
      flash, offset := contents, 0;
      programs, origin, base := [], contents, contents;
    }

    /** One turn of the loop: at most to the end of the current block. */
    method Turn(at: nat) returns (more: Answer<bool>)
      requires Ready()
      modifies this, writeBuffer, t, t.buf, t.buf.inner
      ensures Ready() && base == old(base)
      ensures StageTurn(old(t.View()), old(StageView()), at) == Turned(t.View(), StageView(), more)
    {
      var start, blockOffset := Locate(at);
      var count := ReadInto(t, writeBuffer, blockOffset, writeBuffer.Length);
      if count.Err? {
        return Err(count.error);
      }
      assert StageView() == old(StageView()).(wb := writeBuffer[..]);
      var full := Count(start, count.value);
      more := Ok(full);
    }

    /** Where the next byte goes: in the storage and in its block. */
    method Locate(at: nat) returns (start: nat, blockOffset: nat)
      requires Ready()
      ensures blockOffset < writeBuffer.Length
      ensures TurnsTo(t.View(), StageView(), start, blockOffset, StageTurn(t.View(), StageView(), at))
    {
      start := at + offset;
      blockOffset := start % writeBuffer.Length;
      TurnCases(t.View(), StageView(), at, start, blockOffset);
    }

    /** Counts the staged bytes and programs the block if it is full. */
    method Count(start: nat, count: nat) returns (full: bool)
      requires writeBuffer.Length > 0
      modifies this
      ensures base == old(base) && Counted(old(StageView()), start, count) == (StageView(), full)
    {
      offset := offset + count;
      full := count > 0 && offset % writeBuffer.Length == 0;
      if full {
        flash := Overwrite(flash, start - start % writeBuffer.Length, writeBuffer[..]);
        programs := programs + [Block(start / writeBuffer.Length, writeBuffer[..])];
      }
    }

    /** The loop. */
    method StageAll(at: nat) returns (r: Answer<()>)
      requires Ready()
      modifies this, writeBuffer, t, t.buf, t.buf.inner
      ensures Ready() && base == old(base)
      ensures StageLoop(old(t.View()), old(StageView()), at) == StagedHandled(t.View(), StageView(), r)
      ensures r.Ok? ==> r == Ok(())
    {
      ghost var whole := StageLoop(t.View(), StageView(), at);
      var more := true;
      r := Ok(());
      while more
        invariant Ready() && base == old(base) && r == Ok(())
        invariant whole == if more then StageLoop(t.View(), StageView(), at)
                           else StagedHandled(t.View(), StageView(), r)
        decreases |t.buf.Contents()|, more
      {
        var again := Turn(at);
        if again.Err? {
          return Err(again.error);
        }
        more := again.value;
      }
    }

    method Pass()
      requires Ready() && TakesStatus(t.state) && offset < U32_LIMIT
      modifies this, t
      ensures Ready() && base == old(base)
      ensures StagedPass(old(t.View()), old(StageView())) == StagedHandled(t.View(), StageView(), Ok(()))
    {
      t.SetStatus(Passed, offset);
      offset := 0;
    }

    method WriteArm(x: Extent) returns (r: Answer<()>)
      requires Ready() && TakesStatus(t.state) && x.size < U32_LIMIT
      modifies this, writeBuffer, t, t.buf, t.buf.inner
      ensures Ready() && base == old(base)
      ensures StagedArm(old(t.View()), old(StageView()), x) == StagedHandled(t.View(), StageView(), r)
    {
      ArmCases(t.View(), StageView(), x);
      r := Ok(());
      Begin();
      if offset != x.size {
        r := StageAll(x.at);
        if r.Err? {
          return;
        }
        if offset == x.size {
          Pass();
        }
      } else {
        Pass();
      }
    }

    /** Bookkeeping at the first call for a Write. */
    ghost method Begin()
      modifies this`programs, this`origin
      ensures StageView() == Began(old(StageView()))
    {
      if offset == 0 {
        programs, origin := [], flash;
      }
    }

    method ReadArm(x: Extent) returns (r: Answer<()>)
      requires Ready() && TakesStatus(t.state) && Within(FlashDisk(View()), x)
      modifies this, t, t.buf, t.buf.inner
      ensures Ready() && base == old(base)
      ensures var h := Storage.ReadArm(Device(old(t.View()), FlashDisk(old(View()))), x);
              t.View() == h.d.m && r == h.r && StageView() == old(StageView()).(offset := h.d.disk.offset)
    {
      ReadArmCases(Device(t.View(), FlashDisk(View())), x);
      r := Ok(());
      if offset != x.size {
        var count := t.WriteData(flash[x.at + offset..x.at + x.size]);
        if count.Err? {
          return Err(count.error);
        }
        offset := offset + count.value;
      } else {
        Pass();
      }
    }

    method MiscArm(cb: Callback) returns (r: Answer<()>)
      requires Ready() && TakesStatus(t.state)
      modifies t, t.buf, t.buf.inner
      ensures Ready()
      ensures var h := Storage.MiscArm(Device(old(t.View()), FlashDisk(old(View()))), cb);
              t.View() == h.d.m && r == h.r
    {
      DoAll(t, cb.calls);
      if cb.verdict.Some? {
        t.SetStatus(cb.verdict.value.0, cb.verdict.value.1);
      }
      r := if cb.ok then Ok(()) else Err(Error(InvalidState));
    }

    /** `poll_command`. */
    method PollCommand(misc: Callback) returns (r: Answer<()>)
      requires Ready() && (Offered(t.View()) ==> StagedCanHandle(View()))
      modifies this, writeBuffer, t, t.buf, t.buf.inner
      ensures Ready() && View() == PollStaged(old(View()), misc)
      ensures r == PollStagedAnswer(old(View()), misc)
    {
      r := Ok(());
      if t.GetCommand().Some? && !t.HasStatus() {
        OfferIsSafe(t.View());
        StagedHandleGood(View(), misc);
        match decode(t.cbw) {
          case ReadOp(x) => r := ReadArm(x);
          case WriteOp(x) => r := WriteArm(x);
          case NoOp => r := MiscArm(misc);
        }
        if r.Ok? {
          r := t.Poll();
        }
      }
    }
  }
}

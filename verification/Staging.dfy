/** Storage in flash, which is programmed a block at a time: arriving bytes are staged in a write buffer and each
    block is programmed when its last byte is in. The staged Write handler on values, and exactly when it does to
    the flash what the direct handler does to memory. */
module Staging {
  import opened Arithmetic
  import opened Bytes
  import opened Codec
  import opened Ledgers
  import opened Transport
  import opened Storage

  /** One call to the flash: erase block `index` and program it. */
  datatype Block = Block(index: nat, bytes: seq<byte>)

  /** The flash, the write buffer and the offset; and, as bookkeeping, the calls to the flash for the current Write
      and the flash as it was when that began. */
  datatype Stage = Stage(flash: seq<byte>, wb: seq<byte>, offset: nat, programs: seq<Block>, origin: seq<byte>)

  datatype Turned = Turned(m: Machine, g: Stage, more: Answer<bool>)

  datatype StagedHandled = StagedHandled(m: Machine, g: Stage, r: Answer<()>)

  // ----- the handler -----

  /** The flash call: the whole write buffer goes to the block `start` is in. */
  function Program(g: Stage, start: nat): (n: Stage)
    requires |g.wb| > 0
  {
    g.(flash := Overwrite(g.flash, start - start % |g.wb|, g.wb),
       programs := g.programs + [Block(start / |g.wb|, g.wb)])
  }

  /** `count` more bytes are in the write buffer: the block is programmed if that is its end. */
  function Counted(g: Stage, start: nat, count: nat): (r: (Stage, bool))
    requires |g.wb| > 0
  {
    var n := g.(offset := g.offset + count);
    var full := count > 0 && n.offset % |g.wb| == 0;
    (if full then Program(n, start) else n, full)
  }

  /** One turn of the loop: takes bytes up to the end of the block, and programs it if they fill it. */
  function StageTurn(m: Machine, g: Stage, at: nat): (o: Turned)
    requires |g.wb| > 0
    ensures o.m.state == m.state && |o.g.wb| == |g.wb|
    ensures o.more.Ok? && o.more.value ==> |o.m.buf| < |m.buf|
  {
    var start := at + g.offset;
    var blockOffset := start % |g.wb|;
    var o := ReadData(m, |g.wb| - blockOffset);
    match o.r
    case Err(e) => Turned(o.m, g, Err(e))
    case Ok(bytes) =>
      var c := Counted(g.(wb := Overwrite(g.wb, blockOffset, bytes)), start, |bytes|);
      Turned(o.m, c.0, Ok(c.1))
  }

  /** A turn that works on the write buffer from `blockOffset` on comes to `o`. */
  ghost predicate TurnsTo(m: Machine, g: Stage, start: nat, blockOffset: nat, o: Turned)
    requires blockOffset < |g.wb|
  {
    var got := ReadData(m, |g.wb| - blockOffset);
    match got.r
    case Err(e) => o == Turned(m, g, Err(e)) && got.m == m
    case Ok(bytes) =>
      var c := Counted(g.(wb := Overwrite(g.wb, blockOffset, bytes)), start, |bytes|);
      o == Turned(got.m, c.0, Ok(c.1))
  }

  lemma TurnCases(m: Machine, g: Stage, at: nat, start: nat, blockOffset: nat)
    requires |g.wb| > 0 && start == at + g.offset && blockOffset == start % |g.wb|
    ensures TurnsTo(m, g, start, blockOffset, StageTurn(m, g, at))
  {
  }

  function StageLoop(m: Machine, g: Stage, at: nat): (h: StagedHandled)
    requires |g.wb| > 0
    ensures h.m.state == m.state && |h.g.wb| == |g.wb|
    decreases |m.buf|
  {
    var o := StageTurn(m, g, at);
    match o.more
    case Err(e) => StagedHandled(o.m, o.g, Err(e))
    case Ok(more) => if more then StageLoop(o.m, o.g, at) else StagedHandled(o.m, o.g, Ok(()))
  }

  /** Bookkeeping at the first call for a Write. */
  function Began(g: Stage): (n: Stage) {
    if g.offset == 0 then g.(programs := [], origin := g.flash) else g
  }

  function StagedPass(m: Machine, g: Stage): (h: StagedHandled)
    requires TakesStatus(m.state) && g.offset < U32_LIMIT
  {
    StagedHandled(SetStatus(m, Passed, g.offset), g.(offset := 0), Ok(()))
  }

  function StagedArm(m: Machine, g: Stage, x: Extent): (h: StagedHandled)
    requires TakesStatus(m.state) && |g.wb| > 0 && x.size < U32_LIMIT
  {
    if g.offset != x.size then
      var h := StageLoop(m, Began(g), x.at);
      if h.r.Ok? && h.g.offset == x.size then StagedPass(h.m, h.g) else h
    else
      StagedPass(m, Began(g))
  }

  /** The handler, case by case. */
  lemma ArmCases(m: Machine, g: Stage, x: Extent)
    requires TakesStatus(m.state) && |g.wb| > 0 && x.size < U32_LIMIT
    ensures g.offset == x.size ==> StagedArm(m, g, x) == StagedPass(m, Began(g))
    ensures g.offset != x.size ==>
              var h := StageLoop(m, Began(g), x.at);
              && TakesStatus(h.m.state)
              && StagedArm(m, g, x) == if h.r.Ok? && h.g.offset == x.size then StagedPass(h.m, h.g) else h
  {
  }

  // ----- what is staged and what is programmed -----

  function Flat(blocks: seq<Block>): (s: seq<byte>) {
    if blocks == [] then [] else Flat(blocks[..|blocks| - 1]) + blocks[|blocks| - 1].bytes
  }

  /** Whole blocks, each once, in order from block `lba` on. */
  predicate Consecutive(blocks: seq<Block>, lba: nat, bs: nat) {
    forall i :: 0 <= i < |blocks| ==> blocks[i].index == lba + i && |blocks[i].bytes| == bs
  }

  /** The flash `s` after these calls. */
  function Burn(s: seq<byte>, blocks: seq<Block>, bs: nat): (r: seq<byte>)
    ensures |r| == |s|
  {
    if blocks == [] then s else
    var last := blocks[|blocks| - 1];
    Overwrite(Burn(s, blocks[..|blocks| - 1], bs), bs * last.index, last.bytes)
  }

  /** With `data` taken so far for a Write that starts at block `lba`: the full blocks of `data` are programmed and
      nothing else is, and the bytes of the block begun are staged. */
  predicate Staged(g: Stage, lba: nat, data: seq<byte>) {
    && |g.wb| > 0
    && g.offset == |data|
    && Consecutive(g.programs, lba, |g.wb|)
    && |Flat(g.programs)| <= |data| < |Flat(g.programs)| + |g.wb|
    && Flat(g.programs) + g.wb[..|data| - |Flat(g.programs)|] == data
    && g.flash == Burn(g.origin, g.programs, |g.wb|)
  }

  /** Where the handler's arithmetic points: to the block after the programmed ones, at the first byte not yet
      staged. */
  lemma WhereNext(bs: nat, lba: nat, blocks: nat, offset: nat)
    requires bs * blocks <= offset < bs * blocks + bs
    ensures (bs * lba + offset) % bs == offset - bs * blocks
    ensures (bs * lba + offset) / bs == lba + blocks
    ensures offset % bs == offset - bs * blocks
  {
    assert bs * (lba + blocks) == bs * lba + bs * blocks;
    DivModUnique(bs * lba + offset, lba + blocks, offset - bs * blocks, bs);
    DivModUnique(offset, blocks, offset - bs * blocks, bs);
  }

  /** The loop goes on exactly when a block was filled to its end. */
  lemma GoesOn(bs: nat, lba: nat, blocks: nat, offset: nat, count: nat)
    requires bs * blocks <= offset < bs * blocks + bs
    requires offset + count <= bs * blocks + bs
    ensures count > 0 && (offset + count) % bs == 0 <==> offset + count == bs * blocks + bs
  {
    if offset + count == bs * blocks + bs {
      assert bs * (blocks + 1) == bs * blocks + bs;
      DivModUnique(offset + count, blocks + 1, 0, bs);
    } else {
      DivModUnique(offset + count, blocks, offset + count - bs * blocks, bs);
    }
  }

  lemma {:induction false} FlatLen(blocks: seq<Block>, lba: nat, bs: nat)
    requires Consecutive(blocks, lba, bs)
    ensures |Flat(blocks)| == bs * |blocks|
    decreases |blocks|
  {
    if blocks != [] {
      FlatLen(blocks[..|blocks| - 1], lba, bs);
      assert bs * |blocks| == bs * (|blocks| - 1) + bs;
    }
  }

  /** The same for a Write under way. */
  lemma Position(wb: seq<byte>, programs: seq<Block>, lba: nat, offset: nat, count: nat)
    requires Consecutive(programs, lba, |wb|)
    requires |Flat(programs)| <= offset < |Flat(programs)| + |wb|
    requires offset + count <= |Flat(programs)| + |wb|
    ensures (|wb| * lba + offset) % |wb| == offset - |Flat(programs)|
    ensures (|wb| * lba + offset) / |wb| == lba + |programs|
    ensures count > 0 && (offset + count) % |wb| == 0 <==> offset + count == |Flat(programs)| + |wb|
  {
    FlatLen(programs, lba, |wb|);
    WhereNext(|wb|, lba, |programs|, offset);
    GoesOn(|wb|, lba, |programs|, offset, count);
  }

  /** Some more bytes, not enough to fill the block. */
  lemma StageMore(g: Stage, lba: nat, data: seq<byte>, bytes: seq<byte>)
    requires Staged(g, lba, data)
    requires |data| + |bytes| < |Flat(g.programs)| + |g.wb|
    ensures Staged(g.(wb := Overwrite(g.wb, |data| - |Flat(g.programs)|, bytes), offset := g.offset + |bytes|),
                   lba, data + bytes)
  {
    var r := |data| - |Flat(g.programs)|;
    assert Overwrite(g.wb, r, bytes)[..r + |bytes|] == g.wb[..r] + bytes;
    assert Flat(g.programs) + (g.wb[..r] + bytes) == (Flat(g.programs) + g.wb[..r]) + bytes;
  }

  lemma FlatSnoc(blocks: seq<Block>, b: Block)
    ensures Flat(blocks + [b]) == Flat(blocks) + b.bytes
  {
    assert (blocks + [b])[..|blocks|] == blocks;
  }

  lemma Joined(flat: seq<byte>, wb: seq<byte>, data: seq<byte>, bytes: seq<byte>)
    requires |flat| <= |data| && |data| + |bytes| == |flat| + |wb|
    requires flat + wb[..|data| - |flat|] == data
    ensures Overwrite(wb, |data| - |flat|, bytes) == wb[..|data| - |flat|] + bytes
    ensures flat + Overwrite(wb, |data| - |flat|, bytes) == data + bytes
  {
    var r := |data| - |flat|;
    assert flat + (wb[..r] + bytes) == (flat + wb[..r]) + bytes;
  }

  lemma BurnSnoc(s: seq<byte>, blocks: seq<Block>, b: Block, bs: nat)
    ensures Burn(s, blocks + [b], bs) == Overwrite(Burn(s, blocks, bs), bs * b.index, b.bytes)
  {
    assert (blocks + [b])[..|blocks|] == blocks;
  }

  /** The block is full: it is programmed with exactly its bytes. */
  lemma StageFull(g: Stage, lba: nat, data: seq<byte>, bytes: seq<byte>, filled: seq<byte>, b: Block)
    requires Staged(g, lba, data)
    requires |data| + |bytes| == |Flat(g.programs)| + |g.wb|
    requires filled == Overwrite(g.wb, |data| - |Flat(g.programs)|, bytes)
    requires b == Block(lba + |g.programs|, filled)
    ensures Staged(g.(flash := Overwrite(g.flash, |g.wb| * b.index, filled), wb := filled,
                      offset := g.offset + |bytes|, programs := g.programs + [b]),
                   lba, data + bytes)
  {
    var all := g.programs + [b];
    Joined(Flat(g.programs), g.wb, data, bytes);
    FlatSnoc(g.programs, b);
    BurnSnoc(g.origin, g.programs, b, |g.wb|);
    assert filled[..0] == [] && Flat(all) + [] == Flat(all);
  }

  /** Where a turn of the loop works. */
  lemma TurnPosition(g: Stage, lba: nat, data: seq<byte>, bytes: seq<byte>)
    requires Staged(g, lba, data) && |data| + |bytes| <= |Flat(g.programs)| + |g.wb|
    ensures var bs, start, flat := |g.wb|, |g.wb| * lba + g.offset, |Flat(g.programs)|;
            && start % bs == |data| - flat
            && start / bs == lba + |g.programs|
            && start - start % bs == bs * (lba + |g.programs|)
            && (|bytes| > 0 && (g.offset + |bytes|) % bs == 0 <==> |data| + |bytes| == flat + bs)
  {
    Position(g.wb, g.programs, lba, g.offset, |bytes|);
    FlatLen(g.programs, lba, |g.wb|);
    assert |g.wb| * (lba + |g.programs|) == |g.wb| * lba + |g.wb| * |g.programs|;
  }

  lemma NotedTwice(l: Ledger, a: seq<byte>, b: seq<byte>)
    ensures NoteDelivered(NoteDelivered(l, a), b) == NoteDelivered(l, a + b)
    ensures NoteDelivered(l, []) == l
  {
    if l.cur.Some? {
      var x := l.cur.value.delivered;
      assert (x + a) + b == x + (a + b);
      assert x + [] == x;
    }
  }

  /** The transport after all its buffered bytes were read. */
  function Drained(m: Machine): (r: Machine) {
    m.(buf := [], ledger := NoteDelivered(m.ledger, m.buf))
  }

  predicate Readable(s: State) {
    s == DataTransferFromHost || s == DataTransferFromHostStatusAwait
  }

  /** A read with room for everything. */
  lemma ReadAll(m: Machine, room: nat)
    requires |m.buf| <= room
    ensures Readable(m.state) ==> ReadData(m, room) == Outcome(Drained(m), Ok(m.buf))
    ensures !Readable(m.state) ==> ReadData(m, room) == Outcome(m, Err(Error(InvalidState)))
  {
    assert m.buf[..|m.buf|] == m.buf;
  }

  // ----- the loop takes everything -----

  /** What a turn takes: up to the end of the block. */
  function TurnTakes(m: Machine, g: Stage, data: seq<byte>): (bytes: seq<byte>) {
    m.buf[..Min(SatSub(|Flat(g.programs)| + |g.wb|, |data|), |m.buf|)]
  }

  lemma TurnIs(m: Machine, g: Stage, at: nat, blockOffset: nat, index: nat, bytes: seq<byte>, filled: seq<byte>)
    requires |g.wb| > 0 && Readable(m.state)
    requires (at + g.offset) % |g.wb| == blockOffset && (at + g.offset) / |g.wb| == index
    requires at + g.offset - blockOffset == |g.wb| * index
    requires bytes == m.buf[..Min(|g.wb| - blockOffset, |m.buf|)] && filled == Overwrite(g.wb, blockOffset, bytes)
    ensures var full := |bytes| > 0 && (g.offset + |bytes|) % |g.wb| == 0;
            var n := g.(wb := filled, offset := g.offset + |bytes|);
            StageTurn(m, g, at) ==
            Turned(m.(buf := m.buf[|bytes|..], ledger := NoteDelivered(m.ledger, bytes)),
                   if full then n.(flash := Overwrite(g.flash, |g.wb| * index, filled),
                                   programs := g.programs + [Block(index, filled)])
                   else n,
                   Ok(full))
  {
  }

  lemma TurnStaged(m: Machine, g: Stage, lba: nat, data: seq<byte>)
    requires Staged(g, lba, data) && Readable(m.state)
    ensures var o, bytes := StageTurn(m, g, |g.wb| * lba), TurnTakes(m, g, data);
            && o.m == m.(buf := m.buf[|bytes|..], ledger := NoteDelivered(m.ledger, bytes))
            && Staged(o.g, lba, data + bytes) && o.g.origin == g.origin
            && o.more == Ok(|data| + |bytes| == |Flat(g.programs)| + |g.wb|)
  {
    var bytes := TurnTakes(m, g, data);
    var filled := Overwrite(g.wb, |data| - |Flat(g.programs)|, bytes);
    TurnPosition(g, lba, data, bytes);
    TurnIs(m, g, |g.wb| * lba, |data| - |Flat(g.programs)|, lba + |g.programs|, bytes, filled);
    if |data| + |bytes| == |Flat(g.programs)| + |g.wb| {
      StageFull(g, lba, data, bytes, filled, Block(lba + |g.programs|, filled));
    } else {
      StageMore(g, lba, data, bytes);
    }
  }

  lemma DrainedAfter(m: Machine, n: nat)
    requires n <= |m.buf|
    ensures Drained(m.(buf := m.buf[n..], ledger := NoteDelivered(m.ledger, m.buf[..n]))) == Drained(m)
  {
    NotedTwice(m.ledger, m.buf[..n], m.buf[n..]);
    assert m.buf[..n] + m.buf[n..] == m.buf;
  }

  lemma Regroup(data: seq<byte>, buf: seq<byte>, n: nat)
    requires n <= |buf|
    ensures (data + buf[..n]) + buf[n..] == data + buf
    ensures n == |buf| ==> buf[..n] == buf && buf[n..] == []
  {
  }

  /** However many bytes are buffered and however many blocks they fill, the loop takes them all; and it fails only
      where no bytes can be read. */
  lemma {:induction false} LoopStaged(m: Machine, g: Stage, lba: nat, data: seq<byte>, at: nat, h: StagedHandled)
    requires Staged(g, lba, data) && at == |g.wb| * lba && h == StageLoop(m, g, at)
    ensures if Readable(m.state) then
              && h.m == Drained(m) && h.r == Ok(())
              && Staged(h.g, lba, data + m.buf) && h.g.origin == g.origin
            else
              h == StagedHandled(m, g, Err(Error(InvalidState)))
    decreases |m.buf|
  {
    if Readable(m.state) {
      TurnStaged(m, g, lba, data);
      var o, n := StageTurn(m, g, at), |TurnTakes(m, g, data)|;
      Regroup(data, m.buf, n);
      if o.more.value {
        DrainedAfter(m, n);
        LoopStaged(o.m, o.g, lba, data + m.buf[..n], at, h);
      }
    }
  }

  // ----- against the direct handler -----

  /** A staged device and a direct one in the same place of a Write that starts at block `lba`. */
  predicate Linked(k: Disk, g: Stage, lba: nat, data: seq<byte>) {
    && |g.wb| > 0 && |k.storage| == |g.flash| && k.offset == g.offset
    && if g.offset == 0 then data == [] && k.storage == g.flash
       else |g.origin| == |g.flash| && Staged(g, lba, data) && k.storage == Overwrite(g.origin, |g.wb| * lba, data)
  }

  lemma BeganStaged(k: Disk, g: Stage, lba: nat, data: seq<byte>)
    requires Linked(k, g, lba, data)
    ensures Staged(Began(g), lba, data) && |Began(g).origin| == |g.flash|
    ensures k.storage == Overwrite(Began(g).origin, |g.wb| * lba, data)
  {
    if g.offset == 0 { OverwriteNothing(g.flash, |g.wb| * lba); }
  }

  lemma Distributes(bs: nat, lba: nat, n: nat)
    ensures bs * (lba + n) == bs * lba + bs * n
  {
  }

  /** Where the block after these starts. */
  lemma NextBlock(blocks: seq<Block>, lba: nat, bs: nat)
    requires Consecutive(blocks, lba, bs)
    ensures bs * (lba + |blocks|) == bs * lba + |Flat(blocks)|
  {
    FlatLen(blocks, lba, bs);
    Distributes(bs, lba, |blocks|);
  }

  lemma BurnNext(s: seq<byte>, blocks: seq<Block>, b: Block, lba: nat, bs: nat, at: nat)
    requires Consecutive(blocks, lba, bs) && b.index == lba + |blocks| && at == bs * lba
    requires at + |Flat(blocks)| + |b.bytes| <= |s|
    ensures Overwrite(Overwrite(s, at, Flat(blocks)), bs * b.index, b.bytes) == Overwrite(s, at, Flat(blocks) + b.bytes)
  {
    NextBlock(blocks, lba, bs);
    OverwriteTwice(s, at, Flat(blocks), b.bytes);
  }

  lemma {:induction false} BurnIsOverwrite(s: seq<byte>, blocks: seq<Block>, lba: nat, bs: nat, at: nat)
    requires Consecutive(blocks, lba, bs) && at == bs * lba && at + |Flat(blocks)| <= |s|
    ensures Burn(s, blocks, bs) == Overwrite(s, at, Flat(blocks))
    decreases |blocks|
  {
    if blocks == [] {
      OverwriteNothing(s, at);
    } else {
      BurnIsOverwrite(s, blocks[..|blocks| - 1], lba, bs, at);
      BurnNext(s, blocks[..|blocks| - 1], blocks[|blocks| - 1], lba, bs, at);
    }
  }

  /** Each of the `len` blocks from `lba` on was programmed once, in order, with its part of `data`. */
  predicate Programmed(g: Stage, lba: nat, len: nat, data: seq<byte>) {
    |g.programs| == len && Consecutive(g.programs, lba, |g.wb|) && Flat(g.programs) == data
  }

  /** A Write of whole blocks that has all its bytes has programmed all its blocks. */
  lemma AllProgrammed(g: Stage, lba: nat, len: nat, data: seq<byte>)
    requires Staged(g, lba, data) && |data| == |g.wb| * len
    requires data == [] || |g.wb| * lba + |data| <= |g.origin|
    ensures Programmed(g, lba, len, data)
    ensures g.flash == Overwrite(g.origin, |g.wb| * lba, data)
  {
    FlatLen(g.programs, lba, |g.wb|);
    if |g.programs| < len { MulStep(|g.wb|, |g.programs|, len); }
    if len < |g.programs| { MulStep(|g.wb|, len, |g.programs|); }
    assert g.wb[..0] == [] && Flat(g.programs) + [] == Flat(g.programs);
    if data == [] {
      OverwriteNothing(g.origin, |g.wb| * lba);
    } else {
      BurnIsOverwrite(g.origin, g.programs, lba, |g.wb|, |g.wb| * lba);
    }
  }

  lemma TakenOver(k: Disk, x: Extent, origin: seq<byte>, data: seq<byte>, bytes: seq<byte>)
    requires k.storage == Overwrite(origin, x.at, data) && k.offset == |data|
    requires x.at + |data| + |bytes| <= |origin|
    ensures Taken(k, x, bytes).storage == Overwrite(origin, x.at, data + bytes)
  {
    OverwriteTwice(origin, x.at, data, bytes);
  }

  /** The staged handler came to the same machine and answer as the direct one, and is linked to it, with `data`
      taken for the command by then; and if the command passed, its blocks were programmed. */
  predicate KeepsStep(h: Handled, s: StagedHandled, lba: nat, len: nat, data: seq<byte>) {
    && s.m == h.d.m && s.r == h.r
    && Linked(h.d.disk, s.g, lba, if s.g.offset == 0 then [] else data)
    && (s.m.cs.Some? ==> Programmed(s.g, lba, len, data))
  }

  /** Both devices at the same Write, which is inside the storage. */
  predicate Paired(m: Machine, k: Disk, g: Stage, x: Extent, lba: nat, len: nat, data: seq<byte>) {
    && TakesStatus(m.state) && m.cs.None?
    && Linked(k, g, lba, data) && x == Span(|g.wb|, lba, len)
    && Within(k, x) && Inside(k.storage, x)
  }

  /** All bytes had been taken before. */
  lemma PassesInStep(m: Machine, k: Disk, g: Stage, x: Extent, lba: nat, len: nat, data: seq<byte>)
    requires Paired(m, k, g, x, lba, len, data) && g.offset == x.size
    ensures KeepsStep(WriteArm(Device(m, k), x), StagedArm(m, g, x), lba, len, data)
  {
    BeganStaged(k, g, lba, data);
    AllProgrammed(Began(g), lba, len, data);
  }

  lemma LinkedAgain(k: Disk, g: Stage, lba: nat, data: seq<byte>)
    requires Staged(g, lba, data) && k.offset == g.offset && |g.origin| == |k.storage|
    requires k.storage == Overwrite(g.origin, |g.wb| * lba, data)
    ensures |k.storage| == |g.flash|
    ensures Linked(k, g, lba, if g.offset == 0 then [] else data)
  {
    if g.offset == 0 { OverwriteNothing(g.origin, |g.wb| * lba); }
  }

  /** The transport refuses. */
  lemma RefusedInStep(m: Machine, k: Disk, g: Stage, x: Extent, lba: nat, len: nat, data: seq<byte>)
    requires Paired(m, k, g, x, lba, len, data) && g.offset != x.size && !Readable(m.state)
    ensures KeepsStep(WriteArm(Device(m, k), x), StagedArm(m, g, x), lba, len, data)
  {
    BeganStaged(k, g, lba, data);
    LoopStaged(m, Began(g), lba, data, x.at, StageLoop(m, Began(g), x.at));
    LinkedAgain(k, Began(g), lba, data);
  }

  /** What the two handlers come to when the transport has bytes that all belong to the Write. */
  lemma BothTakeAll(m: Machine, k: Disk, g: Stage, x: Extent, lba: nat, len: nat, data: seq<byte>)
    requires Paired(m, k, g, x, lba, len, data) && g.offset != x.size && Readable(m.state)
    requires |data| + |m.buf| <= x.size
    ensures var l, n := StageLoop(m, Began(g), x.at), Taken(k, x, m.buf);
            && l.m == Drained(m) && l.r == Ok(()) && Staged(l.g, lba, data + m.buf) && |l.g.origin| == |n.storage|
            && n.offset == l.g.offset && n.storage == Overwrite(l.g.origin, |g.wb| * lba, data + m.buf)
            && WriteArm(Device(m, k), x) ==
               if n.offset == x.size then Pass(Device(Drained(m), n)) else Handled(Device(Drained(m), n), Ok(()))
  {
    BeganStaged(k, g, lba, data);
    LoopStaged(m, Began(g), lba, data, x.at, StageLoop(m, Began(g), x.at));
    ReadAll(m, x.size - k.offset);
    TakenOver(k, x, Began(g).origin, data, m.buf);
  }

  lemma TakesInStep(m: Machine, k: Disk, g: Stage, x: Extent, lba: nat, len: nat, data: seq<byte>)
    requires Paired(m, k, g, x, lba, len, data) && g.offset != x.size && Readable(m.state)
    requires |data| + |m.buf| <= x.size
    ensures KeepsStep(WriteArm(Device(m, k), x), StagedArm(m, g, x), lba, len, data + m.buf)
  {
    BothTakeAll(m, k, g, x, lba, len, data);
    var l, n := StageLoop(m, Began(g), x.at), Taken(k, x, m.buf);
    if l.g.offset == x.size {
      AllProgrammed(l.g, lba, len, data + m.buf);
    } else {
      LinkedAgain(n, l.g, lba, data + m.buf);
    }
  }

  /** The transport has more bytes than the Write: the direct handler passes it, the staged one runs past its end and
      gives no verdict. */
  lemma RunsPastTheEnd(m: Machine, k: Disk, g: Stage, x: Extent, lba: nat, len: nat, data: seq<byte>)
    requires Paired(m, k, g, x, lba, len, data) && g.offset != x.size && Readable(m.state)
    requires |data| + |m.buf| > x.size
    ensures WriteArm(Device(m, k), x).d.m.cs.Some?
    ensures var s := StagedArm(m, g, x);
            && s.m == Drained(m) && s.m.cs.None? && s.r == Ok(())
            && Staged(s.g, lba, data + m.buf) && s.g.offset > x.size
  {
    DirectPasses(Device(m, k), x);
    BeganStaged(k, g, lba, data);
    ArmCases(m, g, x);
    LoopStaged(m, Began(g), lba, data, x.at, StageLoop(m, Began(g), x.at));
  }

  lemma DirectPasses(d: Device, x: Extent)
    requires TakesStatus(d.m.state) && Readable(d.m.state) && Within(d.disk, x) && d.disk.offset != x.size
    requires d.disk.offset + |d.m.buf| > x.size
    ensures WriteArm(d, x).d.m.cs.Some?
  {
  }

  /** The bytes the transport has for the Write do not run past its end. */
  predicate InTime(m: Machine, g: Stage, x: Extent, data: seq<byte>) {
    g.offset == x.size || !Readable(m.state) || |data| + |m.buf| <= x.size
  }

  /** The data taken for the command after a call. */
  function TakenBy(m: Machine, g: Stage, x: Extent, data: seq<byte>): (s: seq<byte>) {
    if g.offset == x.size || !Readable(m.state) then data else data + m.buf
  }

  /** The staged handler keeps step with the direct one if and only if the buffered bytes are all the Write's. */
  lemma KeepsStepExactly(m: Machine, k: Disk, g: Stage, x: Extent, lba: nat, len: nat, data: seq<byte>)
    requires Paired(m, k, g, x, lba, len, data)
    ensures KeepsStep(WriteArm(Device(m, k), x), StagedArm(m, g, x), lba, len, TakenBy(m, g, x, data)) <==>
            InTime(m, g, x, data)
  {
    if g.offset == x.size {
      PassesInStep(m, k, g, x, lba, len, data);
    } else if !Readable(m.state) {
      RefusedInStep(m, k, g, x, lba, len, data);
    } else if |data| + |m.buf| <= x.size {
      TakesInStep(m, k, g, x, lba, len, data);
    } else {
      RunsPastTheEnd(m, k, g, x, lba, len, data);
    }
  }

  lemma {:induction false} FlatAt(blocks: seq<Block>, lba: nat, bs: nat, i: nat, data: seq<byte>)
    requires Consecutive(blocks, lba, bs) && i < |blocks| && Flat(blocks) <= data
    ensures bs * i + bs <= |data| && data[bs * i..bs * i + bs] == blocks[i].bytes
    decreases |blocks|
  {
    var before, last := blocks[..|blocks| - 1], blocks[|blocks| - 1];
    FlatLen(before, lba, bs);
    if i < |before| {
      assert Flat(before) <= data;
      FlatAt(before, lba, bs, i, data);
    } else {
      SliceAt(Flat(before), last.bytes, data);
    }
  }

  lemma SliceAt(a: seq<byte>, b: seq<byte>, data: seq<byte>)
    requires a + b <= data
    ensures data[|a|..|a| + |b|] == b
  {
    assert data[..|a| + |b|] == a + b;
  }

  /** Past the end there is no way back: the next block after the Write's is programmed as soon as its bytes are in,
      and with the bytes that came for the Write. */
  lemma NeighbourExactly(g: Stage, lba: nat, len: nat, data: seq<byte>)
    requires Staged(g, lba, data)
    ensures |g.programs| > len <==> |data| >= |g.wb| * len + |g.wb|
    ensures |g.programs| > len ==>
              && g.programs[len].index == lba + len
              && |data| >= |g.wb| * len + |g.wb|
              && g.programs[len].bytes == data[|g.wb| * len..|g.wb| * len + |g.wb|]
  {
    if |g.programs| > len { FlatAt(g.programs, lba, |g.wb|, len, data); }
    FlatLen(g.programs, lba, |g.wb|);
    if |g.programs| > len { MulStep(|g.wb|, len, |g.programs|); }
    if |g.programs| < len { MulStep(|g.wb|, |g.programs|, len); }
  }
}

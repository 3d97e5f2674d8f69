/** Which packets start a command. The specification has a wrapper start on a packet boundary and end with a short
    packet (section 5.1 of the Bulk-Only Transport specification), takes it only if it is 31 bytes long (section
    6.2.1), and has the device stall otherwise (section 6.6.1). The device takes the first 31 bytes of whatever it
    got, in whatever packets. */
module Acceptance {
  import opened Bytes
  import opened Codec
  import opened Ledgers
  import opened Transport
  import opened Invariant
  import opened Runs
  import opened Conservation
  import opened Dispatch

  // ----- packets, one after the other -----

  function Joined(packets: seq<seq<byte>>): (s: seq<byte>) {
    if packets == [] then [] else Joined(packets[..|packets| - 1]) + packets[|packets| - 1]
  }

  /** The machine with `packet` on its OUT endpoint, after a poll. */
  function Fed(m: Machine, packet: seq<byte>): (r: Machine)
    requires Good(m)
  {
    BusGood(m, [Packet(packet)], []);
    Poll(m.(outs := [Packet(packet)], ins := [])).m
  }

  lemma FedGood(m: Machine, packet: seq<byte>)
    requires Good(m)
    ensures Good(Fed(m, packet)) && SameDevice(Fed(m, packet), m)
  {
    BusGood(m, [Packet(packet)], []);
    PollGood(m.(outs := [Packet(packet)], ins := []));
  }

  function Feed(m: Machine, packets: seq<seq<byte>>): (r: Machine)
    requires Good(m)
    ensures Good(r) && SameDevice(r, m)
    decreases |packets|
  {
    if packets == [] then m else
    var before := Feed(m, packets[..|packets| - 1]);
    FedGood(before, packets[|packets| - 1]);
    Fed(before, packets[|packets| - 1])
  }

  /** The packets before the last. */
  function Leading(packets: seq<seq<byte>>): (r: seq<seq<byte>>)
    requires packets != []
  {
    packets[..|packets| - 1]
  }

  predicate Sizable(packets: seq<seq<byte>>, ps: nat) {
    forall i :: 0 <= i < |packets| ==> |packets[i]| <= ps
  }

  /** The device is between commands, and these are the packets it takes from there on, up to the one that brings
      it to 31 bytes if there is one. */
  predicate Delivery(m: Machine, packets: seq<seq<byte>>) {
    && Good(m) && m.state == CommandTransfer && m.buf == []
    && packets != [] && Sizable(packets, m.ps)
    && |Joined(Leading(packets))| < CBW_LEN
    && m.cap - |Joined(Leading(packets))| >= m.ps
  }

  /** A device that has some bytes of its next wrapper. */
  predicate Collecting(m: Machine, n: Machine, bytes: seq<byte>) {
    && Good(n) && n.state == CommandTransfer && n.buf == bytes && n.ledger == m.ledger.(raw := bytes) && n.cs.None?
    && SameDevice(n, m)
  }

  lemma FedCollects(m: Machine, n: Machine, bytes: seq<byte>, packet: seq<byte>)
    requires Good(m) && m.state == CommandTransfer && Collecting(m, n, bytes)
    requires |packet| <= m.ps <= m.cap - |bytes| && |bytes + packet| < CBW_LEN
    ensures Collecting(m, Fed(n, packet), bytes + packet)
  {
    FedGood(n, packet);
  }

  lemma JoinedInit(packets: seq<seq<byte>>)
    requires packets != []
    ensures |Joined(Leading(packets))| <= |Joined(packets)|
    ensures Joined(packets) == Joined(Leading(packets)) + packets[|packets| - 1]
  {
  }

  lemma {:induction false} FeedCollects(m: Machine, packets: seq<seq<byte>>)
    requires Good(m) && m.state == CommandTransfer && m.buf == [] && Sizable(packets, m.ps)
    requires |Joined(packets)| < CBW_LEN && m.cap - |Joined(packets)| >= m.ps
    ensures Collecting(m, Feed(m, packets), Joined(packets))
    decreases |packets|
  {
    if packets == [] {
      assert m.ledger == m.ledger.(raw := []);
    } else {
      var before := Leading(packets);
      JoinedInit(packets);
      FeedCollects(m, before);
      FedCollects(m, Feed(m, before), Joined(before), packets[|packets| - 1]);
    }
  }

  // ----- what the device does -----

  datatype Reaction = WaitsOn | StartsCommand | StallsBoth

  /** How a device that was at `m` shows its reaction to what it has been sent. */
  predicate Reacted(m: Machine, n: Machine, r: Reaction) {
    match r
    case WaitsOn =>
      n.state == CommandTransfer && !n.inStalled && !n.outStalled && |Commands(n.ledger)| == |Commands(m.ledger)|
    case StartsCommand =>
      |Commands(n.ledger)| == |Commands(m.ledger)| + 1
    case StallsBoth =>
      n.state == CommandTransferInvalid && n.inStalled && n.outStalled
      && |Commands(n.ledger)| == |Commands(m.ledger)|
  }

  /** Where a wrapper leads. */
  function FirstState(d: Direction): (s: State) {
    match d
    case In => DataTransferToHost
    case Out => DataTransferFromHost
    case NotExpected => DataTransferStatusAwait
  }

  /** The command `c` has just begun, from the OUT bytes `raw`. */
  predicate JustBegun(m: Machine, n: Machine, c: Cbw, raw: seq<byte>) {
    && n.state == FirstState(c.dir) && n.cbw == c && n.cs.None? && n.left == c.len && n.buf == []
    && n.outs == [] && n.ledger.done == Commands(m.ledger)
    && n.ledger.cur == Some(Cmd(raw, c, [], [], [], [], [], None))
  }

  lemma BeginsQuietly(m: Machine, c: Cbw)
    requires m.outs == [] && 0 < m.ps <= m.cap && m.cs.None?
    ensures JustBegun(m, Begin(m, c).m, c, m.ledger.raw)
  {
  }

  /** The first 31 bytes of these packets are a wrapper. */
  predicate Carries(packets: seq<seq<byte>>, c: Cbw) {
    |Joined(packets)| >= CBW_LEN && ParseCbw(Joined(packets)[..CBW_LEN]) == Some(c)
  }

  /** The last packet of a wrapper, on a device that has the bytes before it. */
  lemma LastPacket(m: Machine, n: Machine, bytes: seq<byte>, packet: seq<byte>)
    requires Good(m) && m.state == CommandTransfer && Collecting(m, n, bytes)
    requires |packet| <= m.ps <= m.cap - |bytes| && |bytes + packet| >= CBW_LEN
    ensures var parsed := ParseCbw((bytes + packet)[..CBW_LEN]);
            if parsed.Some? then JustBegun(m, Fed(n, packet), parsed.value, bytes + packet)
            else Reacted(m, Fed(n, packet), StallsBoth)
  {
    var got := ReadPacket(n.(outs := [Packet(packet)], ins := [])).m;
    assert got.buf == bytes + packet && got.outs == [] && got.ledger == m.ledger.(raw := bytes + packet);
    var parsed := ParseCbw((bytes + packet)[..CBW_LEN]);
    if parsed.Some? { BeginsQuietly(got, parsed.value); }
  }

  lemma Splits(m: Machine, packets: seq<seq<byte>>)
    requires Delivery(m, packets)
    ensures Collecting(m, Feed(m, Leading(packets)), Joined(Leading(packets)))
    ensures Joined(packets) == Joined(Leading(packets)) + packets[|packets| - 1]
    ensures Feed(m, packets) == Fed(Feed(m, Leading(packets)), packets[|packets| - 1])
  {
    FeedCollects(m, Leading(packets));
  }

  /** Packets that begin with a wrapper start its command; the surplus is dropped, not read as data. */
  lemma SurplusIsDropped(m: Machine, packets: seq<seq<byte>>, c: Cbw)
    requires Delivery(m, packets) && Carries(packets, c)
    ensures JustBegun(m, Feed(m, packets), c, Joined(packets))
  {
    Splits(m, packets);
    LastPacket(m, Feed(m, Leading(packets)), Joined(Leading(packets)), packets[|packets| - 1]);
  }

  /** What the device does, in all cases. */
  function DeviceReaction(packets: seq<seq<byte>>): (r: Reaction) {
    if |Joined(packets)| < CBW_LEN then WaitsOn
    else if ParseCbw(Joined(packets)[..CBW_LEN]).Some? then StartsCommand
    else StallsBoth
  }

  lemma ReactsSo(m: Machine, packets: seq<seq<byte>>)
    requires Delivery(m, packets)
    ensures Reacted(m, Feed(m, packets), DeviceReaction(packets))
  {
    Splits(m, packets);
    var n, bytes, last := Feed(m, Leading(packets)), Joined(Leading(packets)), packets[|packets| - 1];
    if |Joined(packets)| < CBW_LEN {
      FedCollects(m, n, bytes, last);
    } else {
      LastPacket(m, n, bytes, last);
    }
  }

  lemma OneReaction(m: Machine, n: Machine, r: Reaction, q: Reaction)
    requires Reacted(m, n, r) && Reacted(m, n, q)
    ensures r == q
  {
  }

  // ----- what the specification says -----

  /** A wrapper as the specification has it: 31 bytes with the signature (section 6.2.1) and a command block of 1
      to 16 bytes (section 6.2.2). */
  predicate SpecValid(bytes: seq<byte>) {
    |bytes| == CBW_LEN && ParseCbw(bytes).Some?
  }

  predicate AllFull(packets: seq<seq<byte>>, ps: nat) {
    forall i :: 0 <= i < |packets| ==> |packets[i]| == ps
  }

  /** What the packets since the last command call for. A short packet ends a transfer, so an earlier one has already
      made the device stall; a full packet short of 31 bytes leaves it waiting for more of the same wrapper. */
  function SpecReaction(packets: seq<seq<byte>>, ps: nat): (r: Reaction)
    requires packets != []
  {
    if !AllFull(Leading(packets), ps) then StallsBoth
    else if SpecValid(Joined(packets)) then StartsCommand
    else if |Joined(packets)| < CBW_LEN && |packets[|packets| - 1]| == ps then WaitsOn
    else StallsBoth
  }

  lemma AllFullSnoc(packets: seq<seq<byte>>, ps: nat)
    requires packets != []
    ensures AllFull(packets, ps) <==> AllFull(Leading(packets), ps) && |packets[|packets| - 1]| == ps
  {
    var before := Leading(packets);
    if AllFull(before, ps) && |packets[|packets| - 1]| == ps {
      forall i | 0 <= i < |packets| ensures |packets[i]| == ps {
        assert i < |before| ==> packets[i] == before[i];
      }
    }
  }

  /** After any packets, the device does as the specification says if and only if: short of 31 bytes, all of them
      were full; with 31 or more, either they were 31 bytes in packets of which all but the last were full, or the
      first 31 bytes are no wrapper. */
  lemma AcceptsExactly(m: Machine, packets: seq<seq<byte>>)
    requires Delivery(m, packets)
    ensures Reacted(m, Feed(m, packets), SpecReaction(packets, m.ps)) <==>
            var bytes := Joined(packets);
            if |bytes| < CBW_LEN then AllFull(packets, m.ps)
            else (AllFull(Leading(packets), m.ps) && |bytes| == CBW_LEN) || ParseCbw(bytes[..CBW_LEN]).None?
  {
    ReactsSo(m, packets);
    AllFullSnoc(packets, m.ps);
    var bytes, spec := Joined(packets), SpecReaction(packets, m.ps);
    if |bytes| == CBW_LEN { assert bytes[..CBW_LEN] == bytes; }
    if Reacted(m, Feed(m, packets), spec) { OneReaction(m, Feed(m, packets), spec, DeviceReaction(packets)); }
  }

  // ----- for all packets of given sizes -----

  function Sum(sizes: seq<nat>): (n: nat) {
    if sizes == [] then 0 else Sum(sizes[..|sizes| - 1]) + sizes[|sizes| - 1]
  }

  predicate Sized(packets: seq<seq<byte>>, sizes: seq<nat>) {
    |packets| == |sizes| && forall i :: 0 <= i < |sizes| ==> |packets[i]| == sizes[i]
  }

  lemma {:induction false} JoinedSize(packets: seq<seq<byte>>, sizes: seq<nat>)
    requires Sized(packets, sizes)
    ensures |Joined(packets)| == Sum(sizes)
    decreases |sizes|
  {
    if sizes != [] { JoinedSize(packets[..|sizes| - 1], sizes[..|sizes| - 1]); }
  }

  /** `data` in packets of these sizes. */
  function Cut(data: seq<byte>, sizes: seq<nat>): (packets: seq<seq<byte>>)
    requires |data| == Sum(sizes)
    ensures Sized(packets, sizes)
    decreases |sizes|
  {
    if sizes == [] then [] else
    var n := Sum(sizes[..|sizes| - 1]);
    Cut(data[..n], sizes[..|sizes| - 1]) + [data[n..]]
  }

  lemma {:induction false} CutJoins(data: seq<byte>, sizes: seq<nat>)
    requires |data| == Sum(sizes)
    ensures Joined(Cut(data, sizes)) == data
    decreases |sizes|
  {
    if sizes != [] {
      var n, packets := Sum(sizes[..|sizes| - 1]), Cut(data, sizes);
      CutJoins(data[..n], sizes[..|sizes| - 1]);
      assert packets[..|packets| - 1] == Cut(data[..n], sizes[..|sizes| - 1]);
      assert data[..n] + data[n..] == data;
    }
  }

  /** The device takes packets of these sizes between commands. */
  predicate DeliverySizes(m: Machine, sizes: seq<nat>) {
    && Good(m) && m.state == CommandTransfer && m.buf == []
    && sizes != [] && (forall i :: 0 <= i < |sizes| ==> sizes[i] <= m.ps)
    && Sum(sizes[..|sizes| - 1]) < CBW_LEN
    && m.cap - Sum(sizes[..|sizes| - 1]) >= m.ps
  }

  lemma SizedDelivery(m: Machine, packets: seq<seq<byte>>, sizes: seq<nat>)
    requires DeliverySizes(m, sizes) && Sized(packets, sizes)
    ensures Delivery(m, packets) && |Joined(packets)| == Sum(sizes)
  {
    JoinedSize(packets, sizes);
    JoinedSize(Leading(packets), sizes[..|sizes| - 1]);
  }

  /** On all packets of these sizes the device does as the specification says. */
  ghost predicate Conforms(m: Machine, sizes: seq<nat>)
    requires Good(m) && sizes != []
  {
    forall packets: seq<seq<byte>> :: Sized(packets, sizes) ==>
      Reacted(m, Feed(m, packets), SpecReaction(packets, m.ps))
  }

  /** All but the last are full; they make up 31 bytes, or less and the last is full too. */
  predicate ProperSizes(sizes: seq<nat>, ps: nat)
    requires sizes != []
  {
    && (forall i :: 0 <= i < |sizes| - 1 ==> sizes[i] == ps)
    && (Sum(sizes) == CBW_LEN || (Sum(sizes) < CBW_LEN && sizes[|sizes| - 1] == ps))
  }

  const TEST_UNIT_READY: Cbw := Cbw(0, 0, NotExpected, 0, 6, DEFAULT_CBW.block)

  /** Bytes of which the device takes the first 31 for a wrapper, if there are that many. */
  function Tempting(n: nat): (data: seq<byte>)
    ensures |data| == n
  {
    if n < CBW_LEN then Fill(n) else EncodeCbw(TEST_UNIT_READY) + Fill(n - CBW_LEN)
  }

  lemma TemptingTempts(n: nat)
    requires n >= CBW_LEN
    ensures ParseCbw(Tempting(n)[..CBW_LEN]).Some?
  {
    CbwRoundTrip(TEST_UNIT_READY);
    assert Tempting(n)[..CBW_LEN] == EncodeCbw(TEST_UNIT_READY);
  }

  lemma SizesFull(packets: seq<seq<byte>>, sizes: seq<nat>, ps: nat)
    requires Sized(packets, sizes) && sizes != []
    ensures AllFull(Leading(packets), ps) <==> forall i :: 0 <= i < |sizes| - 1 ==> sizes[i] == ps
    ensures AllFull(packets, ps) <==> AllFull(Leading(packets), ps) && sizes[|sizes| - 1] == ps
  {
    AllFullSnoc(packets, ps);
    var before := Leading(packets);
    if AllFull(before, ps) {
      forall i | 0 <= i < |sizes| - 1 ensures sizes[i] == ps { assert before[i] == packets[i]; }
    }
  }

  /** It does so for all packets of these sizes if and only if all but the last are full, and they make up 31 bytes
      or are all full and make up less. */
  lemma ConformsExactly(m: Machine, sizes: seq<nat>)
    requires DeliverySizes(m, sizes)
    ensures Conforms(m, sizes) <==> ProperSizes(sizes, m.ps)
  {
    if ProperSizes(sizes, m.ps) {
      forall packets: seq<seq<byte>> | Sized(packets, sizes)
        ensures Reacted(m, Feed(m, packets), SpecReaction(packets, m.ps))
      {
        SizedDelivery(m, packets, sizes);
        SizesFull(packets, sizes, m.ps);
        AcceptsExactly(m, packets);
      }
    } else {
      var data := Tempting(Sum(sizes));
      var packets := Cut(data, sizes);
      CutJoins(data, sizes);
      if Sum(sizes) >= CBW_LEN { TemptingTempts(Sum(sizes)); }
      SizedDelivery(m, packets, sizes);
      SizesFull(packets, sizes, m.ps);
      AcceptsExactly(m, packets);
    }
  }

  /** For one packet: if and only if it has 31 bytes, or is full and shorter than that. */
  lemma OnePacketConforms(m: Machine, n: nat)
    requires Good(m) && m.state == CommandTransfer && m.buf == [] && n <= m.ps
    ensures Conforms(m, [n]) <==> n == CBW_LEN || n == m.ps < CBW_LEN
  {
    assert [n][..0] == [] && Sum([n]) == n;
    ConformsExactly(m, [n]);
  }

  // ----- in runs -----

  lemma {:induction false} FeedReachable(m: Machine, packets: seq<seq<byte>>)
    requires Reachable(m) && Good(m)
    ensures Reachable(Feed(m, packets))
    decreases |packets|
  {
    if packets != [] {
      FeedReachable(m, Leading(packets));
      FedReachable(Feed(m, Leading(packets)), packets[|packets| - 1]);
    }
  }

  lemma FedReachable(m: Machine, packet: seq<byte>)
    requires Reachable(m) && Good(m)
    ensures Reachable(Fed(m, packet))
  {
    var ready := m.(outs := [Packet(packet)], ins := []);
    BusGood(m, [Packet(packet)], []);
    ReachableStep(m, BusEvent([Packet(packet)], []), ready);
    ReachableStep(ready, PollEvent, Poll(ready).m);
  }

  /** A new transport takes these packets, and they begin with a wrapper. */
  predicate Arrives(ps: nat, cap: nat, packets: seq<seq<byte>>, c: Cbw) {
    Configured(ps, cap) && Delivery(Start(ps, cap), packets) && Carries(packets, c)
  }

  /** All of that happens in runs. */
  lemma ArrivedReachable(ps: nat, cap: nat, packets: seq<seq<byte>>, c: Cbw)
    requires Arrives(ps, cap, packets, c)
    ensures var m := Feed(Start(ps, cap), packets);
            Reachable(m) && JustBegun(Start(ps, cap), m, c, Joined(packets))
  {
    ReachableStart(ps, cap);
    FeedReachable(Start(ps, cap), packets);
    SurplusIsDropped(Start(ps, cap), packets, c);
  }

  /** Every wrapper has packets that bring it: itself, if it fits one. */
  lemma OnePacketCarries(m: Machine, c: Cbw)
    requires Good(m) && m.state == CommandTransfer && m.buf == [] && CBW_LEN <= m.ps && ValidCbw(c)
    ensures Delivery(m, [EncodeCbw(c)]) && Carries([EncodeCbw(c)], c)
  {
    CbwRoundTrip(c);
    var raw := EncodeCbw(c);
    assert Leading([raw]) == [] && Joined([raw]) == [] + raw == raw && raw[..CBW_LEN] == raw;
  }

  /** Byte by byte, if there is room for that. */
  lemma SinglesCarry(m: Machine, c: Cbw) returns (packets: seq<seq<byte>>)
    requires Good(m) && m.state == CommandTransfer && m.buf == [] && m.cap >= CBW_LEN - 1 + m.ps && ValidCbw(c)
    ensures Delivery(m, packets) && Carries(packets, c)
  {
    CbwRoundTrip(c);
    var raw := EncodeCbw(c);
    SumOfOnes(CBW_LEN);
    SumOfOnes(CBW_LEN - 1);
    assert Ones(CBW_LEN)[..CBW_LEN - 1] == Ones(CBW_LEN - 1);
    packets := Cut(raw, Ones(CBW_LEN));
    CutJoins(raw, Ones(CBW_LEN));
    SizedDelivery(m, packets, Ones(CBW_LEN));
    assert raw[..CBW_LEN] == raw;
  }

  function Ones(n: nat): (sizes: seq<nat>)
    ensures |sizes| == n && forall i :: 0 <= i < n ==> sizes[i] == 1
  {
    if n == 0 then [] else Ones(n - 1) + [1]
  }

  lemma {:induction false} SumOfOnes(n: nat)
    ensures Sum(Ones(n)) == n
  {
    if n > 0 {
      assert Ones(n)[..n - 1] == Ones(n - 1);
      SumOfOnes(n - 1);
    }
  }

  /** A run in which data is written after the status: the host asks for data, the user sets a status and then
      writes a byte, and either kind of write takes it. */
  lemma WritesAfterStatus(ps: nat, cap: nat, packets: seq<seq<byte>>, c: Cbw, status: CommandStatus, processed: u32,
                          b: byte)
    requires Arrives(ps, cap, packets, c) && c.dir == In
    ensures var m := Feed(Start(ps, cap), packets);
            && TakesStatus(m.state)
            && var n := SetStatus(m, status, processed);
               && Reachable(n) && n.cs.Some?
               && WriteData(n, [b]).r == Ok(1)
               && TryWriteDataAll(n, [b]).r == Ok(())
  {
    ArrivedReachable(ps, cap, packets, c);
    var m := Feed(Start(ps, cap), packets);
    CarriedIsValid(packets, c);
    SetStatusReachable(m, status, processed);
    StatusAloneClosesNothing(m, status, processed, [b]);
  }

  lemma CarriedIsValid(packets: seq<seq<byte>>, c: Cbw)
    requires Carries(packets, c)
    ensures ValidCbw(c)
  {
  }
}

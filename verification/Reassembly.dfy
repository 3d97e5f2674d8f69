/** A command wrapper longer than a packet arrives in pieces. When does the device put it together again? */
module Reassembly {
  import opened Bytes
  import opened Codec
  import opened Ledgers
  import opened Transport
  import opened Invariant
  import opened Completion

  /** The bytes the host delivers in the packets of a script. */
  function Data(outs: seq<OutReply>): (s: seq<byte>) {
    if outs == [] then [] else (if outs[0].Packet? then outs[0].data else []) + Data(outs[1..])
  }

  /** Non-empty packets of legal size, in any number of attempts, the last of which brings a packet. */
  predicate Script(outs: seq<OutReply>, ps: nat) {
    && outs != []
    && outs[|outs| - 1].Packet?
    && forall i :: 0 <= i < |outs| ==> outs[i].Packet? ==> 1 <= |outs[i].data| <= ps
  }

  function LastLen(outs: seq<OutReply>): (n: nat)
    requires outs != [] && outs[|outs| - 1].Packet?
  {
    |outs[|outs| - 1].data|
  }

  lemma {:induction false} LastIsPart(outs: seq<OutReply>)
    requires outs != [] && outs[|outs| - 1].Packet?
    ensures LastLen(outs) <= |Data(outs)|
    decreases |outs|
  {
    if |outs| > 1 { LastIsPart(outs[1..]); }
  }

  /** The machine had the wrapper come in one piece. */
  function InOnePiece(m: Machine, raw: seq<byte>): (r: Machine)
    requires |raw| == CBW_LEN
  {
    Decide(m.(buf := raw, outs := [], ledger := m.ledger.(raw := raw))).m
  }

  predicate Waiting(m: Machine, raw: seq<byte>) {
    match m.state
    case CommandTransfer =>
      && Good(m)
      && Script(m.outs, m.ps)
      && m.buf + Data(m.outs) == raw
      && |raw| == CBW_LEN
    case _ => false
  }

  /** One read attempt that is not the last, with room for a packet. */
  lemma OneMore(m: Machine, raw: seq<byte>)
    requires Waiting(m, raw) && |m.outs| > 1 && m.cap - |m.buf| >= m.ps
    ensures var n := Poll(m).m;
            && Waiting(n, raw)
            && n == m.(outs := m.outs[1..], buf := n.buf, ledger := m.ledger.(raw := n.buf))
            && LastLen(n.outs) == LastLen(m.outs)
  {
    PollGood(m);
    LastIsPart(m.outs[1..]);
    var n := Poll(m).m;
    assert n.buf + Data(n.outs) == raw by {
      assert m.buf + Data(m.outs) == (m.buf + if m.outs[0].Packet? then m.outs[0].data else []) + Data(m.outs[1..]);
    }
  }

  lemma TheLast(m: Machine, raw: seq<byte>)
    requires Waiting(m, raw) && |m.outs| == 1 && m.cap - |m.buf| >= m.ps
    ensures Poll(m).m == InOnePiece(m, raw)
    ensures |m.buf| + LastLen(m.outs) == CBW_LEN
  {
    assert Data(m.outs) == m.outs[0].data + Data([]) == m.outs[0].data;
    var got := ReadPacket(m);
    assert got.m == m.(buf := raw, outs := [], ledger := m.ledger.(raw := raw));
  }

  lemma {:induction false} Reassembles(m: Machine, raw: seq<byte>)
    requires Waiting(m, raw)
    requires m.cap >= CBW_LEN - LastLen(m.outs) + m.ps
    ensures PollN(m, |m.outs|) == InOnePiece(m, raw)
    decreases |m.outs|
  {
    LastIsPart(m.outs);
    PollGood(m);
    if |m.outs| == 1 {
      TheLast(m, raw);
      assert PollN(Poll(m).m, 0) == Poll(m).m;
    } else {
      OneMore(m, raw);
      var n := Poll(m).m;
      Reassembles(n, raw);
      assert InOnePiece(n, raw) == InOnePiece(m, raw);
    }
  }

  /** Too little room for the last packet. */
  predicate TooLittle(m: Machine, raw: seq<byte>) {
    match m.state
    case CommandTransfer => Waiting(m, raw) && m.cap < CBW_LEN - LastLen(m.outs) + m.ps
    case _ => false
  }

  /** After `k` polls a device with the account `l` has started no command; after as many as there are read attempts
      it has no room left, so that every further poll answers overflow. */
  predicate StillDeaf(l: Ledger, raw: seq<byte>, attempts: nat, n: Machine, k: nat) {
    match n.state
    case CommandTransfer =>
      && TooLittle(n, raw) && Commands(n.ledger) == Commands(l)
      && (n.cap - |n.buf| < n.ps || |n.outs| + k <= attempts)
    case _ => false
  }

  /** With room for this packet and not for the last, there are more to come. */
  lemma NotTheLast(m: Machine, raw: seq<byte>)
    requires TooLittle(m, raw) && m.cap - |m.buf| >= m.ps
    ensures |m.outs| > 1
  {
    if |m.outs| == 1 { TheLast(m, raw); }
  }

  lemma DeafStep(l: Ledger, raw: seq<byte>, attempts: nat, n: Machine, k: nat)
    requires StillDeaf(l, raw, attempts, n, k)
    ensures StillDeaf(l, raw, attempts, Poll(n).m, k + 1)
  {
    if n.cap - |n.buf| < n.ps {
      assert Poll(n) == Outcome(n, Err(Error(IoBufferOverflow)));
    } else {
      NotTheLast(n, raw);
      OneMore(n, raw);
    }
  }

  /** The device reads up to the last packet and then answers overflow for ever. */
  lemma NeverReassembles(m: Machine, raw: seq<byte>, k: nat)
    requires TooLittle(m, raw)
    ensures StillDeaf(m.ledger, raw, |m.outs|, PollN(m, k), k)
    ensures k >= |m.outs| ==> Poll(PollN(m, k)).r == Err(Error(IoBufferOverflow))
  {
    var l, attempts := m.ledger, |m.outs|;
    var deaf := (n: Machine, j: nat) => StillDeaf(l, raw, attempts, n, j);
    forall n: Machine, j: nat ensures KeepsAt(deaf, n, j) {
      if deaf(n, j) { DeafStep(l, raw, attempts, n, j); }
    }
    PollNKeeps(deaf, m, 0, k, PollN(m, k), k);
  }

  /** Reassembly, exactly. A wrapper in any packets, with any failed attempts between them, is taken as if it
      had come in one piece if and only if the buffer holds everything before the last packet plus one full
      packet; otherwise no number of polls takes it. */
  lemma ReassemblyExactly(m: Machine, raw: seq<byte>)
    requires Waiting(m, raw) && m.buf == []
    ensures m.cap >= CBW_LEN - LastLen(m.outs) + m.ps <==> PollN(m, |m.outs|) == InOnePiece(m, raw)
    ensures m.cap < CBW_LEN - LastLen(m.outs) + m.ps ==>
              forall k: nat :: PollN(m, k).state == CommandTransfer
  {
    if m.cap >= CBW_LEN - LastLen(m.outs) + m.ps {
      Reassembles(m, raw);
    } else {
      forall k: nat ensures PollN(m, k).state == CommandTransfer {
        NeverReassembles(m, raw, k);
      }
      LeavesCommandTransfer(m, raw);
    }
  }

  lemma LeavesCommandTransfer(m: Machine, raw: seq<byte>)
    requires |raw| == CBW_LEN
    ensures InOnePiece(m, raw).state != CommandTransfer
  {
  }

  // ----- the two natural ways to cut a wrapper -----

  /** Full packets and a tail. */
  function Chunks(raw: seq<byte>, ps: nat): (outs: seq<OutReply>)
    requires ps > 0
    decreases |raw|
  {
    if |raw| <= ps then [Packet(raw)] else [Packet(raw[..ps])] + Chunks(raw[ps..], ps)
  }

  lemma {:induction false} ChunksAreAScript(raw: seq<byte>, ps: nat)
    requires ps > 0 && raw != []
    ensures Script(Chunks(raw, ps), ps)
    ensures Data(Chunks(raw, ps)) == raw
    decreases |raw|
  {
    var outs := Chunks(raw, ps);
    if |raw| <= ps {
      assert Data(outs) == raw + Data([]) == raw;
    } else {
      ChunksAreAScript(raw[ps..], ps);
      ScriptCons(raw[..ps], Chunks(raw[ps..], ps), ps);
      assert raw[..ps] + raw[ps..] == raw;
    }
  }

  lemma ScriptCons(head: seq<byte>, rest: seq<OutReply>, ps: nat)
    requires Script(rest, ps) && 1 <= |head| <= ps
    ensures Script([Packet(head)] + rest, ps)
    ensures Data([Packet(head)] + rest) == head + Data(rest)
    ensures LastLen([Packet(head)] + rest) == LastLen(rest)
  {
    var outs := [Packet(head)] + rest;
    assert outs[1..] == rest;
    assert outs[|outs| - 1] == rest[|rest| - 1];
  }

  lemma {:induction false} ChunksLast(raw: seq<byte>, ps: nat)
    requires ps > 0 && raw != []
    ensures Script(Chunks(raw, ps), ps)
    ensures |raw| - LastLen(Chunks(raw, ps)) + ps == CeilDiv(|raw|, ps) * ps
    decreases |raw|
  {
    ChunksAreAScript(raw, ps);
    if |raw| <= ps {
      assert CeilDiv(|raw|, ps) == 1;
    } else {
      ChunksLast(raw[ps..], ps);
      ScriptCons(raw[..ps], Chunks(raw[ps..], ps), ps);
      OneMorePiece(|raw|, ps);
    }
  }

  lemma OneMorePiece(n: nat, ps: nat)
    requires 0 < ps < n
    ensures CeilDiv(n, ps) * ps == CeilDiv(n - ps, ps) * ps + ps
  {
    var r := CeilDiv(n - ps, ps);
    assert CeilDiv(n, ps) == 1 + r;
    assert (1 + r) * ps == ps + r * ps;
  }

  /** In full packets, the wrapper is taken if and only if the buffer holds 31 rounded up to whole packets. */
  lemma FullPacketsExactly(m: Machine, raw: seq<byte>)
    requires Good(m) && m.state == CommandTransfer && m.buf == []
    requires |raw| == CBW_LEN && m.outs == Chunks(raw, m.ps)
    ensures m.cap >= CeilDiv(CBW_LEN, m.ps) * m.ps <==> PollN(m, |m.outs|) == InOnePiece(m, raw)
    ensures m.cap < CeilDiv(CBW_LEN, m.ps) * m.ps ==> forall k: nat :: PollN(m, k).state == CommandTransfer
  {
    ChunksAreAScript(raw, m.ps);
    ChunksLast(raw, m.ps);
    assert m.buf + raw == raw;
    ReassemblyExactly(m, raw);
  }

  /** The check in `new` is weaker than that: it admits a 31-byte buffer with 8- or 16-byte packets, a device
      that never takes a command from a host sending full packets. */
  lemma NewAdmitsDeafDevices(m: Machine, raw: seq<byte>, k: nat)
    requires Good(m) && m.state == CommandTransfer && m.buf == []
    requires |raw| == CBW_LEN && m.outs == Chunks(raw, m.ps)
    requires m.cap == 31 && (m.ps == 8 || m.ps == 16)
    ensures Configured(m.ps, m.cap)
    ensures PollN(m, k).state == CommandTransfer
  {
    DeafSizes(m.ps);
    FullPacketsExactly(m, raw);
  }

  lemma DeafSizes(ps: nat)
    requires ps == 8 || ps == 16
    ensures 31 < CeilDiv(CBW_LEN, ps) * ps
  {
    PacketsInAWrapper();
  }

  lemma ZeroPoll(m: Machine)
    requires m.ps == 0 && m.state == CommandTransfer && |m.buf| < CBW_LEN
    ensures var n := Poll(m).m;
            n == m.(outs := n.outs)
    ensures m.outs != [] && m.outs[0].Packet? && m.outs[0].data != [] && |m.buf| <= m.cap ==>
              Poll(m).r == Err(Usb(BufferOverflow))
  {
    assert m.buf + [] == m.buf && m.ledger.raw + [] == m.ledger.raw;
    assert m.ledger.cur.Some? ==> m.ledger.cur.value.received + [] == m.ledger.cur.value.received;
  }

  /** A poll for each of these answers of the OUT endpoint. */
  function ZeroPolls(m: Machine, answers: seq<seq<OutReply>>): (n: Machine)
    requires m.ps == 0 && m.state == CommandTransfer && |m.buf| < CBW_LEN
    decreases |answers|
  {
    if answers == [] then m else
    var ready := m.(outs := answers[0]);
    ZeroPoll(ready);
    ZeroPolls(Poll(ready).m, answers[1..])
  }

  /** It also admits a packet size of 0. Such a device takes no byte of any packet: whatever the endpoint offers, in any
      number of polls, it is left as it was. */
  lemma {:induction false} ZeroPacketsAreDeaf(m: Machine, answers: seq<seq<OutReply>>)
    requires m.ps == 0 && m.state == CommandTransfer && |m.buf| < CBW_LEN
    ensures var n := ZeroPolls(m, answers);
            n == m.(outs := n.outs)
    decreases |answers|
  {
    if answers != [] {
      ZeroPoll(m.(outs := answers[0]));
      ZeroPacketsAreDeaf(Poll(m.(outs := answers[0])).m, answers[1..]);
    }
  }

  lemma PacketsInAWrapper()
    ensures CeilDiv(CBW_LEN, 8) == 4 && CeilDiv(CBW_LEN, 16) == 2
  {
    assert CeilDiv(7, 8) == 1;
    assert CeilDiv(15, 8) == 2;
    assert CeilDiv(23, 8) == 3;
    assert CeilDiv(15, 16) == 1;
  }

  /** Room for 30 bytes and a packet is enough for every split. */
  lemma AnySplitWorks(m: Machine, raw: seq<byte>)
    requires Waiting(m, raw) && m.buf == [] && m.cap >= CBW_LEN - 1 + m.ps
    ensures PollN(m, |m.outs|) == InOnePiece(m, raw)
  {
    Reassembles(m, raw);
  }

  function Singles(raw: seq<byte>): (outs: seq<OutReply>)
    ensures |outs| == |raw|
  {
    if raw == [] then [] else [Packet(raw[..1])] + Singles(raw[1..])
  }

  lemma {:induction false} SinglesAreAScript(raw: seq<byte>, ps: nat)
    requires raw != [] && ps > 0
    ensures Script(Singles(raw), ps) && Data(Singles(raw)) == raw && LastLen(Singles(raw)) == 1
    decreases |raw|
  {
    var outs := Singles(raw);
    assert outs[1..] == Singles(raw[1..]);
    if |raw| == 1 {
      assert Data(outs) == raw[..1] + Data([]) == raw;
    } else {
      SinglesAreAScript(raw[1..], ps);
      assert outs[|outs| - 1] == outs[1..][|outs| - 2];
      assert Data(outs) == raw[..1] + raw[1..] == raw;
    }
  }

  /** ... and nothing less is: byte by byte, the wrapper is taken only then. */
  lemma SinglesExactly(m: Machine, raw: seq<byte>)
    requires Good(m) && m.state == CommandTransfer && m.buf == []
    requires |raw| == CBW_LEN && m.outs == Singles(raw)
    ensures m.cap >= CBW_LEN - 1 + m.ps <==> PollN(m, |m.outs|) == InOnePiece(m, raw)
  {
    SinglesAreAScript(raw, m.ps);
    assert m.buf + raw == raw;
    ReassemblyExactly(m, raw);
  }
}

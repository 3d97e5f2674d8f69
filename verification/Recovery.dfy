/** An invalid wrapper ends all traffic until a reset (section 6.6.1 of the Bulk-Only Transport
    specification), and a reset leaves a transport no run can tell from a new one (section 3.1). */
module Recovery {
  import opened Bytes
  import opened Codec
  import opened Transport
  import opened Invariant
  import opened Runs

  /** What the caller of an event sees. */
  datatype Reply =
    | Silent
    | Polled(poll: Answer<()>)
    | Counted(count: Answer<nat>)
    | Written(write: Answer<()>)
    | Copied(bytes: Answer<seq<byte>>)

  function ReplyOf(m: Machine, e: Event): (r: Reply)
    requires Good(m) && Permitted(m, e)
  {
    match e
    case PollEvent => Polled(Poll(m).r)
    case WriteEvent(src) => Counted(WriteData(m, src).r)
    case WriteAllEvent(src) => Written(TryWriteDataAll(m, src).r)
    case ReadEvent(room) => Copied(ReadData(m, room).r)
    case _ => Silent
  }

  function Replies(m: Machine, es: seq<Event>): (rs: seq<Reply>)
    requires Good(m) && Legal(m, es)
    decreases |es|
  {
    if es == [] then [] else
    Replies(m, es[..|es| - 1]) + [ReplyOf(Run(m, es[..|es| - 1]), es[|es| - 1])]
  }

  // ----- an invalid wrapper is terminal -----

  lemma InvalidStep(m: Machine, e: Event)
    requires Good(m) && m.state == CommandTransferInvalid
    requires Permitted(m, e) && !e.ResetEvent?
    ensures var n := Step(m, e);
            n == m.(outs := n.outs, ins := n.ins, inStalled := n.inStalled, outStalled := n.outStalled)
    ensures e.PollEvent? ==> Step(m, e) == m.(inStalled := true, outStalled := true)
    ensures !e.ClearHaltEvent? && m.inStalled ==> Step(m, e).inStalled
    ensures !e.ClearHaltEvent? && m.outStalled ==> Step(m, e).outStalled
    ensures !e.StatusEvent?
    ensures e.WriteEvent? || e.WriteAllEvent? ==>
              ReplyOf(m, e) == Counted(Err(Error(InvalidState))) || ReplyOf(m, e) == Written(Err(Error(InvalidState)))
    ensures e.ReadEvent? ==> ReplyOf(m, e) == Copied(Err(Error(InvalidState)))
  {
  }

  /** From an invalid wrapper on, whatever the endpoints offer and the user tries short of a reset, and however
      often the host clears the halt: no byte moves (the ledger stands still), no endpoint answer is consumed by
      a poll, no command is offered, and every poll stalls both endpoints again. */
  lemma {:induction false} InvalidIsTerminal(m: Machine, es: seq<Event>)
    requires Good(m) && m.state == CommandTransferInvalid && Legal(m, es)
    requires forall k :: 0 <= k < |es| ==> !es[k].ResetEvent?
    ensures var n := Run(m, es);
            && n.state == CommandTransferInvalid
            && n.ledger == m.ledger
            && n.buf == m.buf
            && (es != [] && es[|es| - 1].PollEvent? ==> n.inStalled && n.outStalled)
            && Poll(n) == Outcome(n.(inStalled := true, outStalled := true), Ok(()))
            && GetCommand(n) == None
    decreases |es|
  {
    if es != [] {
      InvalidIsTerminal(m, es[..|es| - 1]);
      InvalidStep(Run(m, es[..|es| - 1]), es[|es| - 1]);
    }
  }

  /** Does the next poll look for a wrapper? After the last byte of a status it does so at once. */
  predicate AwaitsWrapper(m: Machine) {
    m.state == CommandTransfer || (m.state == StatusTransfer && m.buf == [])
  }

  /** 31 bytes are in that do not parse. */
  predicate BadWrapper(buf: seq<byte>) {
    |buf| >= CBW_LEN && !(buf[..4] == CBW_SIGNATURE && 1 <= buf[14] <= 16)
  }

  lemma ReadCbwInvalid(m: Machine)
    requires m.state == CommandTransfer
    ensures var got := ReadPacket(m);
            ReadCbw(m).m.state == CommandTransferInvalid <==> got.r.Ok? && BadWrapper(got.m.buf)
  {
    var got := ReadPacket(m);
    if got.r.Ok? && |got.m.buf| >= CBW_LEN {
      assert got.m.buf[..CBW_LEN][..4] == got.m.buf[..4];
    }
  }

  /** The device gets there exactly when a wrapper is due and 31 bytes are in that do not parse, from all
      states. */
  lemma InvalidExactly(m: Machine)
    requires Good(m) && m.state != CommandTransferInvalid
    ensures Poll(m).m.state == CommandTransferInvalid <==>
            && AwaitsWrapper(m)
            && var got := ReadPacket(if m.state == CommandTransfer then m else EnterCommandTransfer(m));
               got.r.Ok? && BadWrapper(got.m.buf)
  {
    if AwaitsWrapper(m) {
      ReadCbwInvalid(if m.state == CommandTransfer then m else EnterCommandTransfer(m));
    }
  }

  // ----- reset -----

  /** Equal but for a wrapper that no longer matters. */
  predicate Alike(m: Machine, n: Machine) {
    || m == n
    || ((m.state == CommandTransfer || m.state == CommandTransferInvalid) && m.(cbw := n.cbw) == n)
  }

  lemma ReadCbwAlike(m: Machine, n: Machine)
    requires m.state == CommandTransfer && m.(cbw := n.cbw) == n
    ensures Alike(ReadCbw(m).m, ReadCbw(n).m) && ReadCbw(m).r == ReadCbw(n).r
  {
    var got, got' := ReadPacket(m), ReadPacket(n);
    assert got.m.(cbw := n.cbw) == got'.m && got.r == got'.r;
    if got.r.Ok? && |got.m.buf| >= CBW_LEN && ParseCbw(got.m.buf[..CBW_LEN]).Some? {
      var c := ParseCbw(got.m.buf[..CBW_LEN]).value;
      assert Begin(got.m, c) == Begin(got'.m, c);
    }
  }

  lemma StepAlike(m: Machine, n: Machine, e: Event)
    requires Good(m) && Good(n) && Alike(m, n) && Permitted(m, e)
    ensures Permitted(n, e)
    ensures Alike(Step(m, e), Step(n, e)) && ReplyOf(m, e) == ReplyOf(n, e)
  {
    if m != n && e.PollEvent? && m.state == CommandTransfer {
      ReadCbwAlike(m, n);
    }
  }

  lemma {:induction false} RunsAlike(m: Machine, n: Machine, es: seq<Event>)
    requires Good(m) && Good(n) && Alike(m, n) && Legal(m, es)
    ensures Legal(n, es)
    ensures Replies(m, es) == Replies(n, es)
    ensures Alike(Run(m, es), Run(n, es))
    decreases |es|
  {
    if es != [] {
      var before := es[..|es| - 1];
      RunsAlike(m, n, before);
      StepAlike(Run(m, before), Run(n, before), es[|es| - 1]);
    }
  }

  /** After a reset, from any state of any run, no sequence of events can tell the transport from a new one:
      the same calls are legal, get the same replies, and put the same bytes on the wire. */
  lemma ResetIsAsNew(m: Machine, es: seq<Event>)
    requires Reachable(m) && Good(Reset(m)) && Legal(Reset(m), es)
    ensures var new' := Transport.Init(m.ps, m.cap).(outs := m.outs, ins := m.ins);
            && Good(new') && Legal(new', es)
            && Replies(new', es) == Replies(Reset(m), es)
            && Run(new', es).ledger == Run(Reset(m), es).ledger
  {
    ReachableGood(m);
    var new' := Transport.Init(m.ps, m.cap).(outs := m.outs, ins := m.ins);
    InitGood(m.ps, m.cap);
    assert Good(new');
    assert Alike(Reset(m), new');
    RunsAlike(Reset(m), new', es);
  }
}

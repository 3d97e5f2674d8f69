/** Whole runs: every interleaving of polls, user calls, endpoint behaviour and resets. */
module Runs {
  import opened Bytes
  import opened Codec
  import opened Ledgers
  import opened Transport
  import opened Invariant

  datatype Event =
    | PollEvent
    | BusEvent(outs: seq<OutReply>, ins: seq<InReply>) // from now on the endpoints will answer like this
    | WriteEvent(src: seq<byte>)
    | WriteAllEvent(src: seq<byte>)
    | ReadEvent(room: nat)
    | StatusEvent(status: CommandStatus, processed: u32)
    | ClearHaltEvent(input: bool, output: bool) // the host's Clear Feature (halt) on either endpoint
    | ResetEvent

  /** The one obligation the transport puts on its user: the assertion in `set_status`. */
  predicate Permitted(m: Machine, e: Event) {
    e.StatusEvent? ==> TakesStatus(m.state)
  }

  /** One event. That `Poll` may be called on every good machine without further conditions is the
      statement that no handler can panic. */
  function Step(m: Machine, e: Event): (r: Machine)
    requires Good(m) && Permitted(m, e)
  {
    match e
    case PollEvent => Poll(m).m
    case BusEvent(outs, ins) => m.(outs := outs, ins := ins)
    case WriteEvent(src) => WriteData(m, src).m
    case WriteAllEvent(src) => TryWriteDataAll(m, src).m
    case ReadEvent(room) => ReadData(m, room).m
    case StatusEvent(status, processed) => SetStatus(m, status, processed)
    case ClearHaltEvent(input, output) => ClearHalt(m, input, output)
    case ResetEvent => Reset(m)
  }

  lemma BusGood(m: Machine, outs: seq<OutReply>, ins: seq<InReply>)
    requires Good(m)
    ensures Good(m.(outs := outs, ins := ins))
  {
  }

  lemma ClearHaltGood(m: Machine, input: bool, output: bool)
    requires Good(m)
    ensures Good(ClearHalt(m, input, output))
  {
  }

  lemma StepGood(m: Machine, e: Event)
    requires Good(m) && Permitted(m, e)
    ensures Good(Step(m, e)) && SameDevice(Step(m, e), m)
  {
    match e
    case PollEvent => PollGood(m);
    case BusEvent(outs, ins) => BusGood(m, outs, ins);
    case WriteEvent(src) => WriteDataGood(m, src);
    case WriteAllEvent(src) => TryWriteDataAllGood(m, src);
    case ReadEvent(room) => ReadDataGood(m, room);
    case StatusEvent(status, processed) => SetStatusGood(m, status, processed);
    case ClearHaltEvent(input, output) => ClearHaltGood(m, input, output);
    case ResetEvent => ResetGood(m);
  }

  predicate Legal(m: Machine, es: seq<Event>)
    requires Good(m)
    decreases |es|, 0
  {
    es == [] || (Legal(m, es[..|es| - 1]) && Permitted(Run(m, es[..|es| - 1]), es[|es| - 1]))
  }

  function Run(m: Machine, es: seq<Event>): (r: Machine)
    requires Good(m) && Legal(m, es)
    ensures Good(r) && SameDevice(r, m)
    decreases |es|, 1
  {
    if es == [] then m else
    var before := Run(m, es[..|es| - 1]);
    StepGood(before, es[|es| - 1]);
    Step(before, es[|es| - 1])
  }

  /** A new transport that passed the checks in `new`. */
  function Start(ps: nat, cap: nat): (m: Machine)
    requires Configured(ps, cap)
    ensures Good(m)
  {
    InitGood(ps, cap);
    Init(ps, cap)
  }

  /** A run of a new transport of the given configuration leads to `m`. */
  ghost predicate LeadsTo(ps: nat, cap: nat, es: seq<Event>, m: Machine) {
    Configured(ps, cap) && Legal(Start(ps, cap), es) && m == Run(Start(ps, cap), es)
  }

  /** The states of all runs of all configurations. */
  ghost predicate Reachable(m: Machine) {
    exists ps: nat, cap: nat, es: seq<Event> :: LeadsTo(ps, cap, es, m)
  }

  lemma ReachableStep(m: Machine, e: Event, n: Machine)
    requires Reachable(m) && Good(m) && Permitted(m, e) && n == Step(m, e)
    ensures Reachable(n)
  {
    var ps: nat, cap: nat, es: seq<Event> :| LeadsTo(ps, cap, es, m);
    var more := es + [e];
    assert more[..|more| - 1] == es && more[|more| - 1] == e;
    assert LeadsTo(ps, cap, more, n);
  }

  lemma ReachableStart(ps: nat, cap: nat)
    requires Configured(ps, cap)
    ensures Reachable(Start(ps, cap))
  {
    assert LeadsTo(ps, cap, [], Start(ps, cap));
  }

  lemma ReachableGood(m: Machine)
    requires Reachable(m)
    ensures Good(m)
  {
  }

  // ----- the wire -----

  /** A host reads the IN stream knowing only the wrappers it sent: the data it asked for, then a status
      wrapper that carries the tag. */
  ghost predicate FullFrame(c: Cbw, w: seq<byte>) {
    && |w| == FrameLen(c)
    && var csw := DecodeCsw(w[InLen(c)..]);
       csw.Some? && csw.value.tag == c.tag && csw.value.residue <= c.len
  }

  ghost predicate PartialFrame(c: Cbw, w: seq<byte>) {
    || |w| <= InLen(c)
    || exists residue: u32, status: CommandStatus ::
         residue <= c.len && w[InLen(c)..] <= EncodeCsw(Csw(c.tag, residue, status))
  }

  ghost predicate WellFramed(cbws: seq<Cbw>, wire: seq<byte>)
    decreases |cbws|
  {
    if cbws == [] then
      wire == []
    else if |cbws| == 1 then
      PartialFrame(cbws[0], wire)
    else
      var n := FrameLen(cbws[0]);
      && n <= |wire|
      && FullFrame(cbws[0], wire[..n])
      && WellFramed(cbws[1..], wire[n..])
  }

  lemma CompleteIsFullFrame(c: Cmd)
    requires Complete(c)
    ensures FullFrame(c.cbw, c.sent)
    ensures PartialFrame(c.cbw, c.sent)
  {
    var p, w := Payload(c), CswBytes(c);
    assert |p| == InLen(c.cbw);
    assert c.sent[|p|..] == w;
    CswRoundTrip(Csw(c.cbw.tag, Residue(c.cbw, c.status.value.1), c.status.value.0));
    assert w <= EncodeCsw(Csw(c.cbw.tag, Residue(c.cbw, c.status.value.1), c.status.value.0));
  }

  lemma CurrentIsPartialFrame(m: Machine)
    requires Good(m) && m.ledger.cur.Some?
    ensures PartialFrame(m.ledger.cur.value.cbw, m.ledger.cur.value.sent)
  {
    var c := m.ledger.cur.value;
    if m.state == CommandTransfer || m.state == CommandTransferInvalid {
      CompleteIsFullFrame(c);
    } else if m.state == StatusTransfer {
      var p, w := Payload(c), CswBytes(c);
      assert c.sent[|p|..] == w[..CSW_LEN - |m.buf|];
      assert c.sent[|p|..] <= EncodeCsw(Csw(c.cbw.tag, Residue(c.cbw, c.status.value.1), c.status.value.0));
    }
  }

  lemma {:induction false} FramesAddUp(cmds: seq<Cmd>)
    requires forall i :: 0 <= i < |cmds| - 1 ==> Complete(cmds[i])
    requires cmds != [] ==> PartialFrame(cmds[|cmds| - 1].cbw, cmds[|cmds| - 1].sent)
    ensures WellFramed(Cbws(cmds), SentBy(cmds))
    decreases |cmds|
  {
    if |cmds| == 1 {
      assert SentBy(cmds) == cmds[0].sent + SentBy([]) == cmds[0].sent;
    } else if |cmds| > 1 {
      CompleteIsFullFrame(cmds[0]);
      var rest := cmds[1..];
      assert rest[|rest| - 1] == cmds[|cmds| - 1];
      FramesAddUp(rest);
      assert Cbws(cmds)[1..] == Cbws(rest);
      var wire, n := SentBy(cmds), FrameLen(cmds[0].cbw);
      assert wire[..n] == cmds[0].sent && wire[n..] == SentBy(rest);
    }
  }

  lemma GoodIsFramed(m: Machine)
    requires Good(m)
    ensures WellFramed(Cbws(Commands(m.ledger)), Wire(m.ledger))
  {
    var l := m.ledger;
    if l.cur.Some? {
      CurrentIsPartialFrame(m);
    } else if l.done != [] {
      CompleteIsFullFrame(l.done[|l.done| - 1]);
    }
    FramesAddUp(Commands(l));
    assert Wire(l) == SentBy(Commands(l));
  }

  /** Whole-run wire format. After any run, what the IN endpoint carried since the last reset is, in the
      order of the accepted wrappers, one frame per wrapper, all but the last whole. */
  lemma WireFormat(m: Machine)
    requires Reachable(m)
    ensures WellFramed(Cbws(Commands(m.ledger)), Wire(m.ledger))
  {
    ReachableGood(m);
    GoodIsFramed(m);
  }
}

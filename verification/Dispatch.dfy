/** The dispatch loop of the subclass: it hands the current command to a callback and then polls. */
module Dispatch {
  import opened Bytes
  import opened Codec
  import opened Ledgers
  import opened Transport
  import opened Invariant
  import opened Runs

  datatype Call = CallWrite(src: seq<byte>) | CallWriteAll(src: seq<byte>) | CallRead(room: nat)

  /** What a callback did: its data calls in order, at most one verdict, which ends the command, and whether
      it returned without an error. */
  datatype Callback = Callback(calls: seq<Call>, verdict: Option<(CommandStatus, u32)>, ok: bool)

  /** `poll_command` runs the callback only then. */
  predicate Offered(m: Machine)
    requires Good(m)
  {
    GetCommand(m).Some? && m.cs.None?
  }

  /** Dispatch safety: when the callback runs, a valid wrapper is current, its block has 1 to 16 bytes, no
      status is set, and a verdict is legal. */
  lemma OfferIsSafe(m: Machine)
    requires Good(m) && Offered(m)
    ensures TakesStatus(m.state) && ValidCbw(m.cbw)
    ensures 1 <= |GetCommand(m).value.bytes| <= 16
    ensures m.ledger.cur.Some? && m.ledger.cur.value.cbw == m.cbw && m.ledger.cur.value.status.None?
  {
  }

  /** ... and it misses no such occasion. */
  lemma OfferIsComplete(m: Machine)
    requires Good(m)
    ensures Offered(m) <==> TakesStatus(m.state) && m.cs.None?
  {
  }

  function EventOf(c: Call): (e: Event)
    ensures e.WriteEvent? || e.WriteAllEvent? || e.ReadEvent?
  {
    match c
    case CallWrite(src) => WriteEvent(src)
    case CallWriteAll(src) => WriteAllEvent(src)
    case CallRead(room) => ReadEvent(room)
  }

  /** The same commands, and no new verdict on the current one. */
  predicate SameCommand(l: Ledger, n: Ledger) {
    && n.done == l.done
    && n.cur.Some? == l.cur.Some?
    && (l.cur.Some? ==> n.cur.value.cbw == l.cur.value.cbw && n.cur.value.status == l.cur.value.status)
  }

  /** No data call changes the state of the protocol. */
  lemma CallKeepsState(m: Machine, e: Event)
    requires Good(m) && (e.WriteEvent? || e.WriteAllEvent? || e.ReadEvent?)
    ensures var r := Step(m, e);
            && r.state == m.state && r.cs == m.cs && r.cbw == m.cbw
            && SameCommand(m.ledger, r.ledger)
  {
  }

  function RunCalls(m: Machine, calls: seq<Call>): (r: Machine)
    requires Good(m)
    ensures Good(r) && SameDevice(r, m)
    ensures r.state == m.state && r.cs == m.cs && r.cbw == m.cbw
    ensures SameCommand(m.ledger, r.ledger)
    decreases |calls|
  {
    if calls == [] then m else
    var e := EventOf(calls[0]);
    StepGood(m, e);
    CallKeepsState(m, e);
    RunCalls(Step(m, e), calls[1..])
  }

  /** The callback's verdict, if it gave one. */
  function Judge(m: Machine, cb: Callback): (r: Machine)
    requires TakesStatus(m.state)
  {
    if cb.verdict.Some? then SetStatus(m, cb.verdict.value.0, cb.verdict.value.1) else m
  }

  lemma JudgeGood(m: Machine, cb: Callback)
    requires Good(m) && TakesStatus(m.state)
    ensures Good(Judge(m, cb)) && SameDevice(Judge(m, cb), m)
  {
    if cb.verdict.Some? { SetStatusGood(m, cb.verdict.value.0, cb.verdict.value.1); }
  }

  /** `poll_command`. That the verdict needs no check here is the dispatch guarantee at work. */
  function PollCommand(m: Machine, cb: Callback): (r: Machine)
    requires Good(m)
  {
    if !Offered(m) then m else
    OfferIsSafe(m);
    var called := RunCalls(m, cb.calls);
    JudgeGood(called, cb);
    if cb.ok then Poll(Judge(called, cb)).m else Judge(called, cb)
  }

  lemma PollCommandGood(m: Machine, cb: Callback)
    requires Good(m)
    ensures Good(PollCommand(m, cb)) && SameDevice(PollCommand(m, cb), m)
  {
    if Offered(m) {
      OfferIsSafe(m);
      var called := RunCalls(m, cb.calls);
      JudgeGood(called, cb);
      if cb.ok { PollGood(Judge(called, cb)); }
    }
  }

  // ----- driven runs -----

  /** What happens to a transport that is only used through the subclass. */
  datatype DriverEvent =
    | UsbPoll
    | Bus(outs: seq<OutReply>, ins: seq<InReply>)
    | Command(cb: Callback)
    | HaltCleared(input: bool, output: bool)
    | UsbReset

  function DriverStep(m: Machine, e: DriverEvent): (r: Machine)
    requires Good(m)
  {
    match e
    case UsbPoll => Poll(m).m
    case Bus(outs, ins) => m.(outs := outs, ins := ins)
    case Command(cb) => PollCommand(m, cb)
    case HaltCleared(input, output) => ClearHalt(m, input, output)
    case UsbReset => Reset(m)
  }

  lemma DriverStepGood(m: Machine, e: DriverEvent)
    requires Good(m)
    ensures Good(DriverStep(m, e))
  {
    match e
    case UsbPoll => PollGood(m);
    case Bus(_, _) =>
    case Command(cb) => PollCommandGood(m, cb);
    case HaltCleared(input, output) => ClearHaltGood(m, input, output);
    case UsbReset => ResetGood(m);
  }

  /** No event of a driven run needs permission. */
  function DriverRun(m: Machine, es: seq<DriverEvent>): (r: Machine)
    requires Good(m)
    ensures Good(r)
    decreases |es|
  {
    if es == [] then m else
    DriverStepGood(m, es[0]);
    DriverRun(DriverStep(m, es[0]), es[1..])
  }

  lemma {:induction false} RunCallsReachable(m: Machine, calls: seq<Call>)
    requires Reachable(m) && Good(m)
    ensures Reachable(RunCalls(m, calls))
    decreases |calls|
  {
    if calls != [] {
      var e := EventOf(calls[0]);
      StepGood(m, e);
      CallKeepsState(m, e);
      ReachableStep(m, e, Step(m, e));
      RunCallsReachable(Step(m, e), calls[1..]);
    }
  }

  lemma PollReachable(m: Machine)
    requires Reachable(m) && Good(m)
    ensures Reachable(Poll(m).m)
  {
    ReachableStep(m, PollEvent, Poll(m).m);
  }

  lemma StatusIsStep(m: Machine, status: CommandStatus, processed: u32)
    requires Good(m) && TakesStatus(m.state)
    ensures Step(m, StatusEvent(status, processed)) == SetStatus(m, status, processed)
  {
  }

  lemma SetStatusReachable(m: Machine, status: CommandStatus, processed: u32)
    requires Reachable(m) && Good(m) && TakesStatus(m.state)
    ensures Reachable(SetStatus(m, status, processed))
  {
    StatusIsStep(m, status, processed);
    ReachableStep(m, StatusEvent(status, processed), SetStatus(m, status, processed));
  }

  lemma PollCommandReachable(m: Machine, cb: Callback)
    requires Reachable(m) && Good(m)
    ensures Reachable(PollCommand(m, cb))
  {
    if Offered(m) {
      OfferIsSafe(m);
      RunCallsReachable(m, cb.calls);
      var called := RunCalls(m, cb.calls);
      var judged := Judge(called, cb);
      JudgeGood(called, cb);
      if cb.verdict.Some? { SetStatusReachable(called, cb.verdict.value.0, cb.verdict.value.1); }
      if cb.ok { PollReachable(judged); }
    }
  }

  /** The event of the transport that a driver's event is, if it is a single one. */
  function SingleEvent(e: DriverEvent): (r: Event)
    requires !e.Command?
  {
    match e
    case UsbPoll => PollEvent
    case Bus(outs, ins) => BusEvent(outs, ins)
    case HaltCleared(input, output) => ClearHaltEvent(input, output)
    case UsbReset => ResetEvent
  }

  lemma DriverStepIsStep(m: Machine, e: DriverEvent)
    requires Good(m) && !e.Command?
    ensures DriverStep(m, e) == Step(m, SingleEvent(e))
  {
  }

  lemma DriverStepReachable(m: Machine, e: DriverEvent)
    requires Reachable(m) && Good(m)
    ensures Reachable(DriverStep(m, e))
  {
    if e.Command? {
      PollCommandReachable(m, e.cb);
    } else {
      DriverStepIsStep(m, e);
      ReachableStep(m, SingleEvent(e), DriverStep(m, e));
    }
  }

  lemma {:induction false} DriverRunReachable(m: Machine, es: seq<DriverEvent>)
    requires Reachable(m) && Good(m)
    ensures Reachable(DriverRun(m, es))
    decreases |es|
  {
    if es != [] {
      DriverStepGood(m, es[0]);
      DriverStepReachable(m, es[0]);
      DriverRunReachable(DriverStep(m, es[0]), es[1..]);
    }
  }

  /** Every run driven through `poll_command`, whatever its callbacks do, is a legal run of the transport: the
      assertion in `set_status` never fires, and all that is proved of reachable machines holds. */
  lemma DrivenRunsAreLegal(ps: nat, cap: nat, es: seq<DriverEvent>)
    requires Configured(ps, cap)
    ensures Reachable(DriverRun(Start(ps, cap), es))
  {
    ReachableStart(ps, cap);
    DriverRunReachable(Start(ps, cap), es);
  }
}

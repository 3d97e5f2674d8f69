/** What crossed the device's boundary since the last reset, command by command. The ledger is pure
    bookkeeping: no operation of the transport looks at it. */
module Ledgers {
  import opened Bytes
  import opened Codec

  /** One command: the OUT bytes it was parsed from, its wrapper, the bytes accepted from the user, those
      delivered to the user, those taken from the OUT endpoint, those sent on the IN endpoint (with the
      size of each packet) and the last status set with the byte count given as processed. */
  datatype Cmd = Cmd(
    raw: seq<byte>,
    cbw: Cbw,
    accepted: seq<byte>,
    delivered: seq<byte>,
    received: seq<byte>,
    sent: seq<byte>,
    sizes: seq<nat>,
    status: Option<(CommandStatus, u32)>)

  /** `raw` holds OUT bytes taken since the last command ended; `stray` IN bytes sent outside any command. */
  datatype Ledger = Ledger(done: seq<Cmd>, cur: Option<Cmd>, raw: seq<byte>, stray: seq<byte>)

  const EMPTY: Ledger := Ledger([], None, [], [])

  /** Bytes the host expects on the IN endpoint before the status wrapper. */
  function InLen(c: Cbw): (n: nat) {
    if c.dir == In then c.len else 0
  }

  function FrameLen(c: Cbw): (n: nat) {
    InLen(c) + CSW_LEN
  }

  /** A command is over once the host has its data and its whole status wrapper. */
  predicate Over(c: Cmd) {
    |c.sent| >= FrameLen(c.cbw)
  }

  function NoteTaken(l: Ledger, data: seq<byte>): (r: Ledger) {
    if l.cur.None? || Over(l.cur.value) then
      l.(raw := l.raw + data)
    else
      l.(cur := Some(l.cur.value.(received := l.cur.value.received + data)))
  }

  function NoteCbw(l: Ledger, c: Cbw): (r: Ledger) {
    Ledger(
      if l.cur.Some? then l.done + [l.cur.value] else l.done,
      Some(Cmd(l.raw, c, [], [], [], [], [], None)),
      [],
      l.stray)
  }

  function NoteSent(l: Ledger, data: seq<byte>): (r: Ledger) {
    if l.cur.None? then
      l.(stray := l.stray + data)
    else
      var c := l.cur.value;
      l.(cur := Some(c.(sent := c.sent + data, sizes := c.sizes + [|data|])))
  }

  function NoteAccepted(l: Ledger, data: seq<byte>): (r: Ledger) {
    if l.cur.None? then l
    else l.(cur := Some(l.cur.value.(accepted := l.cur.value.accepted + data)))
  }

  function NoteDelivered(l: Ledger, data: seq<byte>): (r: Ledger) {
    if l.cur.None? then l
    else l.(cur := Some(l.cur.value.(delivered := l.cur.value.delivered + data)))
  }

  function NoteStatus(l: Ledger, status: CommandStatus, processed: u32): (r: Ledger) {
    if l.cur.None? then l
    else l.(cur := Some(l.cur.value.(status := Some((status, processed)))))
  }

  /** All commands since the last reset, in order. */
  function Commands(l: Ledger): (cs: seq<Cmd>)
    ensures |cs| == |l.done| + if l.cur.Some? then 1 else 0
  {
    if l.cur.Some? then l.done + [l.cur.value] else l.done
  }

  function Cbws(cmds: seq<Cmd>): (cs: seq<Cbw>)
    ensures |cs| == |cmds|
    ensures forall i :: 0 <= i < |cs| ==> cs[i] == cmds[i].cbw
  {
    seq(|cmds|, i requires 0 <= i < |cmds| => cmds[i].cbw)
  }

  function SentBy(cmds: seq<Cmd>): (s: seq<byte>) {
    if cmds == [] then [] else cmds[0].sent + SentBy(cmds[1..])
  }

  /** Every byte put on the IN endpoint since the last reset. */
  function Wire(l: Ledger): (s: seq<byte>) {
    l.stray + SentBy(Commands(l))
  }
}

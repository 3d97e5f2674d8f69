/** What a poll may do to the account of commands: carry the current one on, or, when it is finished, start
    the next. */
module Progress {
  import opened Bytes
  import opened Codec
  import opened Ledgers
  import opened Transport

  /** The host's side of a command moves on; what passed between device and user does not. */
  predicate Kept(c: Cmd, d: Cmd) {
    && d.cbw == c.cbw
    && d.accepted == c.accepted
    && d.delivered == c.delivered
    && d.status == c.status
    && c.received <= d.received
  }

  predicate Fresh(c: Cmd) {
    c.accepted == [] && c.delivered == [] && c.status.None?
  }

  predicate Continues(l: Ledger, n: Ledger) {
    && n.done == l.done
    && n.cur.Some? == l.cur.Some?
    && (l.cur.Some? ==> Kept(l.cur.value, n.cur.value))
  }

  predicate Follows(l: Ledger, n: Ledger) {
    n.done == Commands(l) && n.cur.Some? && Fresh(n.cur.value)
  }

  lemma ReadPacketContinues(m: Machine)
    ensures Continues(m.ledger, ReadPacket(m).m.ledger)
  {
  }

  lemma WritePacketContinues(m: Machine)
    ensures Continues(m.ledger, WritePacket(m).m.ledger)
  {
  }

  lemma BeginFollows(m: Machine, c: Cbw)
    ensures Follows(m.ledger, Begin(m, c).m.ledger)
  {
    var started := m.(cbw := c, left := c.len, buf := [], ledger := NoteCbw(m.ledger, c));
    ReadPacketContinues(started.(state := DataTransferFromHost));
    assert Follows(m.ledger, started.ledger);
  }

  /** Bytes of a wrapper belong to no command, so they leave the finished one alone. */
  lemma ReadCbwProgress(m: Machine)
    requires m.ledger.cur.Some? ==> Over(m.ledger.cur.value)
    ensures Continues(m.ledger, ReadCbw(m).m.ledger) || Follows(m.ledger, ReadCbw(m).m.ledger)
  {
    var got := ReadPacket(m);
    assert Continues(m.ledger, got.m.ledger) && Commands(got.m.ledger) == Commands(m.ledger);
    if got.r.Ok? && |got.m.buf| >= CBW_LEN && ParseCbw(got.m.buf[..CBW_LEN]).Some? {
      BeginFollows(got.m, ParseCbw(got.m.buf[..CBW_LEN]).value);
    }
  }

  lemma StartStatusContinues(m: Machine)
    requires m.cs.Some?
    ensures Continues(m.ledger, StartStatus(m).m.ledger)
  {
    WritePacketContinues(m.(buf := EncodeCsw(CswOf(m.cbw, m.cs.value)), state := StatusTransfer));
  }

  lemma SendRestContinues(m: Machine)
    requires m.cs.Some?
    ensures Continues(m.ledger, SendRest(m).m.ledger)
  {
    StartStatusContinues(m);
    WritePacketContinues(m.(buf := m.buf + Fill(Min(SatSub(Min(m.left, m.ps), |m.buf|), SatSub(m.cap, |m.buf|)))));
  }

  lemma DropRestContinues(m: Machine)
    requires m.cs.Some?
    ensures Continues(m.ledger, DropRest(m).m.ledger)
  {
    StartStatusContinues(m);
    ReadPacketContinues(m.(buf := []));
  }

  lemma AwaitStatusContinues(m: Machine)
    ensures Continues(m.ledger, AwaitStatus(m).m.ledger)
  {
    if m.cs.Some? { StartStatusContinues(m); }
  }

  lemma PollProgress(m: Machine)
    requires NeedsStatus(m.state) ==> m.cs.Some?
    requires m.state == CommandTransfer || (m.state == StatusTransfer && m.buf == []) ==>
               m.ledger.cur.Some? ==> Over(m.ledger.cur.value)
    ensures Continues(m.ledger, Poll(m).m.ledger) || Follows(m.ledger, Poll(m).m.ledger)
  {
    match m.state {
      case CommandTransfer => ReadCbwProgress(m);
      case DataTransferToHost =>
        AwaitStatusContinues(m.(state := DataTransferStatusAwait));
        if m.cs.Some? { SendRestContinues(m.(state := DataTransferToHostEnding)); }
        WritePacketContinues(m);
      case DataTransferToHostEnding => SendRestContinues(m);
      case DataTransferFromHost =>
        AwaitStatusContinues(m.(state := DataTransferFromHostStatusAwait));
        if m.cs.Some? { DropRestContinues(m.(state := DataTransferFromHostEnding)); }
        ReadPacketContinues(m);
      case DataTransferFromHostEnding => DropRestContinues(m);
      case StatusTransfer =>
        if m.buf == [] { ReadCbwProgress(EnterCommandTransfer(m)); } else { WritePacketContinues(m); }
      case DataTransferNoData => AwaitStatusContinues(m.(state := DataTransferStatusAwait));
      case CommandTransferInvalid =>
      case _ => AwaitStatusContinues(m);
    }
  }
}

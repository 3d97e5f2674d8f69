/** How Data-In transfers are cut into packets, for an IN endpoint that takes whole packets or nothing. */
module Framing {
  import opened Bytes
  import opened Codec
  import opened Ledgers
  import opened Transport
  import opened Invariant
  import opened Runs

  function Sum(sizes: seq<nat>): (n: nat) {
    if sizes == [] then 0 else sizes[0] + Sum(sizes[1..])
  }

  /** As far as they were sent, the first floor(total / ps) packets are full. */
  predicate Framed(sizes: seq<nat>, total: nat, ps: nat)
    requires ps > 0
    decreases |sizes|
  {
    total < ps || sizes == [] || (sizes[0] == ps && Framed(sizes[1..], total - ps, ps))
  }

  lemma {:induction false} FramedMeans(sizes: seq<nat>, total: nat, ps: nat, i: nat)
    requires ps > 0 && Framed(sizes, total, ps)
    requires i < |sizes| && (i + 1) * ps <= total
    ensures sizes[i] == ps
    decreases i
  {
    assert ps <= (i + 1) * ps;
    if i > 0 {
      assert (i + 1) * ps == i * ps + ps;
      FramedMeans(sizes[1..], total - ps, ps, i - 1);
    }
  }

  lemma {:induction false} SumAppend(sizes: seq<nat>, k: nat)
    ensures Sum(sizes + [k]) == Sum(sizes) + k
    decreases |sizes|
  {
    if sizes != [] {
      assert (sizes + [k])[1..] == sizes[1..] + [k];
      SumAppend(sizes[1..], k);
    }
  }

  lemma {:induction false} FramedAppend(sizes: seq<nat>, total: nat, ps: nat, k: nat)
    requires ps > 0 && Framed(sizes, total, ps)
    requires total - Sum(sizes) >= ps ==> k == ps
    ensures Framed(sizes + [k], total, ps)
    decreases |sizes|
  {
    if sizes != [] && total >= ps {
      assert (sizes + [k])[1..] == sizes[1..] + [k];
      FramedAppend(sizes[1..], total - ps, ps, k);
    }
  }

  predicate CmdFramed(c: Cmd, ps: nat)
    requires ps > 0
  {
    Sum(c.sizes) == |c.sent| && (c.cbw.dir == In ==> Framed(c.sizes, c.cbw.len, ps))
  }

  predicate LedgerFramed(l: Ledger, ps: nat)
    requires ps > 0
  {
    && (forall i :: 0 <= i < |l.done| ==> CmdFramed(l.done[i], ps))
    && (l.cur.Some? ==> CmdFramed(l.cur.value, ps))
  }

  /** The IN endpoint takes whole packets or nothing. */
  predicate Whole(ins: seq<InReply>, ps: nat) {
    forall i :: 0 <= i < |ins| ==> ins[i].Takes? ==> ins[i].n >= ps
  }

  predicate AllFramed(m: Machine) {
    m.ps > 0 && Whole(m.ins, m.ps) && LedgerFramed(m.ledger, m.ps)
  }

  /** One packet more: full unless less than a packet of data was left. */
  lemma SentFramed(l: Ledger, data: seq<byte>, ps: nat)
    requires ps > 0 && LedgerFramed(l, ps)
    requires l.cur.Some? && l.cur.value.cbw.dir == In && l.cur.value.cbw.len - |l.cur.value.sent| >= ps ==>
               |data| == ps
    ensures LedgerFramed(NoteSent(l, data), ps)
  {
    if l.cur.Some? {
      var c := l.cur.value;
      SumAppend(c.sizes, |data|);
      if c.cbw.dir == In { FramedAppend(c.sizes, c.cbw.len, ps, |data|); }
    }
  }

  lemma WritePacketFramed(m: Machine)
    requires AllFramed(m)
    requires m.ledger.cur.Some? && m.ledger.cur.value.cbw.dir == In ==>
               m.ledger.cur.value.cbw.len - |m.ledger.cur.value.sent| < m.ps || |m.buf| >= m.ps
    ensures AllFramed(WritePacket(m).m)
  {
    if m.buf != [] && m.ins != [] && m.ins[0].Takes? {
      SentFramed(m.ledger, m.buf[..Min(m.ins[0].n, Min(m.ps, |m.buf|))], m.ps);
    }
  }

  lemma ReadCbwFramed(m: Machine)
    requires AllFramed(m)
    ensures AllFramed(ReadCbw(m).m)
  {
    var got := ReadPacket(m);
    assert AllFramed(got.m);
    if got.r.Ok? && |got.m.buf| >= CBW_LEN && ParseCbw(got.m.buf[..CBW_LEN]).Some? {
      BeginFramed(got.m, ParseCbw(got.m.buf[..CBW_LEN]).value);
    }
  }

  lemma BeginFramed(m: Machine, c: Cbw)
    requires AllFramed(m)
    ensures AllFramed(Begin(m, c).m)
  {
    assert LedgerFramed(NoteCbw(m.ledger, c), m.ps);
  }

  /** In the status phase all data is out, so its packets may be short. */
  lemma StatusPacketFramed(m: Machine)
    requires Good(m) && AllFramed(m) && m.cs.Some? && m.left == 0
    ensures AllFramed(WritePacket(m).m)
  {
    WritePacketFramed(m);
  }

  lemma StartStatusFramed(m: Machine)
    requires Good(m) && AllFramed(m) && m.cs.Some? && m.left == 0
    ensures AllFramed(StartStatus(m).m)
  {
    WritePacketFramed(m.(buf := EncodeCsw(CswOf(m.cbw, m.cs.value)), state := StatusTransfer));
  }

  lemma SendRestFramed(m: Machine)
    requires Good(m) && AllFramed(m) && m.state == DataTransferToHostEnding
    ensures AllFramed(SendRest(m).m)
  {
    if m.left == 0 {
      StartStatusFramed(m);
    } else {
      WritePacketFramed(m.(buf := m.buf + Fill(Min(SatSub(Min(m.left, m.ps), |m.buf|), SatSub(m.cap, |m.buf|)))));
    }
  }

  lemma DropRestFramed(m: Machine)
    requires Good(m) && AllFramed(m) && m.state == DataTransferFromHostEnding
    ensures AllFramed(DropRest(m).m)
  {
    if m.left == 0 { StartStatusFramed(m); }
  }

  lemma PollToHostFramed(m: Machine)
    requires Good(m) && AllFramed(m) && m.state == DataTransferToHost
    ensures AllFramed(Poll(m).m)
  {
    if m.left == 0 {
      if m.cs.Some? {
        WritePacketFramed(m.(buf := EncodeCsw(CswOf(m.cbw, m.cs.value)), state := StatusTransfer));
      }
    } else if m.cs.Some? {
      SendRestFramed(m.(state := DataTransferToHostEnding));
    } else {
      if m.left < m.ps || |m.buf| >= m.ps { WritePacketFramed(m); }
    }
  }

  lemma PollFromHostFramed(m: Machine)
    requires Good(m) && AllFramed(m) && m.state == DataTransferFromHost
    ensures AllFramed(Poll(m).m)
  {
    if m.left == 0 {
      if m.cs.Some? { StartStatusFramed(m.(state := DataTransferFromHostStatusAwait)); }
    } else if m.cs.Some? {
      DropRestFramed(m.(state := DataTransferFromHostEnding));
    }
  }

  lemma PollFramed(m: Machine)
    requires Good(m) && AllFramed(m)
    ensures AllFramed(Poll(m).m)
  {
    match m.state {
      case CommandTransfer => ReadCbwFramed(m);
      case CommandTransferInvalid =>
      case DataTransferToHost => PollToHostFramed(m);
      case DataTransferToHostEnding => SendRestFramed(m);
      case DataTransferFromHost => PollFromHostFramed(m);
      case DataTransferFromHostEnding => DropRestFramed(m);
      case StatusTransfer =>
        if m.buf == [] { ReadCbwFramed(EnterCommandTransfer(m)); } else { StatusPacketFramed(m); }
      case DataTransferFromHostStatusAwait => if m.cs.Some? { StartStatusFramed(m); }
      case DataTransferStatusAwait => if m.cs.Some? { StartStatusFramed(m); }
    }
  }

  lemma StepFramed(m: Machine, e: Event)
    requires Good(m) && AllFramed(m) && Permitted(m, e)
    requires e.BusEvent? ==> Whole(e.ins, m.ps)
    ensures AllFramed(Step(m, e))
  {
    if e.PollEvent? { PollFramed(m); }
  }

  lemma {:induction false} RunFramed(m: Machine, es: seq<Event>)
    requires Good(m) && AllFramed(m) && Legal(m, es)
    requires forall k :: 0 <= k < |es| && es[k].BusEvent? ==> Whole(es[k].ins, m.ps)
    ensures AllFramed(Run(m, es))
    decreases |es|
  {
    if es != [] {
      RunFramed(m, es[..|es| - 1]);
      StepFramed(Run(m, es[..|es| - 1]), es[|es| - 1]);
    }
  }

  /** Packet framing. In every run over an IN endpoint that takes whole packets, packet number `i` of every
      Data-In command is full as long as the data reaches to its end. */
  lemma LeadingPacketsAreFull(ps: nat, cap: nat, es: seq<Event>, j: nat, i: nat)
    requires Configured(ps, cap) && Legal(Start(ps, cap), es)
    requires forall k :: 0 <= k < |es| && es[k].BusEvent? ==> Whole(es[k].ins, ps)
    requires var cmds := Commands(Run(Start(ps, cap), es).ledger);
             j < |cmds| && cmds[j].cbw.dir == In && i < |cmds[j].sizes| && (i + 1) * ps <= cmds[j].cbw.len
    ensures Commands(Run(Start(ps, cap), es).ledger)[j].sizes[i] == ps
  {
    RunFramed(Start(ps, cap), es);
    var c := Commands(Run(Start(ps, cap), es).ledger)[j];
    assert CmdFramed(c, ps);
    FramedMeans(c.sizes, c.cbw.len, ps, i);
  }

  /** The tail. With less than a packet of data left and a willing endpoint, the next poll ends the data phase
      with one short packet if and only if the tail is wholly buffered or the status is already set; otherwise
      it sends the part that is there. */
  lemma ShortTail(m: Machine)
    requires Good(m) && m.state == DataTransferToHost && 0 < m.left < m.ps
    requires m.ins != [] && m.ins[0].Takes? && m.ins[0].n >= m.ps
    ensures var n := Poll(m).m;
            && Poll(m).r == Ok(())
            && (n.left == 0 <==> m.cs.Some? || |m.buf| == m.left)
            && m.ledger.cur.Some? && n.ledger.cur.Some?
            && n.ledger.cur.value.sizes == m.ledger.cur.value.sizes +
                                           (if m.cs.Some? then [m.left as nat]
                                            else if m.buf == [] then [] else [|m.buf|])
  {
    if m.cs.Some? {
      var e := m.(state := DataTransferToHostEnding);
      var p := e.(buf := m.buf + Fill(m.left - |m.buf|));
      assert Poll(m) == SendRest(e) == Mark(WritePacket(p));
    } else {
      assert Poll(m) == Mark(WritePacket(m));
    }
  }
}

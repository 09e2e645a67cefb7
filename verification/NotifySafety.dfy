/**
 Safety of the notification runner over every run.

 `Inv` is the inductive invariant; `Preserved` carries it over one action and `RunKeeps` over
 a run.
 */
module NotifySafety {
  import opened Wrappers
  import opened NotifyProtocol

  // ----- the invariant

  /** A stored receipt agrees with what became of the message; `None` means nothing left. */
  ghost predicate Honest(r: Receipt, d: Option<Delivery>) {
    && (r.outcome.Accepted? ==> d == Some(DeliveryAccepted))
    && (r.outcome.NotSent? ==> d == None || d == Some(DeliveryRejected))
    && (IsPreflight(r.reason) ==> d == None)
  }

  function DeliveryOf(server: map<EventId, Delivery>, id: EventId): Option<Delivery> {
    if id in server then Some(server[id]) else None
  }

  /** What a context file and the outside world agree on. */
  ghost predicate Consistent(d: Context, server: map<EventId, Delivery>) {
    && (forall e :: e in d.events ==> Honest(d.events[e], DeliveryOf(server, e)))
    && (forall e :: e in d.events ==> d.events[e].key == MessageKey(d.binding, e))
    && (forall e :: e in server ==> e in d.events)
    && (forall e :: e in server && IsTerminal(d.events[e].status) ==> d.terminal.Some?)
  }

  ghost predicate StartsRecorded(d: Context, server: map<EventId, Delivery>, starts: seq<Start>) {
    && (forall i :: 0 <= i < |starts| ==>
          starts[i].id in server && starts[i].id in d.events
          && d.events[starts[i].id].sendStarted && d.events[starts[i].id].status == starts[i].status)
    && (forall i :: 0 <= i < |starts| - 1 ==> !IsTerminal(starts[i].status))
    && (forall i, j :: 0 <= i < j < |starts| ==> starts[i].id != starts[j].id)
  }

  ghost predicate NoFinalStart(d: Context, server: map<EventId, Delivery>) {
    forall e :: e in server && e in d.events ==> !IsTerminal(d.events[e].status)
  }

  ghost predicate SameExcept(a: map<EventId, Receipt>, b: map<EventId, Receipt>, id: EventId) {
    forall e :: e != id ==> (e in a <==> e in b) && (e in a ==> a[e] == b[e])
  }

  function Claimed(b: Binding, id: EventId, status: Status): Receipt {
    ClaimedReceipt(FreshReceipt(b, id, status))
  }

  function ClaimOf(status: Status): Option<Status> {
    if IsTerminal(status) then Some(status) else None
  }

  /** The file still holds the receipt written before preflight. */
  ghost predicate FileFresh(d: Context, l: Proc) requires l.Sending? {
    && l.id in d.events && d.events[l.id] == FreshReceipt(d.binding, l.id, l.status) && d.terminal == None
  }

  /** The file holds the claim written just before the send. */
  ghost predicate FileClaimed(d: Context, l: Proc) requires l.Sending? {
    && l.id in d.events && d.events[l.id] == Claimed(d.binding, l.id, l.status)
    && d.terminal == ClaimOf(l.status)
  }

  /** `terminal` is empty or is this process's own claim. */
  ghost predicate OwnTerminal(c: Context, l: Proc) requires l.Sending? && l.id in c.events {
    c.terminal == None || (c.terminal == ClaimOf(l.status) && c.events[l.id].sendStarted)
  }

  /** What the file and the volatile context hold at each point of `send`. */
  ghost predicate AtPoint(d: Context, l: Proc, server: map<EventId, Delivery>)
    requires l.Sending? && l.id in l.ctx.events
  {
    var mine := l.ctx.events[l.id];
    match l.pc
    case RecordWrite =>
      && FileFresh(l.ctx, l) && l.id !in server && NoFinalStart(d, server)
      && (l.id in d.events ==> Retryable(d.events[l.id]) && d.events[l.id].status == l.status)
    case RecordWritten => FileFresh(d, l) && d == l.ctx && l.id !in server && NoFinalStart(d, server)
    case Preflight => FileFresh(d, l) && d == l.ctx && l.id !in server && NoFinalStart(d, server) && !l.transmitting
    case Claim => FileFresh(d, l) && d == l.ctx && l.id !in server && NoFinalStart(d, server) && !l.transmitting
    case MarkTerminal =>
      && FileFresh(d, l) && mine == Claimed(d.binding, l.id, l.status) && l.ctx.terminal == None
      && l.id !in server && NoFinalStart(d, server) && !l.transmitting
    case ClaimWrite =>
      && FileFresh(d, l) && FileClaimed(l.ctx, l) && l.id !in server && NoFinalStart(d, server) && !l.transmitting
    case ClaimWritten =>
      FileClaimed(d, l) && d == l.ctx && l.id !in server && NoFinalStart(d, server) && !l.transmitting
    case Launch => FileClaimed(d, l) && d == l.ctx && l.id !in server && NoFinalStart(d, server) && l.transmitting
    case Await => FileClaimed(d, l) && d == l.ctx && l.id in server && l.transmitting
    case Settled =>
      && FileClaimed(d, l) && l.ctx.terminal == d.terminal && l.id in server && l.transmitting
      && Honest(mine, Some(server[l.id])) && mine.sendStarted
    case Handle =>
      if l.transmitting
      then FileClaimed(d, l) && l.ctx.terminal == d.terminal && mine.sendStarted
      else
        && (FileFresh(d, l) || FileClaimed(d, l)) && OwnTerminal(l.ctx, l)
        && l.id !in server && (IsTerminal(l.status) ==> NoFinalStart(d, server))
        && (d.terminal.Some? ==> l.ctx.terminal == d.terminal)
    case FinalWrite =>
      && (FileFresh(d, l) || FileClaimed(d, l)) && OwnTerminal(l.ctx, l)
      && Honest(mine, DeliveryOf(server, l.id))
      && (l.id in server ==> mine.sendStarted)
      && (d.terminal.Some? ==> l.ctx.terminal == d.terminal)
    case FinalWritten => d == l.ctx && OwnTerminal(l.ctx, l)
  }

  ghost predicate SendingInv(d: Context, l: Proc, server: map<EventId, Delivery>) requires l.Sending? {
    && l.ctx.binding == d.binding && l.ctx.version == d.version && l.ctx.enabled && d.enabled
    && SameExcept(l.ctx.events, d.events, l.id)
    && l.id in l.ctx.events
    && l.ctx.events[l.id].status == l.status && l.ctx.events[l.id].key == MessageKey(d.binding, l.id)
    && AtPoint(d, l, server)
  }

  ghost predicate ProcInv(s: State, l: Proc) {
    match l
    case Opened(_) => true
    case Loaded(_, ctx) => s.disk == Some(ctx)
    case Writing(ctx) =>
      if s.disk.None? then ctx.events == map[] && ctx.terminal == None
      else ctx == s.disk.value.(enabled := false)
    case Wrote => true
    case Sending(_, _, _, _, _) => s.disk.Some? && SendingInv(s.disk.value, l, s.server)
  }

  /** The lock admits one process at a time. */
  ghost predicate Exclusive(s: State) {
    forall p :: p in s.procs ==> s.lock == Some(p)
  }

  ghost predicate WorldInv(s: State) {
    if s.disk.None? then s.server == map[] && s.starts == []
    else Consistent(s.disk.value, s.server) && StartsRecorded(s.disk.value, s.server, s.starts)
  }

  ghost predicate Inv(s: State) {
    && Exclusive(s)
    && WorldInv(s)
    && forall p :: p in s.procs ==> ProcInv(s, s.procs[p])
  }

  /**
   Where a run may begin: nobody inside, and either no file or a file, possibly left by an
   earlier release, that agrees with the messages sent before.
   */
  ghost predicate Init(s: State) {
    && s.lock == None && s.procs == map[] && s.starts == []
    && if s.disk.None? then s.server == map[] else Consistent(s.disk.value, s.server)
  }

  // ----- one action

  lemma AdmitProceeds(d: Context, ev: Event, server: map<EventId, Delivery>)
    requires Consistent(d, server)
    requires Check(d, ev).Proceed?
    ensures var v := Check(d, ev);
            SendingInv(d, Sending(v.id, v.status, RecordWrite, v.ctx, false), server)
  {
    var id := ev.id.value;
    forall e | e in server && e in d.events
      ensures !IsTerminal(d.events[e].status)
    {
      assert Honest(d.events[e], DeliveryOf(server, e));
      if id in d.events {
        assert Honest(d.events[id], DeliveryOf(server, id));
      }
    }
  }

  /** Only the process holding the lock needs looking at. */
  lemma OneProc(s: State, p: nat, s': State, l': Proc)
    requires Inv(s) && p in s.procs
    requires s'.procs == s.procs[p := l'] && s'.lock == s.lock
    requires WorldInv(s') && ProcInv(s', l')
    ensures Inv(s')
  {
    forall q | q in s'.procs
      ensures q == p
    {
      assert q in s.procs;
    }
  }

  lemma WriteKeepsWorld(s: State, p: nat)
    requires Inv(s) && p in s.procs && s.procs[p].Sending?
    requires IsWrite(s.procs[p].pc)
    ensures WorldInv(Store(s, s.procs[p].ctx))
  {
    var l, d := s.procs[p], s.disk.value;
    assert ProcInv(s, l);
    forall e | e in l.ctx.events
      ensures Honest(l.ctx.events[e], DeliveryOf(s.server, e))
      ensures l.ctx.events[e].key == MessageKey(l.ctx.binding, e)
    {
      if e != l.id {
        assert Honest(d.events[e], DeliveryOf(s.server, e));
      }
    }
  }

  lemma LaunchConsistent(d: Context, l: Proc, server: map<EventId, Delivery>)
    requires l.Sending? && l.pc.Launch? && SendingInv(d, l, server) && Consistent(d, server)
    ensures Consistent(d, server[l.id := InFlight])
  {
    forall e | e in d.events
      ensures Honest(d.events[e], DeliveryOf(server[l.id := InFlight], e))
    {
      assert Honest(d.events[e], DeliveryOf(server, e));
    }
  }

  lemma LaunchRecorded(d: Context, l: Proc, server: map<EventId, Delivery>, starts: seq<Start>)
    requires l.Sending? && l.pc.Launch? && SendingInv(d, l, server) && StartsRecorded(d, server, starts)
    ensures StartsRecorded(d, server[l.id := InFlight], starts + [Start(l.id, l.status)])
  {
    assert forall i :: 0 <= i < |starts| ==> !IsTerminal(starts[i].status);
  }

  lemma LaunchKeepsWorld(s: State, p: nat)
    requires Inv(s) && p in s.procs && s.procs[p].Sending? && s.procs[p].pc.Launch?
    ensures WorldInv(AdvanceSending(s, p, s.procs[p]))
  {
    var l, d := s.procs[p], s.disk.value;
    assert ProcInv(s, l);
    LaunchConsistent(d, l, s.server);
    LaunchRecorded(d, l, s.server, s.starts);
  }

  lemma QuietStepKeepsPoint(d: Context, l: Proc, server: map<EventId, Delivery>)
    requires l.Sending? && SendingInv(d, l, server)
    requires l.pc in {RecordWritten, Preflight, Claim, MarkTerminal, ClaimWritten}
    ensures SendingInv(d, NextPoint(l), server)
  {
  }

  lemma ClosingStepKeepsPoint(d: Context, l: Proc, server: map<EventId, Delivery>)
    requires l.Sending? && SendingInv(d, l, server)
    requires l.pc in {Settled, Handle}
    ensures SendingInv(d, NextPoint(l), server)
  {
  }

  lemma WriteKeepsPoint(d: Context, l: Proc, server: map<EventId, Delivery>)
    requires l.Sending? && SendingInv(d, l, server) && IsWrite(l.pc)
    requires Consistent(d, server)
    ensures SendingInv(l.ctx, NextPoint(l), server)
  {
  }

  lemma LaunchKeepsPoint(d: Context, l: Proc, server: map<EventId, Delivery>)
    requires l.Sending? && SendingInv(d, l, server) && l.pc.Launch?
    ensures SendingInv(d, NextPoint(l), server[l.id := InFlight])
  {
  }

  lemma AdvanceSendingKeeps(s: State, p: nat)
    requires Inv(s) && p in s.procs && s.procs[p].Sending?
    ensures Inv(AdvanceSending(s, p, s.procs[p]))
  {
    var l := s.procs[p];
    assert ProcInv(s, l);
    if l.pc.FinalWritten? {
      LeaveKeeps(s, p);
    } else {
      var s' := AdvanceSending(s, p, l);
      if IsWrite(l.pc) {
        WriteKeepsWorld(s, p);
        WriteKeepsPoint(s.disk.value, l, s.server);
      } else if l.pc.Launch? {
        LaunchKeepsWorld(s, p);
        LaunchKeepsPoint(s.disk.value, l, s.server);
      } else if l.pc in {Settled, Handle} {
        ClosingStepKeepsPoint(s.disk.value, l, s.server);
      } else if !l.pc.Await? {
        QuietStepKeepsPoint(s.disk.value, l, s.server);
      }
      OneProc(s, p, s', NextPoint(l));
    }
  }

  lemma LeaveKeeps(s: State, p: nat)
    requires Inv(s) && p in s.procs
    ensures Inv(Leave(s, p))
  {
  }

  lemma LoadKeeps(s: State, p: nat)
    requires Inv(s) && p in s.procs && s.procs[p].Opened?
    ensures Inv(AdvanceProc(s, p, s.procs[p]))
  {
    var s' := AdvanceProc(s, p, s.procs[p]);
    if p in s'.procs {
      OneProc(s, p, s', s'.procs[p]);
    } else {
      LeaveKeeps(s, p);
    }
  }

  lemma CheckKeeps(s: State, p: nat)
    requires Inv(s) && p in s.procs && s.procs[p].Loaded?
    ensures Inv(AdvanceProc(s, p, s.procs[p]))
  {
    var l := s.procs[p];
    var s' := AdvanceProc(s, p, l);
    assert ProcInv(s, l);
    if p in s'.procs {
      if l.cmd.Send? {
        AdmitProceeds(l.ctx, l.cmd.event, s.server);
      }
      OneProc(s, p, s', s'.procs[p]);
    } else {
      LeaveKeeps(s, p);
    }
  }

  lemma SwapKeeps(s: State, p: nat)
    requires Inv(s) && p in s.procs && s.procs[p].Writing?
    ensures Inv(AdvanceProc(s, p, s.procs[p]))
  {
    assert ProcInv(s, s.procs[p]);
    OneProc(s, p, AdvanceProc(s, p, s.procs[p]), Wrote);
  }

  lemma AdvanceKeeps(s: State, p: nat)
    requires Inv(s) && p in s.procs
    ensures Inv(AdvanceProc(s, p, s.procs[p]))
  {
    match s.procs[p]
    case Opened(_) => LoadKeeps(s, p);
    case Loaded(_, _) => CheckKeeps(s, p);
    case Writing(_) => SwapKeeps(s, p);
    case Wrote => LeaveKeeps(s, p);
    case Sending(_, _, _, _, _) => AdvanceSendingKeeps(s, p);
  }

  lemma DecisionKeepsPoint(d: Context, l: Proc, server: map<EventId, Delivery>, id: EventId, v: Delivery)
    requires l.Sending? && SendingInv(d, l, server)
    requires id in server && server[id].InFlight?
    ensures SendingInv(d, l, server[id := v])
  {
  }

  lemma DecisionKeepsWorld(s: State, id: EventId, v: Delivery)
    requires WorldInv(s) && id in s.server && s.server[id].InFlight?
    ensures WorldInv(s.(server := s.server[id := v]))
  {
  }

  lemma DecisionKeeps(s: State, id: EventId, v: Delivery)
    requires Inv(s) && id in s.server && s.server[id].InFlight?
    ensures Inv(s.(server := s.server[id := v]))
  {
    DecisionKeepsWorld(s, id, v);
    forall p | p in s.procs
      ensures ProcInv(s.(server := s.server[id := v]), s.procs[p])
    {
      assert ProcInv(s, s.procs[p]);
      if s.procs[p].Sending? {
        DecisionKeepsPoint(s.disk.value, s.procs[p], s.server, id, v);
      }
    }
  }

  lemma RespondKeepsPoint(d: Context, l: Proc, server: map<EventId, Delivery>, reply: CliResult)
    requires l.Sending? && SendingInv(d, l, server) && l.pc.Await?
    requires Truthful(reply, server[l.id])
    ensures SendingInv(d, l.(pc := Settled, ctx := SetReceipt(l.ctx, l.id, Settle(l.ctx.events[l.id], reply))), server)
  {
  }

  lemma RespondKeeps(s: State, p: nat, reply: CliResult)
    requires Inv(s) && p in s.procs
    ensures Inv(RespondTo(s, p, s.procs[p], reply))
  {
    var l := s.procs[p];
    var s' := RespondTo(s, p, l, reply);
    assert ProcInv(s, l);
    if s' != s {
      RespondKeepsPoint(s.disk.value, l, s.server, reply);
      OneProc(s, p, s', s'.procs[p]);
    }
  }

  lemma FaultKeepsPoint(d: Context, l: Proc, server: map<EventId, Delivery>)
    requires l.Sending? && SendingInv(d, l, server) && InTry(l.pc)
    ensures SendingInv(d, l.(pc := Handle), server)
  {
  }

  lemma FaultKeeps(s: State, p: nat)
    requires Inv(s) && p in s.procs
    ensures Inv(Exec(s, Fault(p)))
  {
    var l := s.procs[p];
    if l.Sending? && InTry(l.pc) {
      assert ProcInv(s, l);
      FaultKeepsPoint(s.disk.value, l, s.server);
      OneProc(s, p, Exec(s, Fault(p)), l.(pc := Handle));
    } else {
      LeaveKeeps(s, p);
    }
  }

  lemma Preserved(s: State, a: Action)
    requires Inv(s)
    ensures Inv(Exec(s, a))
  {
    match a
    case Acquire(p, cmd) =>
    case Advance(p) => if p in s.procs { AdvanceKeeps(s, p); }
    case Respond(p, reply) => if p in s.procs { RespondKeeps(s, p, reply); }
    case Fault(p) => if p in s.procs { FaultKeeps(s, p); }
    case Crash(p) => if p in s.procs { LeaveKeeps(s, p); }
    case ServerDecides(id, accepts) =>
      if id in s.server && s.server[id].InFlight? {
        DecisionKeeps(s, id, if accepts then DeliveryAccepted else DeliveryRejected);
      }
  }

  lemma {:induction false} RunKeeps(s: State, acts: seq<Action>)
    requires Inv(s)
    ensures Inv(Run(s, acts))
  {
    if acts != [] {
      RunKeeps(s, acts[..|acts| - 1]);
      Preserved(Run(s, acts[..|acts| - 1]), acts[|acts| - 1]);
    }
  }
}

/** Which events `send` lets through and how it reads the reply, written out on the fields of the input. */
module NotifyAdmission {
  import opened Wrappers
  import opened NotifyProtocol
  import opened NotifySafety
  import opened NotifyTheorems

  // ----- admission

  /** The event belongs to this task, has a well-formed id and a status. */
  predicate Addressed(b: Binding, ev: Event) {
    && ev.taskId == Some(b.taskId) && ev.status.Some?
    && ev.id.Some? && 1 <= |ev.id.value| <= 96
    && forall c :: c in ev.id.value ==>
         'A' <= c <= 'Z' || 'a' <= c <= 'z' || '0' <= c <= '9' || c == '_' || c == '-'
  }

  /** The event is addressed to this task, has an authorised status and a complete text. */
  predicate Acceptable(b: Binding, ev: Event) {
    && Addressed(b, ev) && ev.status.value in b.allowedStates
    && NonemptyField(ev.title) && NonemptyField(ev.summary) && NonemptyField(ev.nextAction)
    && forall c :: c in ev.title.value ==> c != '\n' && c != '\r'
  }

  /** The receipt says that preflight did not get through and no send was started. */
  predicate Unsent(r: Receipt) {
    r.outcome == NotSent && (r.reason == PreflightFailed || r.reason == PreflightInterrupted) && !r.sendStarted
  }

  /** No final claim stands, or one that a retry of `id` releases: no other final event got past preflight. */
  predicate ClaimOpen(d: Context, id: EventId, status: Status) {
    || d.terminal == None
    || (&& id in d.events && d.terminal == Some(status)
        && forall k :: k in d.events && k != id
                       && (d.events[k].status == Completed || d.events[k].status == Failed) ==>
             d.events[k].reason == PreflightFailed || d.events[k].reason == PreflightInterrupted)
  }

  predicate Ready(d: Context) {
    ValidBinding(d.binding) && d.version == 1
  }

  predicate Admissible(d: Context, ev: Event) {
    && Ready(d) && d.enabled && Acceptable(d.binding, ev)
    && (ev.id.value in d.events ==>
          d.events[ev.id.value].status == ev.status.value && Unsent(d.events[ev.id.value]))
    && ClaimOpen(d, ev.id.value, ev.status.value)
  }

  lemma OpaqueIff(b: Binding, ev: Event)
    requires ev.id.Some? && ev.status.Some? && ev.taskId == Some(b.taskId)
    ensures Opaque(ev.id.value) <==> Addressed(b, ev)
  {
    var s := ev.id.value;
    if Addressed(b, ev) {
      assert forall i :: 0 <= i < |s| ==> s[i] in s;
    }
  }

  lemma TextIff(ev: Event)
    ensures ValidText(ev) <==>
            && NonemptyField(ev.title) && NonemptyField(ev.summary) && NonemptyField(ev.nextAction)
            && forall c :: c in ev.title.value ==> c != '\n' && c != '\r'
  {
  }

  lemma ReleaseIff(d: Context, id: EventId, status: Status)
    ensures ClaimOpen(d, id, status) <==>
            (if id in d.events then ReleaseTerminal(d, id, status) else d).terminal == None
  {
  }

  /** A message is admitted exactly when the event is admissible; the file then gains its fresh receipt only. */
  lemma ProceedIff(d: Context, ev: Event)
    ensures Check(d, ev).Proceed? <==> Admissible(d, ev)
    ensures Admissible(d, ev) ==>
              var v := Check(d, ev);
              && v.id == ev.id.value && v.status == ev.status.value
              && v.ctx == d.(terminal := None, events := d.events[v.id :=
                   Receipt(v.status, NotSent, PreflightInterrupted, MessageKey(d.binding, v.id), false, None)])
  {
    TextIff(ev);
    if ev.id.Some? && ev.status.Some? && ev.taskId == Some(d.binding.taskId) {
      OpaqueIff(d.binding, ev);
      ReleaseIff(d, ev.id.value, ev.status.value);
    }
  }

  /** The other two answers: a disabled context, and an event already reported. */
  lemma AnsweredIff(d: Context, ev: Event)
    ensures Check(d, ev).SwitchedOff? <==> Ready(d) && Addressed(d.binding, ev) && !d.enabled
    ensures Check(d, ev).Duplicate? <==>
            && Ready(d) && Addressed(d.binding, ev) && d.enabled && ev.status.value in d.binding.allowedStates
            && ev.id.value in d.events && d.events[ev.id.value].status == ev.status.value
            && !Unsent(d.events[ev.id.value])
    ensures Check(d, ev).Duplicate? ==> Check(d, ev).receipt == d.events[ev.id.value]
  {
    if ev.id.Some? && ev.status.Some? && ev.taskId == Some(d.binding.taskId) {
      OpaqueIff(d.binding, ev);
    }
  }

  // ----- the reply

  /** The receipt is what the fields of the reply say. */
  ghost predicate SettledBy(r: Receipt, reply: CliResult) {
    && (r.outcome == Accepted <==>
        && reply.ok && NonemptyField(reply.messageId)
        && (reply.accepted == Some(true) || reply.finalAcceptance == Some(true)))
    && (r.outcome == NotSent <==>
        r.outcome != Accepted && reply.accepted == Some(false) && reply.finalAcceptance == Some(false))
    && (r.outcome == Accepted ==> r.reason == ServerAccepted && r.messageId == reply.messageId)
    && (r.outcome == NotSent ==> r.reason == ExplicitRejection)
    && (r.outcome == PendingConfirmation ==> r.reason == AcceptanceUnconfirmed)
  }

  lemma SettleIff(r: Receipt, reply: CliResult)
    ensures SettledBy(Settle(r, reply), reply)
    ensures var t := Settle(r, reply); t.status == r.status && t.key == r.key && t.sendStarted == r.sendStarted
  {
  }

  // ----- every message that leaves is authorised

  /** The binding authorises messages of this status between these parties. */
  predicate Entitled(b: Binding, status: Status) {
    && b.authorized && status in b.allowedStates
    && "did:" <= b.senderDid && "did:" <= b.receiverDid && "/" <= b.workspace
  }

  predicate EntitledStart(s: State, i: nat)
    requires i < |s.starts|
  {
    s.disk.Some? && Entitled(s.disk.value.binding, s.starts[i].status)
  }

  ghost predicate EntitledInv(s: State) {
    && (forall i :: 0 <= i < |s.starts| ==> EntitledStart(s, i))
    && (forall p :: p in s.procs && s.procs[p].Sending? ==> Entitled(s.procs[p].ctx.binding, s.procs[p].status))
  }

  lemma NextEntitled(l: Proc)
    requires l.Sending?
    ensures NextPoint(l).Sending? && NextPoint(l).status == l.status && NextPoint(l).ctx.binding == l.ctx.binding
  {
  }

  lemma EffectEntitled(s: State, l: Proc)
    requires l.Sending? && s.disk.Some? && SendingInv(s.disk.value, l, s.server) && Entitled(l.ctx.binding, l.status)
    requires forall i :: 0 <= i < |s.starts| ==> EntitledStart(s, i)
    ensures var s' := Effect(s, l); forall i :: 0 <= i < |s'.starts| ==> EntitledStart(s', i)
  {
    var s' := Effect(s, l);
    forall i | 0 <= i < |s'.starts| ensures EntitledStart(s', i) {
      if i < |s.starts| {
        assert EntitledStart(s, i);
      }
    }
  }

  lemma MovedEntitled(s: State, s': State, p: nat, l': Proc)
    requires (forall i :: 0 <= i < |s.starts| ==> EntitledStart(s, i)) && s'.starts == s.starts && s'.disk == s.disk
    requires forall q :: q in s.procs && s.procs[q].Sending? ==> Entitled(s.procs[q].ctx.binding, s.procs[q].status)
    requires s'.procs == s.procs[p := l'] || s'.procs == s.procs - {p}
    requires l'.Sending? ==> Entitled(l'.ctx.binding, l'.status)
    ensures EntitledInv(s')
  {
    forall i | 0 <= i < |s'.starts| ensures EntitledStart(s', i) {
      assert EntitledStart(s, i);
    }
  }

  lemma SendingEntitled(s: State, p: nat)
    requires Inv(s) && EntitledInv(s) && p in s.procs && s.procs[p].Sending?
    ensures EntitledInv(AdvanceSending(s, p, s.procs[p]))
  {
    var l := s.procs[p];
    assert ProcInv(s, l);
    NextEntitled(l);
    EffectEntitled(s, l);
    MovedEntitled(if l.pc.FinalWritten? then s else Effect(s, l), AdvanceSending(s, p, l), p, NextPoint(l));
  }

  lemma CheckEntitled(d: Context, ev: Event)
    requires Check(d, ev).Proceed?
    ensures Entitled(d.binding, Check(d, ev).status) && Check(d, ev).ctx.binding == d.binding
  {
    ProceedIff(d, ev);
  }

  lemma LoadedEntitled(s: State, p: nat)
    requires Inv(s) && EntitledInv(s) && p in s.procs && s.procs[p].Loaded?
    ensures EntitledInv(AdvanceProc(s, p, s.procs[p]))
  {
    var l := s.procs[p];
    if l.cmd.Send? {
      CheckedEntitled(s, p, Check(l.ctx, l.cmd.event));
    } else {
      var s' := AdvanceProc(s, p, l);
      forall i | 0 <= i < |s.starts| ensures EntitledStart(s', i) {
        assert EntitledStart(s, i);
      }
    }
  }

  lemma CheckedEntitled(s: State, p: nat, v: Verdict)
    requires EntitledInv(s) && p in s.procs && s.procs[p].Loaded? && s.procs[p].cmd.Send?
    requires v == Check(s.procs[p].ctx, s.procs[p].cmd.event)
    ensures EntitledInv(AdvanceProc(s, p, s.procs[p]))
  {
    var l := s.procs[p];
    var s' := AdvanceProc(s, p, l);
    if v.Proceed? {
      CheckEntitled(l.ctx, l.cmd.event);
      assert s' == Go(s, p, Sending(v.id, v.status, RecordWrite, v.ctx, false));
    } else {
      assert s' == Leave(s, p);
    }
    forall i | 0 <= i < |s.starts| ensures EntitledStart(s', i) {
      assert EntitledStart(s, i);
    }
  }

  lemma OtherEntitled(s: State, p: nat)
    requires Inv(s) && EntitledInv(s) && p in s.procs && !s.procs[p].Loaded? && !s.procs[p].Sending?
    ensures EntitledInv(AdvanceProc(s, p, s.procs[p]))
  {
    var l := s.procs[p];
    assert ProcInv(s, l);
    var s' := AdvanceProc(s, p, l);
    forall i | 0 <= i < |s.starts| ensures EntitledStart(s', i) {
      assert EntitledStart(s, i);
    }
  }

  lemma AdvanceEntitled(s: State, p: nat)
    requires Inv(s) && EntitledInv(s) && p in s.procs
    ensures EntitledInv(AdvanceProc(s, p, s.procs[p]))
  {
    match s.procs[p]
    case Sending(_, _, _, _, _) => SendingEntitled(s, p);
    case Loaded(_, _) => LoadedEntitled(s, p);
    case _ => OtherEntitled(s, p);
  }

  lemma StepEntitled(s: State, a: Action)
    requires Inv(s) && EntitledInv(s)
    ensures EntitledInv(Exec(s, a))
  {
    if a.Advance? && a.p in s.procs {
      AdvanceEntitled(s, a.p);
    } else {
      var s' := Exec(s, a);
      forall i | 0 <= i < |s'.starts| ensures EntitledStart(s', i) {
        assert EntitledStart(s, i);
      }
    }
  }

  lemma {:induction false} RunEntitled(s: State, acts: seq<Action>)
    requires Init(s)
    ensures EntitledInv(Run(s, acts))
  {
    if acts != [] {
      RunEntitled(s, acts[..|acts| - 1]);
      InitKeeps(s, acts[..|acts| - 1]);
      StepEntitled(Run(s, acts[..|acts| - 1]), acts[|acts| - 1]);
    }
  }

  /** Over every run, each message that left has a status its task is authorised to report. */
  lemma StartsAreAuthorised(s: State, acts: seq<Action>, i: nat)
    requires Init(s) && i < |Run(s, acts).starts|
    ensures var t := Run(s, acts); t.disk.Some? && Entitled(t.disk.value.binding, t.starts[i].status)
  {
    RunEntitled(s, acts);
    assert EntitledStart(Run(s, acts), i);
  }
}

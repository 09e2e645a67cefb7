/** When a task can still report, and when a stored failure can be retried. */
module NotifyReporting {
  import opened Wrappers
  import opened NotifyProtocol
  import opened NotifySafety
  import opened NotifyTheorems
  import opened NotifyAdmission

  // ----- contexts that began with `enable`

  /** `terminal` stands for a started event, and a receipt without a started send is retryable. */
  ghost predicate Claims(c: Context) {
    && c.version == 1 && ValidBinding(c.binding)
    && (c.terminal.Some? ==>
          exists e :: e in c.events && c.terminal == Some(c.events[e].status) && c.events[e].sendStarted)
    && forall e :: e in c.events ==> c.events[e].sendStarted || Retryable(c.events[e])
  }

  ghost predicate ProcClaims(l: Proc) {
    match l
    case Writing(ctx) => Claims(ctx)
    case Sending(id, _, _, ctx, _) => id in ctx.events && (ctx.events[id].sendStarted || Retryable(ctx.events[id]))
    case _ => true
  }

  ghost predicate ClaimsInv(s: State) {
    && (s.disk.Some? ==> Claims(s.disk.value))
    && forall p :: p in s.procs ==> ProcClaims(s.procs[p])
  }

  lemma WriteClaims(d: Context, l: Proc, server: map<EventId, Delivery>)
    requires l.Sending? && IsWrite(l.pc) && SendingInv(d, l, server)
    requires Claims(d) && ProcClaims(l)
    ensures Claims(l.ctx)
  {
  }

  lemma NextClaims(d: Context, l: Proc, server: map<EventId, Delivery>)
    requires l.Sending? && SendingInv(d, l, server) && ProcClaims(l)
    ensures ProcClaims(NextPoint(l))
  {
  }

  lemma AdvanceFileClaims(s: State, p: nat)
    requires Inv(s) && ClaimsInv(s) && p in s.procs
    ensures var s' := AdvanceProc(s, p, s.procs[p]); s'.disk.Some? ==> Claims(s'.disk.value)
  {
    var l := s.procs[p];
    assert ProcInv(s, l) && ProcClaims(l);
    if l.Sending? && IsWrite(l.pc) {
      WriteClaims(s.disk.value, l, s.server);
    }
  }

  lemma AdvanceSendingClaims(s: State, p: nat)
    requires Inv(s) && ClaimsInv(s) && p in s.procs && s.procs[p].Sending?
    ensures var s' := AdvanceProc(s, p, s.procs[p]); p in s'.procs ==> ProcClaims(s'.procs[p])
  {
    var l := s.procs[p];
    assert ProcInv(s, l) && ProcClaims(l);
    NextClaims(s.disk.value, l, s.server);
  }

  lemma AdvanceProcClaims(s: State, p: nat)
    requires Inv(s) && ClaimsInv(s) && p in s.procs && !s.procs[p].Sending?
    ensures var s' := AdvanceProc(s, p, s.procs[p]); p in s'.procs ==> ProcClaims(s'.procs[p])
  {
    var l := s.procs[p];
    assert ProcInv(s, l) && ProcClaims(l);
  }

  lemma OthersStay(s: State, p: nat, q: nat)
    requires p in s.procs && q != p
    ensures var s' := AdvanceProc(s, p, s.procs[p]); q in s'.procs ==> q in s.procs && s'.procs[q] == s.procs[q]
  {
  }

  lemma StepClaims(s: State, a: Action)
    requires Inv(s) && ClaimsInv(s)
    ensures ClaimsInv(Exec(s, a))
  {
    match a
    case Advance(p) =>
      if p in s.procs {
        AdvanceFileClaims(s, p);
        if s.procs[p].Sending? {
          AdvanceSendingClaims(s, p);
        } else {
          AdvanceProcClaims(s, p);
        }
        forall q | q != p { OthersStay(s, p, q); }
      }
    case Respond(p, reply) =>
      if p in s.procs {
        assert ProcInv(s, s.procs[p]) && ProcClaims(s.procs[p]);
      }
    case _ =>
  }

  lemma {:induction false} RunClaims(acts: seq<Action>)
    ensures Inv(Run(NO_CONTEXT, acts)) && ClaimsInv(Run(NO_CONTEXT, acts))
  {
    InitKeeps(NO_CONTEXT, acts);
    if acts != [] {
      RunClaims(acts[..|acts| - 1]);
      StepClaims(Run(NO_CONTEXT, acts[..|acts| - 1]), acts[|acts| - 1]);
    }
  }

  /** `terminal` is set only while some event of that status has its send started. */
  lemma TerminalNeedsStartedEvent(acts: seq<Action>)
    requires Run(NO_CONTEXT, acts).disk.Some?
    ensures var d := Run(NO_CONTEXT, acts).disk.value;
            d.terminal.Some? ==>
              exists e :: e in d.events && d.terminal == Some(d.events[e].status) && d.events[e].sendStarted
  {
    RunClaims(acts);
  }

  // ----- a send without faults

  function Advances(p: nat, n: nat): seq<Action> {
    seq(n, i => Advance(p))
  }

  /** One undisturbed `send`, up to the moment its message leaves. */
  function QuietSend(p: nat, ev: Event): seq<Action> {
    [Acquire(p, Send(ev))] + Advances(p, 10)
  }

  lemma RunThen(s: State, acts: seq<Action>, a: Action)
    ensures Run(s, acts + [a]) == Exec(Run(s, acts), a)
  {
    assert (acts + [a])[..|acts + [a]| - 1] == acts;
  }

  lemma {:induction false} RunAdvances(s: State, p: nat, n: nat)
    requires n > 0
    ensures Run(s, Advances(p, n)) == Run(Exec(s, Advance(p)), Advances(p, n - 1))
  {
    assert Advances(p, n) == [Advance(p)] + Advances(p, n - 1);
    RunSplit(s, [Advance(p)], Advances(p, n - 1));
    assert [Advance(p)][..0] == [];
    assert Run(s, [Advance(p)]) == Exec(Run(s, []), Advance(p));
  }

  lemma AcquireFirst(s: State, p: nat, cmd: Command, n: nat)
    ensures Run(s, [Acquire(p, cmd)] + Advances(p, n)) == Run(Exec(s, Acquire(p, cmd)), Advances(p, n))
  {
    var a := Acquire(p, cmd);
    RunSplit(s, [a], Advances(p, n));
    assert [a] == [] + [a];
    RunThen(s, [], a);
  }

  lemma {:induction false} AbsentIdles(s: State, p: nat, n: nat)
    requires p !in s.procs
    ensures Run(s, Advances(p, n)) == s
  {
    if n > 0 {
      RunAdvances(s, p, n);
      AbsentIdles(s, p, n - 1);
    }
  }

  lemma RunSending(s: State, p: nat, n: nat, s': State)
    requires p in s.procs && s.procs[p].Sending? && !s.procs[p].pc.FinalWritten? && n > 0
    requires s' == Go(Effect(s, s.procs[p]), p, NextPoint(s.procs[p]))
    ensures Run(s, Advances(p, n)) == Run(s', Advances(p, n - 1))
  {
    RunAdvances(s, p, n);
  }

  lemma ToClaim(s: State, p: nat, n: nat)
    requires p in s.procs && s.procs[p].Sending? && s.procs[p].pc.RecordWrite? && n >= 3
    ensures var l := s.procs[p];
            Run(s, Advances(p, n)) ==
            Run(Go(Store(s, l.ctx), p, l.(pc := Claim, transmitting := false)), Advances(p, n - 3))
  {
    var l := s.procs[p];
    var s1 := Go(Store(s, l.ctx), p, l.(pc := RecordWritten));
    var s2 := Go(s1, p, l.(pc := Preflight, transmitting := false));
    var s3 := Go(s2, p, l.(pc := Claim, transmitting := false));
    RunSending(s, p, n, s1);
    RunSending(s1, p, n - 1, s2);
    RunSending(s2, p, n - 2, s3);
    assert s3.procs == s.procs[p := l.(pc := Claim, transmitting := false)];
  }

  function ClaimedContext(l: Proc): Context
    requires l.Sending? && l.id in l.ctx.events
  {
    var ctx := SetReceipt(l.ctx, l.id, ClaimedReceipt(l.ctx.events[l.id]));
    if IsTerminal(l.status) then ctx.(terminal := Some(l.status)) else ctx
  }

  lemma ToClaimWrite(s: State, p: nat, n: nat)
    requires p in s.procs && s.procs[p].Sending? && s.procs[p].pc.Claim? && n >= 2
    requires s.procs[p].id in s.procs[p].ctx.events
    ensures var l := s.procs[p];
            Run(s, Advances(p, n)) ==
            Run(Go(s, p, l.(pc := ClaimWrite, ctx := ClaimedContext(l))), Advances(p, n - 2))
  {
    var l := s.procs[p];
    var s1 := Go(s, p, NextPoint(l));
    var s2 := Go(s1, p, l.(pc := ClaimWrite, ctx := ClaimedContext(l)));
    RunSending(s, p, n, s1);
    RunSending(s1, p, n - 1, s2);
    assert s2.procs == s.procs[p := l.(pc := ClaimWrite, ctx := ClaimedContext(l))];
  }

  lemma ClaimWriteLaunches(s: State, p: nat)
    requires p in s.procs && s.procs[p].Sending? && s.procs[p].pc.ClaimWrite?
    ensures Run(s, Advances(p, 3)).starts == s.starts + [Start(s.procs[p].id, s.procs[p].status)]
  {
    var l := s.procs[p];
    var s1 := Go(Store(s, l.ctx), p, l.(pc := ClaimWritten));
    var s2 := Go(s1, p, l.(pc := Launch, transmitting := true));
    var s3 := Go(Effect(s2, s2.procs[p]), p, l.(pc := Await, transmitting := true));
    RunSending(s, p, 3, s1);
    RunSending(s1, p, 2, s2);
    RunSending(s2, p, 1, s3);
    assert Advances(p, 0) == [];
  }

  /** From its first write, an undisturbed process reaches its send. */
  lemma RecordedLaunches(s: State, p: nat)
    requires p in s.procs && s.procs[p].Sending? && s.procs[p].pc.RecordWrite?
    requires s.procs[p].id in s.procs[p].ctx.events
    ensures Run(s, Advances(p, 8)).starts == s.starts + [Start(s.procs[p].id, s.procs[p].status)]
  {
    var l := s.procs[p].(pc := Claim, transmitting := false);
    ToClaim(s, p, 8);
    var s1 := Go(Store(s, l.ctx), p, l);
    ToClaimWrite(s1, p, 5);
    ClaimWriteLaunches(Go(s1, p, l.(pc := ClaimWrite, ctx := ClaimedContext(l))), p);
  }

  /** Reading the file and passing the checks takes two steps. */
  lemma LoadProceeds(s: State, p: nat, ev: Event, n: nat)
    requires s.lock == None && s.procs == map[] && s.disk.Some? && Check(s.disk.value, ev).Proceed? && n >= 2
    ensures var v := Check(s.disk.value, ev);
            Run(Exec(s, Acquire(p, Send(ev))), Advances(p, n)) ==
            Run(State(s.disk, Some(p), map[p := Sending(v.id, v.status, RecordWrite, v.ctx, false)],
                      s.server, s.starts),
                Advances(p, n - 2))
  {
    var v := Check(s.disk.value, ev);
    var s1 := Exec(s, Acquire(p, Send(ev)));
    RunAdvances(s1, p, n);
    var s2 := Exec(s1, Advance(p));
    assert s2.procs == map[p := Loaded(Send(ev), s.disk.value)];
    RunAdvances(s2, p, n - 1);
    assert Exec(s2, Advance(p)).procs == map[p := Sending(v.id, v.status, RecordWrite, v.ctx, false)];
  }

  /** Reading the file and failing the checks takes two steps, and then the process is gone. */
  lemma LoadRefuses(s: State, p: nat, ev: Event, n: nat)
    requires s.lock == None && s.procs == map[] && s.disk.Some? && !Check(s.disk.value, ev).Proceed? && n >= 2
    ensures var t := Run(Exec(s, Acquire(p, Send(ev))), Advances(p, n)); t.starts == s.starts && t.disk == s.disk
  {
    var s1 := Exec(s, Acquire(p, Send(ev)));
    RunAdvances(s1, p, n);
    var s2 := Exec(s1, Advance(p));
    assert s2.procs == map[p := Loaded(Send(ev), s.disk.value)];
    RunAdvances(s2, p, n - 1);
    AbsentIdles(Exec(s2, Advance(p)), p, n - 2);
  }

  lemma AdmittedSendOutcome(s: State, p: nat, ev: Event, v: Verdict)
    requires s.lock == None && s.procs == map[] && s.disk.Some? && v == Check(s.disk.value, ev) && v.Proceed?
    ensures Run(s, QuietSend(p, ev)).starts == s.starts + [Start(v.id, v.status)]
  {
    var l := Sending(v.id, v.status, RecordWrite, v.ctx, false);
    AcquireFirst(s, p, Send(ev), 10);
    LoadProceeds(s, p, ev, 10);
    RecordedLaunches(State(s.disk, Some(p), map[p := l], s.server, s.starts), p);
  }

  lemma RefusedSendOutcome(s: State, p: nat, ev: Event)
    requires s.lock == None && s.procs == map[] && s.disk.Some? && !Check(s.disk.value, ev).Proceed?
    ensures Run(s, QuietSend(p, ev)).starts == s.starts && Run(s, QuietSend(p, ev)).disk == s.disk
  {
    AcquireFirst(s, p, Send(ev), 10);
    LoadRefuses(s, p, ev, 10);
  }

  /** What `SendTransmitsIff` asks of the file and the event. */
  predicate Transmits(d: Context, ev: Event) {
    && d.enabled && Acceptable(d.binding, ev)
    && (ev.id.value in d.events ==>
          d.events[ev.id.value].status == ev.status.value && !d.events[ev.id.value].sendStarted)
    && ClaimOpen(d, ev.id.value, ev.status.value)
  }

  /**
   After any history that began with `enable`, an undisturbed `send` transmits its event exactly
   when the context is enabled, the event is addressed to the task, authorised and complete, its
   own receipt, if any, has the same status and no started send, and the task has no final claim,
   or only one this event may release. Otherwise nothing is sent and the file stays as it was.
   */
  lemma SendTransmitsIff(acts: seq<Action>, p: nat, ev: Event)
    requires Run(NO_CONTEXT, acts).lock == None && Run(NO_CONTEXT, acts).disk.Some?
    ensures var t, u := Run(NO_CONTEXT, acts), Run(NO_CONTEXT, acts + QuietSend(p, ev));
            if Transmits(t.disk.value, ev) then u.starts == t.starts + [Start(ev.id.value, ev.status.value)]
            else u.starts == t.starts && u.disk == t.disk
  {
    var t := Run(NO_CONTEXT, acts);
    RunClaims(acts);
    assert t.procs == map[] by {
      assert forall q :: q !in t.procs;
    }
    RunSplit(NO_CONTEXT, acts, QuietSend(p, ev));
    ProceedIff(t.disk.value, ev);
    AdmissibleIff(t.disk.value, ev);
    var v := Check(t.disk.value, ev);
    if v.Proceed? {
      AdmittedSendOutcome(t, p, ev, v);
    } else {
      RefusedSendOutcome(t, p, ev);
    }
  }

  lemma AdmissibleIff(d: Context, ev: Event)
    requires Claims(d)
    ensures Admissible(d, ev) <==> Transmits(d, ev)
  {
  }

  /** A task none of whose receipts has a started send can still report any acceptable event. */
  lemma UnstartedTaskCanReport(acts: seq<Action>, p: nat, ev: Event)
    requires var t := Run(NO_CONTEXT, acts);
             && t.lock == None && t.disk.Some? && t.disk.value.enabled
             && Acceptable(t.disk.value.binding, ev)
             && (forall e :: e in t.disk.value.events ==> !t.disk.value.events[e].sendStarted)
             && (ev.id.value in t.disk.value.events ==> t.disk.value.events[ev.id.value].status == ev.status.value)
    ensures Run(NO_CONTEXT, acts + QuietSend(p, ev)).starts ==
            Run(NO_CONTEXT, acts).starts + [Start(ev.id.value, ev.status.value)]
  {
    RunClaims(acts);
    SendTransmitsIff(acts, p, ev);
  }

  // ----- the failure that is not retried

  /** `enable`, then a `send` whose claim cannot be written before its message would leave. */
  function FailedClaim(p: nat, b: Binding, ev: Event): seq<Action> {
    [Acquire(p, Enable(Some(b)))] + Advances(p, 3)
    + [Acquire(p, Send(ev))] + Advances(p, 7) + [Fault(p)] + Advances(p, 3)
  }

  lemma EnableOutcome(p: nat, b: Binding)
    requires ValidBinding(b)
    ensures Run(NO_CONTEXT, [Acquire(p, Enable(Some(b)))] + Advances(p, 3)) ==
            NO_CONTEXT.(disk := Some(Context(1, b, true, None, map[])))
  {
    AcquireFirst(NO_CONTEXT, p, Enable(Some(b)), 3);
    var s1 := Exec(NO_CONTEXT, Acquire(p, Enable(Some(b))));
    RunAdvances(s1, p, 3);
    var s2 := Exec(s1, Advance(p));
    RunAdvances(s2, p, 2);
    var s3 := Exec(s2, Advance(p));
    RunAdvances(s3, p, 1);
  }

  /** A lone process at its first write, undisturbed, comes to the write of its claim. */
  lemma RecordedReachesClaimWrite(s: State, p: nat, l: Proc)
    requires l.Sending? && l.pc.Claim? && !l.transmitting && l.id in l.ctx.events
    requires s.procs == map[p := l.(pc := RecordWrite)]
    ensures Run(s, Advances(p, 5)) ==
            s.(disk := Some(l.ctx), procs := map[p := l.(pc := ClaimWrite, ctx := ClaimedContext(l))])
  {
    ToClaim(s, p, 5);
    var s1 := s.(disk := Some(l.ctx), procs := map[p := l]);
    assert s1.procs == s.procs[p := l];
    ToClaimWrite(s1, p, 2);
    assert Advances(p, 0) == [];
    assert s1.procs[p := l.(pc := ClaimWrite, ctx := ClaimedContext(l))] ==
           map[p := l.(pc := ClaimWrite, ctx := ClaimedContext(l))];
  }

  lemma ReachClaimWrite(s: State, p: nat, ev: Event, v: Verdict)
    requires s.lock == None && s.procs == map[] && s.disk.Some?
    requires v == Check(s.disk.value, ev) && v.Proceed?
    ensures v.id in v.ctx.events
    ensures var l := Sending(v.id, v.status, Claim, v.ctx, false);
            Run(s, [Acquire(p, Send(ev))] + Advances(p, 7)) ==
            State(Some(v.ctx), Some(p), map[p := l.(pc := ClaimWrite, ctx := ClaimedContext(l))], s.server, s.starts)
  {
    var l := Sending(v.id, v.status, Claim, v.ctx, false);
    AcquireFirst(s, p, Send(ev), 7);
    LoadProceeds(s, p, ev, 7);
    RecordedReachesClaimWrite(State(s.disk, Some(p), map[p := l.(pc := RecordWrite)], s.server, s.starts), p, l);
  }

  lemma FinalWriteEnds(s: State, p: nat)
    requires s.lock == Some(p) && s.procs.Keys == {p} && s.procs[p].Sending? && s.procs[p].pc.FinalWrite?
    ensures Run(s, Advances(p, 2)) == State(Some(s.procs[p].ctx), None, map[], s.server, s.starts)
  {
    var s1 := Go(Store(s, s.procs[p].ctx), p, s.procs[p].(pc := FinalWritten));
    RunSending(s, p, 2, s1);
    RunAdvances(s1, p, 1);
    assert Advances(p, 0) == [];
    assert s1.procs - {p} == map[];
  }

  lemma FailAtClaimWrite(s: State, p: nat, l: Proc)
    requires s.lock == Some(p) && s.procs == map[p := l] && l.Sending? && l.pc.ClaimWrite?
    requires !l.transmitting && l.id in l.ctx.events
    ensures Run(s, [Fault(p)] + Advances(p, 3)) ==
            State(Some(SetReceipt(l.ctx, l.id, HandledReceipt(l.ctx.events[l.id], false))), None, map[],
                  s.server, s.starts)
  {
    RunSplit(s, [Fault(p)], Advances(p, 3));
    assert [Fault(p)] == [] + [Fault(p)];
    RunThen(s, [], Fault(p));
    var s1 := Go(s, p, l.(pc := Handle));
    var s2 := Go(s1, p, NextPoint(l.(pc := Handle)));
    RunSending(s1, p, 3, s2);
    FinalWriteEnds(s2, p);
  }

  function NewContext(b: Binding): Context {
    Context(1, b, true, None, map[])
  }

  lemma FreshCheck(b: Binding, ev: Event)
    requires ValidBinding(b) && Acceptable(b, ev)
    ensures var id, status := ev.id.value, ev.status.value;
            Check(NewContext(b), ev) == Proceed(id, status, SetReceipt(NewContext(b), id, FreshReceipt(b, id, status)))
  {
    ProceedIff(NewContext(b), ev);
  }

  /** What the failed claim leaves behind. */
  lemma FailedClaimRuns(p: nat, b: Binding, ev: Event, v: Verdict)
    requires ValidBinding(b) && v == Check(NewContext(b), ev) && v.Proceed?
    ensures v.id in v.ctx.events
    ensures var c := ClaimedContext(Sending(v.id, v.status, Claim, v.ctx, false));
            Run(NO_CONTEXT, FailedClaim(p, b, ev)) ==
            State(Some(SetReceipt(c, v.id, HandledReceipt(c.events[v.id], false))), None, map[], map[], [])
  {
    var enable, claim, fail := [Acquire(p, Enable(Some(b)))] + Advances(p, 3),
        [Acquire(p, Send(ev))] + Advances(p, 7), [Fault(p)] + Advances(p, 3);
    assert FailedClaim(p, b, ev) == enable + claim + fail;
    EnableOutcome(p, b);
    var s1 := Run(NO_CONTEXT, enable);
    RunSplit(NO_CONTEXT, enable, claim);
    ReachClaimWrite(s1, p, ev, v);
    var s2 := Run(s1, claim);
    RunSplit(NO_CONTEXT, enable + claim, fail);
    FailAtClaimWrite(s2, p, s2.procs[p]);
  }

  lemma FailedClaimOutcome(p: nat, b: Binding, ev: Event)
    requires ValidBinding(b) && Acceptable(b, ev)
    ensures var id, status := ev.id.value, ev.status.value;
            var receipt := HandledReceipt(ClaimedReceipt(FreshReceipt(b, id, status)), false);
            Run(NO_CONTEXT, FailedClaim(p, b, ev)) ==
            State(Some(Context(1, b, true, ClaimOf(status), map[id := receipt])), None, map[], map[], [])
  {
    var id, status := ev.id.value, ev.status.value;
    var none: map<EventId, Receipt> := map[];
    var first, second := FreshReceipt(b, id, status), ClaimedReceipt(FreshReceipt(b, id, status));
    var third := HandledReceipt(second, false);
    FreshCheck(b, ev);
    FailedClaimRuns(p, b, ev, Check(NewContext(b), ev));
    assert none[id := first][id := second][id := third] == map[id := third];
  }

  /**
   A receipt that reads as a preflight failure is not always retried: when the claim cannot be
   written, the event is stored as `not_sent`/`preflight_failed` with its send marked as
   started, nothing was sent, and no later run ever sends it. If its status is final, no later
   run ever sends anything: the task can never report.
   */
  lemma FailedClaimIsNeverRetried(p: nat, b: Binding, ev: Event, more: seq<Action>)
    requires ValidBinding(b) && Acceptable(b, ev)
    ensures var d := Run(NO_CONTEXT, FailedClaim(p, b, ev)).disk;
            && d.Some? && ev.id.value in d.value.events
            && d.value.events[ev.id.value].outcome.NotSent?
            && d.value.events[ev.id.value].reason.PreflightFailed?
            && d.value.events[ev.id.value].sendStarted
    ensures Run(NO_CONTEXT, FailedClaim(p, b, ev)).starts == []
    ensures var starts := Run(NO_CONTEXT, FailedClaim(p, b, ev) + more).starts;
            && (forall i :: 0 <= i < |starts| ==> starts[i].id != ev.id.value)
            && (IsTerminal(ev.status.value) ==> starts == [])
  {
    var acts := FailedClaim(p, b, ev);
    FailedClaimOutcome(p, b, ev);
    var s := Run(NO_CONTEXT, acts);
    RunSplit(NO_CONTEXT, acts, more);
    InitKeeps(NO_CONTEXT, acts);
    RestsUnsent(s, more, ev.id.value, s.disk.value.events[ev.id.value]);
    if IsTerminal(ev.status.value) {
      OverTaskStaysSilent(NO_CONTEXT, acts, more);
    }
  }
}

/** What the notification runner guarantees over every run, read off the invariant. */
module NotifyTheorems {
  import opened Wrappers
  import opened NotifyProtocol
  import opened NotifySafety

  lemma InitKeeps(s: State, acts: seq<Action>)
    requires Init(s)
    ensures Inv(Run(s, acts))
  {
    RunKeeps(s, acts);
  }

  lemma {:induction false} RunSplit(s: State, acts: seq<Action>, more: seq<Action>)
    ensures Run(s, acts + more) == Run(Run(s, acts), more)
  {
    if more == [] {
      assert acts + more == acts;
    } else {
      var n := |more| - 1;
      assert (acts + more)[..|acts + more| - 1] == acts + more[..n];
      RunSplit(s, acts, more[..n]);
    }
  }

  // ----- how one action moves the file and the messages

  /** The message that leaves between `s` and `s'` is that of `p`, which was about to launch it. */
  ghost predicate Launches(s: State, s': State, p: nat) {
    && p in s.procs && s.procs[p].Sending? && s.procs[p].pc.Launch?
    && s.disk.Some? && SendingInv(s.disk.value, s.procs[p], s.server)
    && s'.starts == s.starts + [Start(s.procs[p].id, s.procs[p].status)]
    && s'.server.Keys == s.server.Keys + {s.procs[p].id}
  }

  lemma AdvanceStarts(s: State, p: nat)
    requires Inv(s) && p in s.procs
    ensures var s' := AdvanceProc(s, p, s.procs[p]);
            (s'.starts == s.starts && s'.server == s.server) || Launches(s, s', p)
  {
    assert ProcInv(s, s.procs[p]);
  }

  lemma StepStarts(s: State, a: Action)
    requires Inv(s)
    ensures var s' := Exec(s, a);
            (s'.starts == s.starts && s'.server.Keys == s.server.Keys) || exists p :: Launches(s, s', p)
  {
    match a
    case Advance(p) => if p in s.procs { AdvanceStarts(s, p); }
    case _ =>
  }

  /** What every write of the file keeps: the binding, and each event's status and identity. */
  ghost predicate Evolves(d: Context, d': Context) {
    && d'.binding == d.binding
    && (!d.enabled ==> !d'.enabled)
    && forall e :: e in d.events ==>
         e in d'.events && d'.events[e].status == d.events[e].status && d'.events[e].key == d.events[e].key
  }

  lemma WriteEvolves(d: Context, l: Proc, server: map<EventId, Delivery>)
    requires l.Sending? && IsWrite(l.pc) && SendingInv(d, l, server) && Consistent(d, server)
    ensures Evolves(d, l.ctx)
  {
  }

  lemma StepEvolves(s: State, a: Action)
    requires Inv(s) && s.disk.Some?
    ensures Exec(s, a).disk.Some? && Evolves(s.disk.value, Exec(s, a).disk.value)
  {
    match a
    case Advance(p) =>
      if p in s.procs {
        var l := s.procs[p];
        assert ProcInv(s, l);
        if l.Sending? && IsWrite(l.pc) {
          WriteEvolves(s.disk.value, l, s.server);
        }
      }
    case _ =>
  }

  lemma {:induction false} RunEvolves(s: State, acts: seq<Action>)
    requires Inv(s) && s.disk.Some?
    ensures Run(s, acts).disk.Some? && Evolves(s.disk.value, Run(s, acts).disk.value)
  {
    if acts != [] {
      RunEvolves(s, acts[..|acts| - 1]);
      RunKeeps(s, acts[..|acts| - 1]);
      StepEvolves(Run(s, acts[..|acts| - 1]), acts[|acts| - 1]);
    }
  }

  // ----- at most one start per event

  /** Every message that leaves during a run had not left before it. */
  lemma {:induction false} StartsAreNew(s: State, acts: seq<Action>)
    requires Inv(s)
    ensures var t := Run(s, acts);
            && s.server.Keys <= t.server.Keys && s.starts <= t.starts
            && forall i :: |s.starts| <= i < |t.starts| ==> t.starts[i].id !in s.server
  {
    if acts != [] {
      var t := Run(s, acts[..|acts| - 1]);
      StartsAreNew(s, acts[..|acts| - 1]);
      RunKeeps(s, acts[..|acts| - 1]);
      StepStarts(t, acts[|acts| - 1]);
    }
  }

  /**
   Each event id begins the mutating send at most once, counting messages sent before the run,
   and a started send is on disk as started.
   */
  lemma AtMostOnce(s: State, acts: seq<Action>)
    requires Init(s)
    ensures var t := Run(s, acts);
            && (forall i, j :: 0 <= i < j < |t.starts| ==> t.starts[i].id != t.starts[j].id)
            && (forall i :: 0 <= i < |t.starts| ==> t.starts[i].id !in s.server)
            && (forall i :: 0 <= i < |t.starts| ==>
                  && t.disk.Some? && t.starts[i].id in t.disk.value.events
                  && t.disk.value.events[t.starts[i].id].sendStarted)
  {
    StartsAreNew(s, acts);
    InitKeeps(s, acts);
  }

  // ----- a final report is the last

  ghost predicate FinalSent(s: State) {
    s.disk.Some? && exists e :: e in s.server && e in s.disk.value.events && IsTerminal(s.disk.value.events[e].status)
  }

  lemma FinalBlocksLaunch(s: State, s': State, p: nat)
    requires Inv(s) && FinalSent(s)
    ensures !Launches(s, s', p)
  {
  }

  lemma StepAfterFinal(s: State, a: Action)
    requires Inv(s) && FinalSent(s)
    ensures Exec(s, a).starts == s.starts && FinalSent(Exec(s, a))
  {
    StepStarts(s, a);
    StepEvolves(s, a);
    forall p { FinalBlocksLaunch(s, Exec(s, a), p); }
    var e :| e in s.server && e in s.disk.value.events && IsTerminal(s.disk.value.events[e].status);
    assert e in Exec(s, a).server;
  }

  lemma {:induction false} RunAfterFinal(s: State, acts: seq<Action>)
    requires Inv(s) && FinalSent(s)
    ensures Run(s, acts).starts == s.starts && FinalSent(Run(s, acts))
  {
    if acts != [] {
      RunAfterFinal(s, acts[..|acts| - 1]);
      RunKeeps(s, acts[..|acts| - 1]);
      StepAfterFinal(Run(s, acts[..|acts| - 1]), acts[|acts| - 1]);
    }
  }

  /** Once a `completed` or `failed` event has begun transmission, nothing is ever sent again. */
  lemma FinalReportIsLast(s: State, acts: seq<Action>, more: seq<Action>, i: nat)
    requires Init(s)
    requires i < |Run(s, acts).starts| && IsTerminal(Run(s, acts).starts[i].status)
    ensures Run(s, acts + more).starts == Run(s, acts).starts
    ensures i == |Run(s, acts).starts| - 1
  {
    var t := Run(s, acts);
    InitKeeps(s, acts);
    RunSplit(s, acts, more);
    assert t.starts[i].id in t.server;
    RunAfterFinal(t, more);
  }

  /** What a longer run adds to a shorter one. */
  lemma RunsOn(s: State, past: seq<Action>, acts: seq<Action>, e: EventId)
    requires Init(s) && past <= acts
    ensures var t, u := Run(s, past), Run(s, acts);
            && (u.disk.Some? && e in u.disk.value.events ==> Honest(u.disk.value.events[e], DeliveryOf(u.server, e)))
            && t.starts <= u.starts
            && (forall i :: |t.starts| <= i < |u.starts| ==> u.starts[i].id !in t.server)
            && (FinalSent(t) ==> u.starts == t.starts)
  {
    assert acts == past + acts[|past|..];
    RunSplit(s, past, acts[|past|..]);
    InitKeeps(s, past);
    InitKeeps(s, acts);
    StartsAreNew(Run(s, past), acts[|past|..]);
    if FinalSent(Run(s, past)) {
      RunAfterFinal(Run(s, past), acts[|past|..]);
    }
  }

  // ----- receipts tell the truth

  /** At every point of every run the stored receipt agrees with what became of the message. */
  lemma ReceiptsAreHonest(s: State, acts: seq<Action>, e: EventId)
    requires Init(s)
    requires Run(s, acts).disk.Some?
    ensures var t := Run(s, acts);
            var events := t.disk.value.events;
            && (e in t.server ==> e in events && !IsPreflight(events[e].reason))
            && (e in t.server && !t.server[e].DeliveryRejected? ==> !events[e].outcome.NotSent?)
            && (e in events && events[e].outcome.Accepted? ==> e in t.server && t.server[e].DeliveryAccepted?)
            && (e in events && events[e].outcome.NotSent? ==> e !in t.server || t.server[e].DeliveryRejected?)
  {
    InitKeeps(s, acts);
    var t := Run(s, acts);
    if e in t.disk.value.events {
      assert Honest(t.disk.value.events[e], DeliveryOf(t.server, e));
    }
  }

  // ----- identity and claimed receipts

  /** An event keeps its status and its message identity through every retry. */
  lemma IdentityIsStable(s: State, acts: seq<Action>, more: seq<Action>, e: EventId)
    requires Init(s)
    requires Run(s, acts).disk.Some? && e in Run(s, acts).disk.value.events
    ensures var d, d' := Run(s, acts).disk.value, Run(s, acts + more).disk;
            && d'.Some? && e in d'.value.events
            && d'.value.events[e].status == d.events[e].status
            && d'.value.events[e].key == d.events[e].key == MessageKey(d.binding, e)
  {
    InitKeeps(s, acts);
    RunSplit(s, acts, more);
    RunEvolves(Run(s, acts), more);
  }

  /** No process is sending `e`, and the file holds exactly the receipt `r` for it, beyond retry. */
  ghost predicate Rests(s: State, e: EventId, r: Receipt) {
    && s.disk.Some? && e in s.disk.value.events && s.disk.value.events[e] == r && !Retryable(r)
    && forall p :: p in s.procs && s.procs[p].Sending? ==> s.procs[p].id != e
  }

  lemma SendingRests(s: State, p: nat, e: EventId, r: Receipt)
    requires Inv(s) && Rests(s, e, r) && p in s.procs && s.procs[p].Sending?
    ensures Rests(AdvanceSending(s, p, s.procs[p]), e, r)
  {
    var ctx := s.procs[p].ctx;
    assert ProcInv(s, s.procs[p]);
    assert e in ctx.events && ctx.events[e] == r;
  }

  lemma AdvanceRests(s: State, p: nat, e: EventId, r: Receipt)
    requires Inv(s) && Rests(s, e, r) && p in s.procs
    ensures Rests(AdvanceProc(s, p, s.procs[p]), e, r)
  {
    var l := s.procs[p];
    assert ProcInv(s, l);
    match l
    case Opened(_) =>
    case Loaded(cmd, ctx) => if cmd.Send? { assert Check(ctx, cmd.event).Proceed? ==> Check(ctx, cmd.event).id != e; }
    case Writing(_) =>
    case Wrote =>
    case Sending(_, _, _, _, _) => SendingRests(s, p, e, r);
  }

  lemma StepRests(s: State, a: Action, e: EventId, r: Receipt)
    requires Inv(s) && Rests(s, e, r)
    ensures Rests(Exec(s, a), e, r)
  {
    if a.Advance? {
      if a.p in s.procs {
        AdvanceRests(s, a.p, e, r);
      }
    }
  }

  lemma {:induction false} RunRests(s: State, acts: seq<Action>, e: EventId, r: Receipt)
    requires Inv(s) && Rests(s, e, r)
    ensures Rests(Run(s, acts), e, r)
  {
    if acts != [] {
      RunRests(s, acts[..|acts| - 1], e, r);
      RunKeeps(s, acts[..|acts| - 1]);
      StepRests(Run(s, acts[..|acts| - 1]), acts[|acts| - 1], e, r);
    }
  }

  /** While `e` rests, nothing starts it. */
  lemma {:induction false} RestsUnsent(s: State, acts: seq<Action>, e: EventId, r: Receipt)
    requires Inv(s) && Rests(s, e, r)
    ensures s.starts <= Run(s, acts).starts
    ensures forall i :: |s.starts| <= i < |Run(s, acts).starts| ==> Run(s, acts).starts[i].id != e
  {
    if acts != [] {
      var t := Run(s, acts[..|acts| - 1]);
      RestsUnsent(s, acts[..|acts| - 1], e, r);
      RunRests(s, acts[..|acts| - 1], e, r);
      RunKeeps(s, acts[..|acts| - 1]);
      StepStarts(t, acts[|acts| - 1]);
    }
  }

  /** A receipt that is not retryable is never replaced once its own process is gone. */
  lemma SettledReceiptIsFinal(s: State, acts: seq<Action>, more: seq<Action>, e: EventId)
    requires Init(s)
    requires var t := Run(s, acts);
             t.lock == None && t.disk.Some? && e in t.disk.value.events && !Retryable(t.disk.value.events[e])
    ensures var d, d' := Run(s, acts).disk.value, Run(s, acts + more).disk;
            d'.Some? && e in d'.value.events && d'.value.events[e] == d.events[e]
  {
    var t := Run(s, acts);
    InitKeeps(s, acts);
    RunSplit(s, acts, more);
    RunRests(t, more, e, t.disk.value.events[e]);
  }

  // ----- a disabled task stays silent

  lemma StepDisabled(s: State, a: Action)
    requires Inv(s) && s.disk.Some? && !s.disk.value.enabled
    ensures Exec(s, a).starts == s.starts
    ensures Exec(s, a).disk.Some? && Exec(s, a).disk.value.events == s.disk.value.events
  {
    StepStarts(s, a);
    match a
    case Advance(p) =>
      if p in s.procs {
        assert ProcInv(s, s.procs[p]);
      }
    case _ =>
  }

  lemma {:induction false} RunDisabled(s: State, acts: seq<Action>)
    requires Inv(s) && s.disk.Some? && !s.disk.value.enabled
    ensures var t := Run(s, acts);
            t.starts == s.starts && t.disk.Some? && !t.disk.value.enabled
            && t.disk.value.events == s.disk.value.events
  {
    if acts != [] {
      RunDisabled(s, acts[..|acts| - 1]);
      RunKeeps(s, acts[..|acts| - 1]);
      StepDisabled(Run(s, acts[..|acts| - 1]), acts[|acts| - 1]);
      StepEvolves(Run(s, acts[..|acts| - 1]), acts[|acts| - 1]);
    }
  }

  /** A disabled context never transmits again, and keeps its receipts as they are. */
  lemma DisabledStaysSilent(s: State, acts: seq<Action>, more: seq<Action>)
    requires Init(s)
    requires Run(s, acts).disk.Some? && !Run(s, acts).disk.value.enabled
    ensures var t, u := Run(s, acts), Run(s, acts + more);
            u.starts == t.starts && u.disk.Some? && !u.disk.value.enabled
            && u.disk.value.events == t.disk.value.events
  {
    InitKeeps(s, acts);
    RunSplit(s, acts, more);
    RunDisabled(Run(s, acts), more);
  }

  // ----- a claimed task with nothing left to retry is over

  ghost predicate IsOver(d: Context) {
    d.terminal.Some? && forall e :: e in d.events ==> !Retryable(d.events[e])
  }

  ghost predicate Over(s: State) {
    s.disk.Some? && IsOver(s.disk.value) && forall p :: p in s.procs ==> !s.procs[p].Sending?
  }

  lemma OverRefuses(d: Context, ev: Event)
    requires IsOver(d)
    ensures !Check(d, ev).Proceed?
  {
  }

  lemma CheckOver(s: State, p: nat, ev: Event)
    requires Inv(s) && Over(s) && p in s.procs && s.procs[p].Loaded? && s.procs[p].cmd == Send(ev)
    ensures AdvanceProc(s, p, s.procs[p]) == Leave(s, p)
  {
    assert ProcInv(s, s.procs[p]);
    OverRefuses(s.disk.value, ev);
  }

  lemma AdvanceOver(s: State, p: nat)
    requires Inv(s) && Over(s) && p in s.procs
    ensures Over(AdvanceProc(s, p, s.procs[p])) && AdvanceProc(s, p, s.procs[p]).starts == s.starts
  {
    var l := s.procs[p];
    if l.Loaded? && l.cmd.Send? {
      CheckOver(s, p, l.cmd.event);
    } else {
      assert ProcInv(s, l);
    }
  }

  lemma StepOver(s: State, a: Action)
    requires Inv(s) && Over(s)
    ensures Over(Exec(s, a)) && Exec(s, a).starts == s.starts
  {
    if a.Advance? && a.p in s.procs {
      AdvanceOver(s, a.p);
    }
  }

  lemma {:induction false} RunOver(s: State, acts: seq<Action>)
    requires Inv(s) && Over(s)
    ensures Over(Run(s, acts)) && Run(s, acts).starts == s.starts
  {
    if acts != [] {
      RunOver(s, acts[..|acts| - 1]);
      RunKeeps(s, acts[..|acts| - 1]);
      StepOver(Run(s, acts[..|acts| - 1]), acts[|acts| - 1]);
    }
  }

  /** With a final claim on disk and no retryable receipt, no continuation ever sends anything. */
  lemma OverTaskStaysSilent(s: State, acts: seq<Action>, more: seq<Action>)
    requires Init(s)
    requires var t := Run(s, acts); t.lock == None && t.disk.Some? && IsOver(t.disk.value)
    ensures var t, u := Run(s, acts), Run(s, acts + more);
            u.starts == t.starts && u.disk.Some? && IsOver(u.disk.value)
  {
    InitKeeps(s, acts);
    RunSplit(s, acts, more);
    RunOver(Run(s, acts), more);
  }
}

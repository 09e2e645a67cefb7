/**
 The runner as the program writes it: one object whose methods update the context in place and
 swap the context file. Every statement is logged as an action, and the object always equals
 the run of its log, so the theorems about runs hold of it.
 */
module NotifyRunner {
  import opened Wrappers
  import opened NotifyProtocol
  import opened NotifySafety
  import opened NotifyTheorems
  import opened NotifyAdmission
  import opened NotifyReporting

  /** What happens at a point: the next statement runs, an exception surfaces, or the process dies. */
  datatype Fate = Carry | Raise | Die

  /** Everything `send` meets: a fate per point, what the server decided, and its reply if one came. */
  datatype Environment = Environment(
    early: Fate, fates: Pc -> Fate, decision: Option<bool>, reply: Option<CliResult>)

  function Decided(decision: Option<bool>): Delivery {
    match decision
    case None => InFlight
    case Some(yes) => if yes then DeliveryAccepted else DeliveryRejected
  }

  ghost predicate Believable(env: Environment) {
    env.reply.Some? ==> Truthful(env.reply.value, Decided(env.decision))
  }

  /** Nothing goes wrong and a reply comes. */
  ghost predicate Calm(env: Environment) {
    env.early.Carry? && env.reply.Some? && forall pc :: env.fates(pc).Carry?
  }

  datatype Reply =
    | Unavailable
    | NotEnabled
    | AlreadyReported(receipt: Receipt)
    | Reported(receipt: Receipt)
    | Killed

  datatype Ending = Finished | Raised | Dead

  /** The state in which `l` is the only process inside. */
  function Lone(file: Option<Context>, p: nat, l: Proc, server: map<EventId, Delivery>, starts: seq<Start>): State {
    State(file, Some(p), map[p := l], server, starts)
  }

  function Empty(file: Option<Context>, server: map<EventId, Delivery>, starts: seq<Start>): State {
    State(file, None, map[], server, starts)
  }

  lemma LoneAdvances(s: State, p: nat, l: Proc)
    requires l.Sending? && !l.pc.FinalWritten? && s.procs == map[p := l]
    ensures Exec(s, Advance(p)) == Effect(s, l).(procs := map[p := NextPoint(l)])
  {
    assert s.procs[p := NextPoint(l)] == map[p := NextPoint(l)];
  }

  lemma LoneLeaves(s: State, p: nat, l: Proc)
    requires s.procs == map[p := l]
    ensures Leave(s, p) == s.(procs := map[], lock := None)
  {
    assert s.procs - {p} == map[];
  }

  lemma LoneFaults(s: State, p: nat, l: Proc)
    requires l.Sending? && s.procs == map[p := l]
    ensures Exec(s, Fault(p)) ==
            if InTry(l.pc) then s.(procs := map[p := l.(pc := Handle)]) else s.(procs := map[], lock := None)
  {
    assert s.procs[p := l.(pc := Handle)] == map[p := l.(pc := Handle)];
    LoneLeaves(s, p, l);
  }

  lemma LoneHears(s: State, p: nat, l: Proc, reply: CliResult)
    requires l.Sending? && l.pc.Await? && l.id in l.ctx.events && s.procs == map[p := l]
    requires l.id in s.server && Truthful(reply, s.server[l.id])
    ensures Exec(s, Respond(p, reply)) ==
            s.(procs := map[p := l.(pc := Settled, ctx := SetReceipt(l.ctx, l.id, Settle(l.ctx.events[l.id], reply)))])
  {
    var l' := l.(pc := Settled, ctx := SetReceipt(l.ctx, l.id, Settle(l.ctx.events[l.id], reply)));
    assert s.procs[p := l'] == map[p := l'];
  }

  lemma EmptyOpens(s: State, p: nat, c: Command)
    requires s.lock == None && s.procs == map[]
    ensures Exec(s, Acquire(p, c)) == s.(lock := Some(p), procs := map[p := Opened(c)])
  {
  }

  lemma OpenedLoads(s: State, p: nat, ev: Event)
    requires s.procs == map[p := Opened(Command.Send(ev))]
    ensures Exec(s, Advance(p)) ==
            if s.disk.None? then s.(procs := map[], lock := None)
            else s.(procs := map[p := Loaded(Command.Send(ev), s.disk.value)])
  {
    LoneLeaves(s, p, s.procs[p]);
    if s.disk.Some? {
      var l' := Loaded(Command.Send(ev), s.disk.value);
      assert s.procs[p := l'] == map[p := l'];
    }
  }

  lemma LoadedDecides(s: State, p: nat, ev: Event, ctx: Context)
    requires s.procs == map[p := Loaded(Command.Send(ev), ctx)]
    ensures var v := Check(ctx, ev);
            Exec(s, Advance(p)) ==
            if v.Proceed? then s.(procs := map[p := Sending(v.id, v.status, RecordWrite, v.ctx, false)])
            else s.(procs := map[], lock := None)
  {
    LoneLeaves(s, p, s.procs[p]);
    var v := Check(ctx, ev);
    if v.Proceed? {
      var l' := Sending(v.id, v.status, RecordWrite, v.ctx, false);
      assert s.procs[p := l'] == map[p := l'];
    }
  }

  lemma OpenedStops(s: State, p: nat, c: Command, a: Action)
    requires s.procs == map[p := Opened(c)] && a in {Fault(p), Crash(p)}
    ensures Exec(s, a) == s.(procs := map[], lock := None)
  {
    LoneLeaves(s, p, Opened(c));
  }

  /** The claim of a send: its receipt is pending with the send started, and a final status is `terminal`. */
  ghost predicate ClaimedBy(c: Context, id: EventId, status: Status, before: Context) {
    && id in c.events && c.events[id].outcome == PendingConfirmation && c.events[id].reason == SendStarted
    && c.events[id].sendStarted
    && c.terminal == if status == Completed || status == Failed then Some(status) else before.terminal
  }

  /** What the `except` clause records: a message that may have left is unconfirmed, any other was not sent. */
  ghost predicate CaughtBy(r: Receipt, transmitting: bool) {
    if transmitting then r.outcome == PendingConfirmation && r.reason == SendUnconfirmed
    else r.outcome == NotSent && r.reason == PreflightFailed
  }

  /** What `send` replies when it stops at its checks. */
  function ReplyTo(v: Verdict): Reply {
    match v
    case SwitchedOff => NotEnabled
    case Duplicate(r) => AlreadyReported(r)
    case _ => Unavailable
  }

  /** What `send` replies without sending: switched off, the stored receipt, or an error. */
  ghost predicate RepliesTo(reply: Reply, d: Context, ev: Event) {
    if !Ready(d) || !Addressed(d.binding, ev) then reply == Unavailable
    else if !d.enabled then reply == NotEnabled
    else if && ev.status.value in d.binding.allowedStates && ev.id.value in d.events
            && d.events[ev.id.value].status == ev.status.value && !Unsent(d.events[ev.id.value])
    then reply == AlreadyReported(d.events[ev.id.value])
    else reply == Unavailable
  }

  class Runner {
    var file: Option<Context>
    var context: Context
    var transmitting: bool
    ghost var server: map<EventId, Delivery>
    ghost var starts: seq<Start>
    ghost var origin: State
    ghost var log: seq<Action>

    ghost function Model(): State
      reads this
    {
      Run(origin, log)
    }

    /** Between two invocations: the object is a run from a lawful beginning, with nobody inside. */
    ghost predicate Valid()
      reads this
    {
      Init(origin) && Model() == Empty(file, server, starts)
    }

    /** Process `p` stands at `pc` of `send`. */
    ghost predicate At(p: nat, id: EventId, status: Status, pc: Pc)
      reads this
    {
      && Model() == Lone(file, p, Sending(id, status, pc, context, transmitting), server, starts)
      && id in context.events
    }

    /** Opens on a context file left by earlier invocations, or on none. */
    constructor (found: Option<Context>, ghost sent: map<EventId, Delivery>)
      requires if found.None? then sent == map[] else Consistent(found.value, sent)
      ensures Valid() && file == found && server == sent && starts == [] && log == []
    {
      file := found;
      transmitting := false;
      server := sent;
      starts := [];
      origin := Empty(found, sent, []);
      log := [];
      var blank := Binding("", "", "", "", "", [], false, Normal);
      context := if found.Some? then found.value else Context(1, blank, false, None, map[]);
    }

    ghost method Note(a: Action)
      modifies this`log
      ensures log == old(log) + [a] && Model() == Exec(old(Model()), a)
    {
      log := log + [a];
      RunThen(origin, old(log), a);
    }

    /** The point at `pc` is met: the process goes on, its exception is caught, or it dies. */
    method Meet(p: nat, ghost id: EventId, ghost status: Status, ghost pc: Pc, fate: Fate) returns (end: Ending)
      requires At(p, id, status, pc)
      modifies this`log
      ensures old(log) <= log
      ensures end.Finished? ==> At(p, id, status, pc)
      ensures end.Raised? ==> if InTry(pc) then At(p, id, status, Handle) else Model() == Empty(file, server, starts)
      ensures end.Dead? ==> Model() == Empty(file, server, starts)
      ensures end.Finished? <==> fate.Carry?
    {
      ghost var l := Sending(id, status, pc, context, transmitting);
      ghost var s := Model();
      match fate
      case Carry => end := Finished;
      case Raise =>
        Note(Fault(p));
        LoneFaults(s, p, l);
        end := Raised;
      case Die =>
        Note(Crash(p));
        LoneLeaves(s, p, l);
        end := Dead;
    }

    /** `persist(context)`: the file is swapped, or not, and the call returns, raises or dies. */
    method Persist(p: nat, ghost id: EventId, ghost status: Status, at: Pc, then': Pc, env: Environment)
      returns (end: Ending)
      requires At(p, id, status, at)
      requires (at, then') in {(RecordWrite, RecordWritten), (ClaimWrite, ClaimWritten), (FinalWrite, FinalWritten)}
      modifies this`file, this`log
      ensures old(log) <= log
      ensures file == old(file) || file == Some(context)
      ensures end.Finished? ==> At(p, id, status, then') && file == Some(context)
      ensures Calm(env) ==> end.Finished?
      ensures end.Raised? ==>
                if at.ClaimWrite? then At(p, id, status, Handle) else Model() == Empty(file, server, starts)
      ensures end.Dead? ==> Model() == Empty(file, server, starts)
    {
      end := Meet(p, id, status, at, env.fates(at));
      if end.Finished? {
        Replace(p, id, status, at, then');
        end := Meet(p, id, status, then', env.fates(then'));
      }
    }

    /** The new file takes the place of the old one. */
    method Replace(p: nat, ghost id: EventId, ghost status: Status, ghost at: Pc, ghost then': Pc)
      requires At(p, id, status, at)
      requires (at, then') in {(RecordWrite, RecordWritten), (ClaimWrite, ClaimWritten), (FinalWrite, FinalWritten)}
      modifies this`file, this`log
      ensures old(log) <= log
      ensures At(p, id, status, then') && file == Some(context)
    {
      Log(p, Sending(id, status, at, context, transmitting));
      file := Some(context);
    }

    /** A statement of `send` that changes nothing. */
    method Pass(p: nat, ghost id: EventId, ghost status: Status, ghost at: Pc, ghost then': Pc, fate: Fate)
      returns (end: Ending)
      requires At(p, id, status, at) && (at, then') in {(Preflight, Claim), (Settled, FinalWrite)}
      modifies this`log
      ensures old(log) <= log
      ensures end.Finished? <==> fate.Carry?
      ensures end.Finished? ==> At(p, id, status, then')
      ensures end.Raised? ==> At(p, id, status, Handle)
      ensures end.Dead? ==> Model() == Empty(file, server, starts)
    {
      end := Meet(p, id, status, at, fate);
      if end.Finished? {
        Log(p, Sending(id, status, at, context, transmitting));
      }
    }

    /** The log of one statement of `send`; the statement itself follows each call. */
    ghost method Log(p: nat, l: Proc)
      requires Model().procs == map[p := l] && l.Sending? && !l.pc.FinalWritten?
      modifies this`log
      ensures old(log) <= log && Model() == Effect(old(Model()), l).(procs := map[p := NextPoint(l)])
    {
      LoneAdvances(Model(), p, l);
      Note(Advance(p));
    }

    /** The claim: receipt and `terminal` are changed in memory, then written before the send. */
    method Stake(p: nat, id: EventId, status: Status, env: Environment) returns (end: Ending)
      requires At(p, id, status, Claim)
      modifies this`file, this`context, this`log
      ensures old(log) <= log
      ensures end.Finished? ==> At(p, id, status, ClaimWritten) && file == Some(context)
                                && ClaimedBy(context, id, status, old(context))
      ensures Calm(env) ==> end.Finished?
      ensures end.Raised? ==> At(p, id, status, Handle)
      ensures end.Dead? ==> Model() == Empty(file, server, starts)
    {
      end := Meet(p, id, status, Claim, env.fates(Claim));
      if !end.Finished? { return; }
      Log(p, Sending(id, status, Claim, context, transmitting));
      context := SetReceipt(context, id, ClaimedReceipt(context.events[id]));
      end := Mark(p, id, status, env.fates(MarkTerminal));
      if !end.Finished? { return; }
      end := Persist(p, id, status, ClaimWrite, ClaimWritten, env);
    }

    method Mark(p: nat, ghost id: EventId, status: Status, fate: Fate) returns (end: Ending)
      requires At(p, id, status, MarkTerminal)
      modifies this`context, this`log
      ensures old(log) <= log
      ensures end.Finished? <==> fate.Carry?
      ensures end.Finished? ==> At(p, id, status, ClaimWrite) && context.events == old(context).events
                                && context.terminal == (if status == Completed || status == Failed then Some(status)
                                                        else old(context).terminal)
      ensures end.Raised? ==> At(p, id, status, Handle)
      ensures end.Dead? ==> Model() == Empty(file, server, starts)
    {
      end := Meet(p, id, status, MarkTerminal, fate);
      if !end.Finished? { return; }
      Log(p, Sending(id, status, MarkTerminal, context, transmitting));
      if status.Completed? || status.Failed? {
        context := context.(terminal := Some(status));
      }
    }

    /** The message leaves; the server may decide at once. */
    method Dispatch(p: nat, id: EventId, ghost status: Status, env: Environment) returns (end: Ending)
      requires At(p, id, status, ClaimWritten)
      modifies this`transmitting, this`server, this`starts, this`log
      ensures old(log) <= log
      ensures starts == old(starts) || starts == old(starts) + [Start(id, status)]
      ensures Calm(env) ==> end.Finished?
      ensures end.Finished? ==> starts == old(starts) + [Start(id, status)]
      ensures end.Finished? ==> At(p, id, status, Await) && id in server && server[id] == Decided(env.decision)
      ensures end.Raised? ==> At(p, id, status, Handle)
      ensures end.Dead? ==> Model() == Empty(file, server, starts)
    {
      Log(p, Sending(id, status, ClaimWritten, context, transmitting));
      transmitting := true;
      end := Meet(p, id, status, Launch, env.fates(Launch));
      if !end.Finished? { return; }
      Log(p, Sending(id, status, Launch, context, transmitting));
      server := server[id := InFlight];
      starts := starts + [Start(id, status)];
      if env.decision.Some? {
        Decide(p, Sending(id, status, Await, context, transmitting), env.decision.value);
      }
    }

    ghost method Decide(p: nat, l: Proc, yes: bool)
      requires l.Sending? && l.id in server && server[l.id].InFlight? && Model() == Lone(file, p, l, server, starts)
      modifies this`server, this`log
      ensures old(log) <= log
      ensures server == old(server)[l.id := if yes then DeliveryAccepted else DeliveryRejected]
      ensures Model() == Lone(file, p, l, server, starts)
    {
      Note(ServerDecides(l.id, yes));
      server := server[l.id := if yes then DeliveryAccepted else DeliveryRejected];
    }

    /** Between invocations the server decides on a message it still holds; no process takes part. */
    ghost method DecideLater(id: EventId, yes: bool)
      requires Valid() && id in server && server[id].InFlight?
      modifies this`server, this`log
      ensures Valid() && old(log) <= log
      ensures server == old(server)[id := if yes then DeliveryAccepted else DeliveryRejected]
    {
      Note(ServerDecides(id, yes));
      server := server[id := if yes then DeliveryAccepted else DeliveryRejected];
    }

    method Transmit(p: nat, id: EventId, ghost status: Status, env: Environment) returns (end: Ending)
      requires At(p, id, status, ClaimWritten) && Believable(env)
      modifies this`context, this`transmitting, this`server, this`starts, this`log
      ensures old(log) <= log
      ensures starts == old(starts) || starts == old(starts) + [Start(id, status)]
      ensures end.Finished? ==> At(p, id, status, FinalWrite) && starts == old(starts) + [Start(id, status)]
                                && env.reply.Some? && SettledBy(context.events[id], env.reply.value)
      ensures Calm(env) ==> end.Finished?
      ensures end.Raised? ==> At(p, id, status, Handle)
      ensures end.Dead? ==> Model() == Empty(file, server, starts)
    {
      end := Dispatch(p, id, status, env);
      if !end.Finished? { return; }
      var fate := if env.reply.None? && env.fates(Await).Carry? then Raise else env.fates(Await);
      end := Meet(p, id, status, Await, fate);
      if !end.Finished? { return; }
      end := Hear(p, id, status, env.reply.value, env.fates(Settled));
    }

    /** The reply arrives and settles the receipt. */
    method Hear(p: nat, id: EventId, ghost status: Status, reply: CliResult, fate: Fate) returns (end: Ending)
      requires At(p, id, status, Await) && id in server && Truthful(reply, server[id])
      modifies this`context, this`log
      ensures old(log) <= log
      ensures end.Finished? <==> fate.Carry?
      ensures end.Finished? ==> At(p, id, status, FinalWrite) && SettledBy(context.events[id], reply)
      ensures end.Raised? ==> At(p, id, status, Handle)
      ensures end.Dead? ==> Model() == Empty(file, server, starts)
    {
      LoneHears(Model(), p, Sending(id, status, Await, context, transmitting), reply);
      Note(Respond(p, reply));
      SettleIff(context.events[id], reply);
      context := SetReceipt(context, id, Settle(context.events[id], reply));
      end := Pass(p, id, status, Settled, FinalWrite, fate);
    }

    /** The body of the `try`. */
    method Attempt(p: nat, id: EventId, status: Status, env: Environment) returns (end: Ending)
      requires At(p, id, status, Preflight) && Believable(env)
      modifies this`file, this`context, this`transmitting, this`server, this`starts, this`log
      ensures old(log) <= log
      ensures starts == old(starts) || starts == old(starts) + [Start(id, status)]
      ensures end.Finished? ==> At(p, id, status, FinalWrite) && starts == old(starts) + [Start(id, status)]
                                && env.reply.Some? && SettledBy(context.events[id], env.reply.value)
      ensures Calm(env) ==> end.Finished?
      ensures end.Raised? ==> At(p, id, status, Handle)
      ensures end.Dead? ==> Model() == Empty(file, server, starts)
    {
      end := Pass(p, id, status, Preflight, Claim, env.fates(Preflight));
      if !end.Finished? { return; }
      end := Stake(p, id, status, env);
      if !end.Finished? { return; }
      end := Transmit(p, id, status, env);
    }

    /** Everything before the first write: refusals, the duplicate answer, the new receipt. */
    method Screen(ev: Event) returns (v: Verdict)
      modifies this`context
      ensures v == Check(old(context), ev)
      ensures v.Proceed? <==> Admissible(old(context), ev)
      ensures v.Proceed? ==>
                context == v.ctx && v.id in context.events && Some(v.id) == ev.id && Some(v.status) == ev.status
    {
      ProceedIff(context, ev);
      if !ValidBinding(context.binding) || context.version != 1 { return Refused; }
      if ev.taskId != Some(context.binding.taskId) { return Refused; }
      if ev.id.None? || !Opaque(ev.id.value) { return Refused; }
      if ev.status.None? { return Refused; }
      var id, status := ev.id.value, ev.status.value;
      if !context.enabled { return SwitchedOff; }
      if status !in context.binding.allowedStates { return Refused; }
      if id in context.events {
        var previous := context.events[id];
        if previous.status != status { return Refused; }
        if !Retryable(previous) { return Duplicate(previous); }
        if context.terminal == Some(status) && !ClaimHeldByOther(context, id) {
          context := context.(terminal := None);
        }
      }
      if context.terminal.Some? || !ValidText(ev) { return Refused; }
      context := SetReceipt(context, id, FreshReceipt(context.binding, id, status));
      v := Proceed(id, status, context);
    }

    /** Takes the lock and reads the file. */
    method Enter(p: nat, ev: Event, fate: Fate) returns (end: Ending)
      requires Valid()
      modifies this`context, this`log
      ensures old(log) <= log
      ensures end.Finished? <==> fate.Carry? && file.Some?
      ensures end.Finished? ==> context == file.value
                                && Model() == Lone(file, p, Loaded(Command.Send(ev), context), server, starts)
      ensures !end.Finished? ==> Valid()
    {
      EmptyOpens(Model(), p, Command.Send(ev));
      Note(Acquire(p, Command.Send(ev)));
      if !fate.Carry? {
        ghost var a := if fate.Die? then Crash(p) else Fault(p);
        OpenedStops(Model(), p, Command.Send(ev), a);
        Note(a);
        return if fate.Die? then Dead else Raised;
      }
      OpenedLoads(Model(), p, ev);
      Note(Advance(p));
      if file.None? { return Raised; }
      context := file.value;
      end := Finished;
    }

    /** Enters and screens the event. */
    method Open(p: nat, ev: Event, fate: Fate) returns (reply: Reply, go: Option<(EventId, Status)>)
      requires Valid()
      modifies this`context, this`transmitting, this`log
      ensures old(log) <= log
      ensures go.Some? <==> fate.Carry? && file.Some? && Check(file.value, ev).Proceed?
      ensures go.Some? ==> At(p, go.value.0, go.value.1, RecordWrite)
                           && go.value == (Check(file.value, ev).id, Check(file.value, ev).status)
                           && ev.id == Some(go.value.0) && ev.status == Some(go.value.1)
      ensures go.None? ==> Valid() && (fate.Carry? && file.Some? ==> reply == ReplyTo(Check(file.value, ev)))
      ensures go.None? ==> !reply.Reported?
    {
      var end := Enter(p, ev, fate);
      if !end.Finished? { return if end.Dead? then Killed else Unavailable, None; }
      LoadedDecides(Model(), p, ev, context);
      Note(Advance(p));
      var v := Screen(ev);
      transmitting := false;
      reply := ReplyTo(v);
      go := if v.Proceed? then Some((v.id, v.status)) else None;
    }

    /** The `except` clause. */
    method Catch(p: nat, id: EventId, ghost status: Status, fate: Fate) returns (end: Ending)
      requires At(p, id, status, Handle)
      modifies this`context, this`log
      ensures old(log) <= log
      ensures end.Finished? <==> fate.Carry?
      ensures end.Finished? ==> At(p, id, status, FinalWrite)
                                && CaughtBy(context.events[id], transmitting)
                                && context == SetReceipt(old(context), id, context.events[id])
      ensures !end.Finished? ==> Model() == Empty(file, server, starts)
    {
      end := Meet(p, id, status, Handle, fate);
      if end.Finished? {
        Log(p, Sending(id, status, Handle, context, transmitting));
        context := SetReceipt(context, id, HandledReceipt(context.events[id], transmitting));
      }
    }

    /** The `except` clause, when it applies, and the last write. */
    method Close(p: nat, id: EventId, status: Status, ended: Ending, env: Environment) returns (reply: Reply)
      requires ended.Finished? ==> At(p, id, status, FinalWrite)
      requires ended.Raised? ==> At(p, id, status, Handle)
      requires !ended.Dead? && Init(origin)
      modifies this`file, this`context, this`log
      ensures old(log) <= log && Valid()
      ensures reply.Reported? ==> file == Some(context) && id in context.events && context.events[id] == reply.receipt
      ensures reply in {Unavailable, Killed} || reply.Reported?
      ensures Calm(env) && ended.Finished? ==> reply.Reported? && reply.receipt == old(context).events[id]
    {
      if ended.Raised? {
        var met := Catch(p, id, status, env.fates(Handle));
        if !met.Finished? { return if met.Dead? then Killed else Unavailable; }
      }
      var end := Persist(p, id, status, FinalWrite, FinalWritten, env);
      if !end.Finished? { return if end.Dead? then Killed else Unavailable; }
      ghost var s := Model();
      Note(Advance(p));
      LoneLeaves(s, p, Sending(id, status, FinalWritten, context, transmitting));
      reply := Reported(context.events[id]);
    }

    /** From the first write on. */
    method Report(p: nat, id: EventId, status: Status, env: Environment) returns (reply: Reply)
      requires At(p, id, status, RecordWrite) && Believable(env) && Init(origin)
      modifies this`file, this`context, this`transmitting, this`server, this`starts, this`log
      ensures old(log) <= log && Valid()
      ensures starts == old(starts) || starts == old(starts) + [Start(id, status)]
      ensures reply.Reported? ==> file.Some? && id in file.value.events && file.value.events[id] == reply.receipt
      ensures reply in {Unavailable, Killed} || reply.Reported?
      ensures Calm(env) ==> starts == old(starts) + [Start(id, status)]
                            && reply.Reported? && SettledBy(reply.receipt, env.reply.value)
    {
      var end := Persist(p, id, status, RecordWrite, RecordWritten, env);
      if !end.Finished? { return if end.Dead? then Killed else Unavailable; }
      Log(p, Sending(id, status, RecordWritten, context, transmitting));
      transmitting := false;
      end := Attempt(p, id, status, env);
      if end.Dead? { return Killed; }
      reply := Close(p, id, status, end, env);
    }

    /**
     `send`. It replies as the checks decide, reports what is then on disk, starts at most the
     one message it was asked for, never one that left before, and none after a final report.
     */
    method Send(p: nat, ev: Event, env: Environment) returns (reply: Reply)
      requires Valid() && Believable(env)
      modifies this
      ensures Valid() && origin == old(origin) && old(log) <= log
      ensures starts == old(starts)
              || (ev.id.Some? && ev.status.Some? && starts == old(starts) + [Start(ev.id.value, ev.status.value)]
                  && ev.id.value !in old(server) && !old(FinalSent(Model())))
      ensures old(file).None? || !Admissible(old(file).value, ev) ==> starts == old(starts) && file == old(file)
      ensures env.early.Carry? && old(file).Some? && !Admissible(old(file).value, ev) ==>
                RepliesTo(reply, old(file).value, ev)
      ensures Calm(env) && old(file).Some? && Admissible(old(file).value, ev) ==>
                && ev.id.Some? && ev.status.Some?
                && starts == old(starts) + [Start(ev.id.value, ev.status.value)]
                && reply.Reported? && SettledBy(reply.receipt, env.reply.value)
      ensures reply.Reported? ==>
                && ev.id.Some? && file.Some? && ev.id.value in file.value.events
                && file.value.events[ev.id.value] == reply.receipt
                && Honest(reply.receipt, DeliveryOf(server, ev.id.value))
    {
      ghost var past := log;
      if file.Some? {
        ProceedIff(file.value, ev);
        AnsweredIff(file.value, ev);
      }
      var go;
      reply, go := Open(p, ev, env.early);
      if go.Some? {
        reply := Report(p, go.value.0, go.value.1, env);
      }
      if ev.id.Some? {
        RunsOn(origin, past, log, ev.id.value);
        assert Run(origin, past) == old(Model()) && Model().starts == starts;
        assert starts != old(starts) ==> starts[|old(starts)|].id == ev.id.value;
      }
    }

    /** `enable`: refused where a file exists or the binding is not valid. */
    method Enable(p: nat, binding: Option<Binding>, before: Fate, after: Fate) returns (ok: bool)
      requires Valid()
      modifies this`file, this`log
      ensures Valid() && origin == old(origin) && old(log) <= log
      ensures file == old(file) ||
              (old(file).None? && binding.Some? && ValidBinding(binding.value)
               && file == Some(Context(1, binding.value, true, None, map[])))
      ensures ok <==> before.Carry? && after.Carry? && old(file).None? && binding.Some? && ValidBinding(binding.value)
      ensures ok ==> file != old(file)
      ensures ok ==> forall status :: status in binding.value.allowedStates ==> Entitled(binding.value, status)
    {
      Note(Acquire(p, Command.Enable(binding)));
      LoneLeaves(Model(), p, Opened(Command.Enable(binding)));
      Note(Advance(p));
      if file.Some? || binding.None? || !ValidBinding(binding.value) { return false; }
      var blank := Context(1, binding.value, true, None, map[]);
      assert Model().procs == map[p := Writing(blank)];
      ok := Swap(p, blank, before, after);
    }

    /** `disable`: only the switch changes, the receipts stay. */
    method Disable(p: nat, before: Fate, after: Fate) returns (ok: bool)
      requires Valid()
      modifies this`file, this`log
      ensures Valid() && origin == old(origin) && old(log) <= log
      ensures file == old(file) || (old(file).Some? && file == Some(old(file).value.(enabled := false)))
      ensures ok <==> before.Carry? && after.Carry? && old(file).Some?
      ensures ok ==> file.Some? && !file.value.enabled
    {
      Note(Acquire(p, Command.Disable));
      LoneLeaves(Model(), p, Opened(Command.Disable));
      Note(Advance(p));
      if file.None? { return false; }
      assert Model().procs == map[p := Loaded(Command.Disable, file.value)];
      Note(Advance(p));
      var off := file.value.(enabled := false);
      assert Model().procs == map[p := Writing(off)];
      ok := Swap(p, off, before, after);
    }

    /** `save`, then the release of the lock. */
    method Swap(p: nat, ctx: Context, before: Fate, after: Fate) returns (ok: bool)
      requires Init(origin) && Model() == Lone(file, p, Writing(ctx), server, starts)
      modifies this`file, this`log
      ensures Valid() && old(log) <= log
      ensures file == if before.Carry? then Some(ctx) else old(file)
      ensures ok <==> before.Carry? && after.Carry?
    {
      if !before.Carry? {
        LoneLeaves(Model(), p, Writing(ctx));
        Note(if before.Die? then Crash(p) else Fault(p));
        return false;
      }
      Note(Advance(p));
      file := Some(ctx);
      assert Model().procs == map[p := Wrote];
      LoneLeaves(Model(), p, Wrote);
      Note(match after case Carry => Advance(p) case Raise => Fault(p) case Die => Crash(p));
      ok := after.Carry?;
    }
  }
}

/**
 The one-shot notification runner as a step machine.

 Several processes share one context file. A process runs `enable`, `disable`, `status` or
 `send`; `send` is split at every point where the source can be interrupted, where `save`
 swaps the file, and where the message leaves. A run is any sequence of actions, so every
 theorem about runs covers every placement of exceptions, signals and crashes.
 */
module NotifyProtocol {
  import opened Wrappers

  type EventId = string

  datatype Status = Completed | Blocked | Failed | ActionRequired

  datatype Outcome = NotSent | PendingConfirmation | Accepted

  datatype Reason =
    | PreflightInterrupted
    | PreflightFailed
    | SendStarted
    | ServerAccepted
    | ExplicitRejection
    | AcceptanceUnconfirmed
    | SendUnconfirmed

  datatype NotifyLevel = Normal | Urgent

  datatype Binding = Binding(
    taskId: string,
    workspace: string,
    identity: string,
    senderDid: string,
    receiverDid: string,
    allowedStates: seq<Status>,
    authorized: bool,
    notifyLevel: NotifyLevel)

  /** The digest of a binding and an event id, from which both message identifiers are built. */
  datatype MessageKey = MessageKey(binding: Binding, id: EventId)

  datatype Receipt = Receipt(
    status: Status,
    outcome: Outcome,
    reason: Reason,
    key: MessageKey,
    sendStarted: bool,
    messageId: Option<string>)

  datatype Context = Context(
    version: nat,
    binding: Binding,
    enabled: bool,
    terminal: Option<Status>,
    events: map<EventId, Receipt>)

  /** An event as read from its input file; `None` is a missing or ill-typed field. */
  datatype Event = Event(
    taskId: Option<string>,
    id: Option<EventId>,
    status: Option<Status>,
    title: Option<string>,
    summary: Option<string>,
    nextAction: Option<string>)

  // ----- validation

  predicate Blank(c: char) {
    || '\t' <= c <= '\r' || '\U{1C}' <= c <= ' ' || c == '\U{85}' || c == '\U{A0}' || c == '\U{1680}'
    || '\U{2000}' <= c <= '\U{200A}' || c == '\U{2028}' || c == '\U{2029}' || c == '\U{202F}'
    || c == '\U{205F}' || c == '\U{3000}'
  }

  predicate Nonempty(s: string) {
    exists i :: 0 <= i < |s| && !Blank(s[i])
  }

  predicate NonemptyField(s: Option<string>) {
    s.Some? && Nonempty(s.value)
  }

  predicate Opaque(s: string) {
    && 1 <= |s| <= 96
    && forall i :: 0 <= i < |s| ==>
         'A' <= s[i] <= 'Z' || 'a' <= s[i] <= 'z' || '0' <= s[i] <= '9' || s[i] == '_' || s[i] == '-'
  }

  predicate ValidBinding(b: Binding) {
    && Nonempty(b.workspace) && Nonempty(b.identity)
    && Opaque(b.taskId)
    && "/" <= b.workspace
    && "did:" <= b.senderDid
    && "did:" <= b.receiverDid
    && b.allowedStates != []
    && b.authorized
  }

  predicate ValidText(ev: Event) {
    && NonemptyField(ev.title) && NonemptyField(ev.summary) && NonemptyField(ev.nextAction)
    && '\n' !in ev.title.value && '\r' !in ev.title.value
  }

  // ----- receipts

  predicate IsTerminal(s: Status) {
    s.Completed? || s.Failed?
  }

  predicate IsPreflight(r: Reason) {
    r.PreflightFailed? || r.PreflightInterrupted?
  }

  predicate Retryable(r: Receipt) {
    r.outcome.NotSent? && IsPreflight(r.reason) && !r.sendStarted
  }

  function FreshReceipt(b: Binding, id: EventId, status: Status): Receipt {
    Receipt(status, NotSent, PreflightInterrupted, MessageKey(b, id), false, None)
  }

  function SetReceipt(ctx: Context, id: EventId, r: Receipt): Context {
    ctx.(events := ctx.events[id := r])
  }

  function ClaimedReceipt(r: Receipt): Receipt {
    r.(outcome := PendingConfirmation, reason := SendStarted, sendStarted := true)
  }

  function HandledReceipt(r: Receipt, transmitting: bool): Receipt {
    if transmitting then r.(outcome := PendingConfirmation, reason := SendUnconfirmed)
    else r.(outcome := NotSent, reason := PreflightFailed)
  }

  /** Another event already holds a final claim: the scan that keeps `terminal` in place. */
  predicate ClaimHeldByOther(ctx: Context, id: EventId) {
    exists k | k in ctx.events ::
      k != id && IsTerminal(ctx.events[k].status) && !IsPreflight(ctx.events[k].reason)
  }

  function ReleaseTerminal(ctx: Context, id: EventId, status: Status): Context {
    if ctx.terminal == Some(status) && !ClaimHeldByOther(ctx, id) then ctx.(terminal := None) else ctx
  }

  /** What the part of `send` before the first write decides. */
  datatype Verdict =
    | Refused
    | SwitchedOff
    | Duplicate(receipt: Receipt)
    | Proceed(id: EventId, status: Status, ctx: Context)

  function Admit(ctx: Context, ev: Event, id: EventId, status: Status): Verdict {
    if ctx.terminal.Some? || !ValidText(ev) then Refused
    else Proceed(id, status, SetReceipt(ctx, id, FreshReceipt(ctx.binding, id, status)))
  }

  function Check(ctx: Context, ev: Event): Verdict {
    if !ValidBinding(ctx.binding) || ctx.version != 1 then Refused
    else if ev.taskId != Some(ctx.binding.taskId) then Refused
    else if ev.id.None? || !Opaque(ev.id.value) || ev.status.None? then Refused
    else if !ctx.enabled then SwitchedOff
    else if ev.status.value !in ctx.binding.allowedStates then Refused
    else
      var id, status := ev.id.value, ev.status.value;
      if id !in ctx.events then Admit(ctx, ev, id, status)
      else if ctx.events[id].status != status then Refused
      else if !Retryable(ctx.events[id]) then Duplicate(ctx.events[id])
      else Admit(ReleaseTerminal(ctx, id, status), ev, id, status)
  }

  /** The reply of the mutating `msg send`; `None` is a field that is absent or not a boolean. */
  datatype CliResult = CliResult(
    ok: bool, accepted: Option<bool>, finalAcceptance: Option<bool>, messageId: Option<string>)

  /** How the reply is read: acceptance needs a message id, rejection needs both flags false. */
  function Meaning(reply: CliResult): Outcome {
    if reply.ok && (reply.accepted == Some(true) || reply.finalAcceptance == Some(true))
       && NonemptyField(reply.messageId) then Accepted
    else if reply.accepted == Some(false) && reply.finalAcceptance == Some(false) then NotSent
    else PendingConfirmation
  }

  function Settle(r: Receipt, reply: CliResult): Receipt {
    match Meaning(reply)
    case Accepted => r.(outcome := Accepted, reason := ServerAccepted, messageId := reply.messageId)
    case NotSent => r.(outcome := NotSent, reason := ExplicitRejection)
    case PendingConfirmation => r.(outcome := PendingConfirmation, reason := AcceptanceUnconfirmed)
  }

  // ----- processes

  datatype Command =
    | Enable(binding: Option<Binding>)
    | Disable
    | ReadStatus
    | Send(event: Event)

  /** Points of `send` after the checks. A `...Write` point is just before `os.replace`. */
  datatype Pc =
    | RecordWrite
    | RecordWritten
    | Preflight
    | Claim
    | MarkTerminal
    | ClaimWrite
    | ClaimWritten
    | Launch
    | Await
    | Settled
    | Handle
    | FinalWrite
    | FinalWritten

  /** The points guarded by the `try` of `send`. */
  predicate InTry(pc: Pc) {
    pc in {Preflight, Claim, MarkTerminal, ClaimWrite, ClaimWritten, Launch, Await, Settled}
  }

  datatype Proc =
    | Opened(cmd: Command)
    | Loaded(cmd: Command, ctx: Context)
    | Writing(ctx: Context)
    | Wrote
    | Sending(id: EventId, status: Status, pc: Pc, ctx: Context, transmitting: bool)

  datatype Delivery = InFlight | DeliveryAccepted | DeliveryRejected

  datatype Start = Start(id: EventId, status: Status)

  /**
   `disk` is the context file, `procs` the processes inside the locked region, `server` what
   became of each message that left, `starts` every start of the mutating `msg send` in order.
   */
  datatype State = State(
    disk: Option<Context>,
    lock: Option<nat>,
    procs: map<nat, Proc>,
    server: map<EventId, Delivery>,
    starts: seq<Start>)

  datatype Action =
    | Acquire(p: nat, cmd: Command)
    | Advance(p: nat)
    | Respond(p: nat, reply: CliResult)
    | Fault(p: nat)                             // an exception or a signal surfaces here
    | Crash(p: nat)                             // the process dies here
    | ServerDecides(id: EventId, accepts: bool)

  function Go(s: State, p: nat, proc: Proc): State {
    s.(procs := s.procs[p := proc])
  }

  function Leave(s: State, p: nat): State {
    s.(procs := s.procs - {p}, lock := None)
  }

  function Store(s: State, ctx: Context): State {
    s.(disk := Some(ctx))
  }

  function AdvanceOpened(s: State, p: nat, cmd: Command): State {
    if cmd.Enable? then
      if s.disk.Some? || cmd.binding.None? || !ValidBinding(cmd.binding.value) then Leave(s, p)
      else Go(s, p, Writing(Context(1, cmd.binding.value, true, None, map[])))
    else if s.disk.None? then Leave(s, p)
    else Go(s, p, Loaded(cmd, s.disk.value))
  }

  function AdvanceLoaded(s: State, p: nat, cmd: Command, ctx: Context): State {
    match cmd
    case Disable => Go(s, p, Writing(ctx.(enabled := false)))
    case Send(ev) =>
      (match Check(ctx, ev)
       case Proceed(id, status, ctx') => Go(s, p, Sending(id, status, RecordWrite, ctx', false))
       case _ => Leave(s, p))
    case _ => Leave(s, p)
  }

  predicate IsWrite(pc: Pc) {
    pc.RecordWrite? || pc.ClaimWrite? || pc.FinalWrite?
  }

  /** The process after one statement of `send`: its next point and its volatile context. */
  function NextPoint(l: Proc): Proc
    requires l.Sending?
  {
    match l.pc
    case RecordWrite => l.(pc := RecordWritten)
    case RecordWritten => l.(pc := Preflight, transmitting := false)
    case Preflight => l.(pc := Claim)
    case Claim =>
      if l.id !in l.ctx.events then l
      else l.(pc := MarkTerminal, ctx := SetReceipt(l.ctx, l.id, ClaimedReceipt(l.ctx.events[l.id])))
    case MarkTerminal =>
      l.(pc := ClaimWrite, ctx := if IsTerminal(l.status) then l.ctx.(terminal := Some(l.status)) else l.ctx)
    case ClaimWrite => l.(pc := ClaimWritten)
    case ClaimWritten => l.(pc := Launch, transmitting := true)
    case Launch => l.(pc := Await)
    case Await => l
    case Settled => l.(pc := FinalWrite)
    case Handle =>
      if l.id !in l.ctx.events then l
      else l.(pc := FinalWrite,
              ctx := SetReceipt(l.ctx, l.id, HandledReceipt(l.ctx.events[l.id], l.transmitting)))
    case FinalWrite => l.(pc := FinalWritten)
    case FinalWritten => l
  }

  /** What the same statement does outside the process: swap the file, or let the message leave. */
  function Effect(s: State, l: Proc): State
    requires l.Sending?
  {
    if IsWrite(l.pc) then Store(s, l.ctx)
    else if l.pc.Launch? then
      s.(server := s.server[l.id := InFlight], starts := s.starts + [Start(l.id, l.status)])
    else s
  }

  function AdvanceSending(s: State, p: nat, l: Proc): State
    requires l.Sending?
  {
    if l.pc.FinalWritten? then Leave(s, p) else Go(Effect(s, l), p, NextPoint(l))
  }

  function AdvanceProc(s: State, p: nat, l: Proc): State {
    match l
    case Opened(cmd) => AdvanceOpened(s, p, cmd)
    case Loaded(cmd, ctx) => AdvanceLoaded(s, p, cmd, ctx)
    case Writing(ctx) => Go(Store(s, ctx), p, Wrote)
    case Wrote => Leave(s, p)
    case Sending(_, _, _, _, _) => AdvanceSending(s, p, l)
  }

  /**
   The server answers truthfully: a reply that confirms a named message comes only after its
   acceptance, and one that denies both kinds of acceptance only after its rejection.
   */
  predicate Truthful(reply: CliResult, d: Delivery) {
    && ((reply.accepted == Some(true) || reply.finalAcceptance == Some(true)) ==>
          reply.ok && NonemptyField(reply.messageId) ==> d == DeliveryAccepted)
    && (reply.accepted == Some(false) && reply.finalAcceptance == Some(false) ==> d == DeliveryRejected)
  }

  function RespondTo(s: State, p: nat, l: Proc, reply: CliResult): State {
    if l.Sending? && l.pc.Await? && l.id in l.ctx.events && l.id in s.server
       && Truthful(reply, s.server[l.id])
    then Go(s, p, l.(pc := Settled, ctx := SetReceipt(l.ctx, l.id, Settle(l.ctx.events[l.id], reply))))
    else s
  }

  /** One atomic step; an action that is not possible in `s` changes nothing. */
  function Exec(s: State, a: Action): State {
    match a
    case Acquire(p, cmd) =>
      if s.lock.Some? then s else Go(s, p, Opened(cmd)).(lock := Some(p))
    case Advance(p) => if p in s.procs then AdvanceProc(s, p, s.procs[p]) else s
    case Respond(p, reply) => if p in s.procs then RespondTo(s, p, s.procs[p], reply) else s
    case Fault(p) =>
      if p !in s.procs then s
      else
        var l := s.procs[p];
        if l.Sending? && InTry(l.pc) then Go(s, p, l.(pc := Handle)) else Leave(s, p)
    case Crash(p) => if p in s.procs then Leave(s, p) else s
    case ServerDecides(id, accepts) =>
      if id in s.server && s.server[id].InFlight?
      then s.(server := s.server[id := if accepts then DeliveryAccepted else DeliveryRejected])
      else s
  }

  function Run(s: State, acts: seq<Action>): State {
    if acts == [] then s else Exec(Run(s, acts[..|acts| - 1]), acts[|acts| - 1])
  }

  const NO_CONTEXT := State(None, None, map[], map[], [])
}

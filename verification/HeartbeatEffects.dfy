/** What the ticks of a run do to the outside: the heartbeats they send and the statuses they write. */
module HeartbeatEffects {
  import opened Wrappers
  import opened Heartbeat
  import opened HeartbeatRuns

  // ----- one tick

  function WriteEffect(s: Sched, inp: Input, d: Daemon): seq<Effect>
    requires d.signature.Some?
  {
    var signature := SignatureAt(s, inp, d);
    if !ShouldWrite(s, inp, d.did, signature) then []
    else if d.writes then [Written(d.did, signature)]
    else [WriteFailed(d.did, signature)]
  }

  /** What the turn of `d` does, judged by the scheduler at the start of the tick. */
  function TurnEffects(s: Sched, inp: Input, d: Daemon, control: bool, latest: bool): seq<Effect> {
    (if !control then [] else if d.emits then [Emitted(d.did)] else [EmitFailed(d.did)]) +
    (if latest && d.signature.Some? then WriteEffect(s, inp, d) else [])
  }

  function AllEffects(s: Sched, inp: Input, ds: seq<Daemon>, control: bool, latest: bool): seq<Effect> {
    if ds == [] then []
    else AllEffects(s, inp, ds[..|ds| - 1], control, latest) + TurnEffects(s, inp, ds[|ds| - 1], control, latest)
  }

  lemma LatestLog(s: Sched, p: Progress, inp: Input, d: Daemon)
    requires p.s.release.Some? && !p.failed && !Latest(p, inp, d).failed
    requires Records(p.s, d.did) == Records(s, d.did) && p.s.release == Refresh(s, inp).release
    ensures d.signature.Some? && Latest(p, inp, d).log == p.log + WriteEffect(s, inp, d)
  {
  }

  lemma VisitLog(s: Sched, p: Progress, inp: Input, d: Daemon, control: bool, latest: bool)
    requires !p.failed && !Visit(p, inp, d, control, latest).failed
    requires Records(p.s, d.did) == Records(s, d.did) && Refresh(p.s, inp).release == Refresh(s, inp).release
    ensures Visit(p, inp, d, control, latest).log == p.log + TurnEffects(s, inp, d, control, latest)
  {
    var p1 := p.(s := Refresh(p.s, inp));
    var p2 := if control then Control(p1, d) else p1;
    if latest {
      LatestLog(s, p2, inp, d);
    }
  }

  /** The effects of a tick without an error are those of its daemons' turns, in order. */
  lemma {:induction false} VisitAllLog(s: Sched, inp: Input, ds: seq<Daemon>, control: bool, latest: bool)
    requires Distinct(ds) && !VisitAll(s, inp, ds, control, latest).failed
    ensures VisitAll(s, inp, ds, control, latest).log == AllEffects(s, inp, ds, control, latest)
  {
    if ds != [] {
      var n := |ds| - 1;
      VisitAllRelease(s, inp, ds, control, latest);
      VisitAllRelease(s, inp, ds[..n], control, latest);
      VisitAllLog(s, inp, ds[..n], control, latest);
      VisitAllSkips(s, inp, ds[..n], control, latest, ds[n].did);
      VisitLog(s, VisitAll(s, inp, ds[..n], control, latest), inp, ds[n], control, latest);
    }
  }

  lemma TurnNames(s: Sched, inp: Input, d: Daemon, control: bool, latest: bool, e: Effect)
    requires e in TurnEffects(s, inp, d, control, latest)
    ensures e.did == d.did
  {
  }

  lemma {:induction false} EffectNames(s: Sched, inp: Input, ds: seq<Daemon>, control: bool, latest: bool, e: Effect)
    requires e in AllEffects(s, inp, ds, control, latest)
    ensures exists i :: 0 <= i < |ds| && ds[i].did == e.did
  {
    var n := |ds| - 1;
    if e in AllEffects(s, inp, ds[..n], control, latest) {
      EffectNames(s, inp, ds[..n], control, latest, e);
    } else {
      TurnNames(s, inp, ds[n], control, latest, e);
    }
  }

  lemma {:induction false} EffectOfTurn(s: Sched, inp: Input, ds: seq<Daemon>, control: bool, latest: bool,
                                        i: nat, e: Effect)
    requires Distinct(ds) && i < |ds| && e.did == ds[i].did
    ensures e in AllEffects(s, inp, ds, control, latest) <==> e in TurnEffects(s, inp, ds[i], control, latest)
  {
    var n := |ds| - 1;
    var before, last := AllEffects(s, inp, ds[..n], control, latest), TurnEffects(s, inp, ds[n], control, latest);
    assert e in AllEffects(s, inp, ds, control, latest) <==> e in before || e in last;
    if i < n {
      EffectOfTurn(s, inp, ds[..n], control, latest, i, e);
      if e in last {
        TurnNames(s, inp, ds[n], control, latest, e);
      }
    } else if e in before {
      EffectNames(s, inp, ds[..n], control, latest, e);
    }
  }

  lemma TickEffects(s: Sched, inp: Input, i: nat, e: Effect)
    requires TickOf(s, inp).result.Some? && Distinct(inp.daemons) && i < |inp.daemons| && e.did == inp.daemons[i].did
    ensures e in TickOf(s, inp).log <==> e in TurnEffects(s, inp, inp.daemons[i], ControlDue(s, inp), LatestDue(s, inp))
  {
    if ControlDue(s, inp) || LatestDue(s, inp) {
      VisitAllLog(s, inp, inp.daemons, ControlDue(s, inp), LatestDue(s, inp));
      EffectOfTurn(s, inp, inp.daemons, ControlDue(s, inp), LatestDue(s, inp), i, e);
    }
  }

  /** The effects of tick `i` of a run. */
  function Log(ins: seq<Input>, i: nat): seq<Effect>
    requires i < |ins|
  {
    TickOf(After(ins[..i]), ins[i]).log
  }

  ghost predicate Reports(p: Progress) {
    && (p.emitted <==> exists e :: e in p.log && e.Emitted?)
    && (p.wrote <==> exists e :: e in p.log && e.Written?)
  }

  lemma LogAppends(log: seq<Effect>, e: Effect)
    ensures (exists f :: f in log + [e] && f.Emitted?) <==> (exists f :: f in log && f.Emitted?) || e.Emitted?
    ensures (exists f :: f in log + [e] && f.Written?) <==> (exists f :: f in log && f.Written?) || e.Written?
  {
    assert e in log + [e];
  }

  lemma VisitReports(p: Progress, inp: Input, d: Daemon, control: bool, latest: bool)
    requires Reports(p)
    ensures Reports(Visit(p, inp, d, control, latest))
  {
    var p1 := p.(s := Refresh(p.s, inp));
    LogAppends(p.log, Emitted(d.did));
    LogAppends(p.log, EmitFailed(d.did));
    var p2 := if control then Control(p1, d) else p1;
    assert Reports(p2);
    if d.signature.Some? {
      var signature := d.signature.value(p2.s.release.value);
      LogAppends(p2.log, Written(d.did, signature));
      LogAppends(p2.log, WriteFailed(d.did, signature));
    }
  }

  lemma {:induction false} VisitAllReports(s: Sched, inp: Input, ds: seq<Daemon>, control: bool, latest: bool)
    ensures Reports(VisitAll(s, inp, ds, control, latest))
  {
    if ds != [] {
      var n := |ds| - 1;
      VisitAllReports(s, inp, ds[..n], control, latest);
      VisitReports(VisitAll(s, inp, ds[..n], control, latest), inp, ds[n], control, latest);
    }
  }

  /** The outcome says truthfully whether the tick sent any heartbeat and wrote any status. */
  lemma OutcomeReports(s: Sched, inp: Input)
    requires TickOf(s, inp).result.Some?
    ensures var t := TickOf(s, inp);
            && (t.result.value.emitted <==> exists e :: e in t.log && e.Emitted?)
            && (t.result.value.wrote <==> exists e :: e in t.log && e.Written?)
  {
    VisitAllReports(s, inp, inp.daemons, ControlDue(s, inp), LatestDue(s, inp));
  }

  // ----- heartbeats

  /** Tick `i` is a control round: it tries to send every daemon's heartbeat. */
  predicate Rounds(ins: seq<Input>, i: nat)
    requires i < |ins|
  {
    ControlDue(After(ins[..i]), ins[i])
  }

  predicate NoRound(ins: seq<Input>, m: nat, n: nat)
    requires n <= |ins|
  {
    forall k :: m <= k < n ==> !Rounds(ins, k)
  }

  /**
   At a tick that returns, each listed daemon's heartbeat is sent or fails exactly at a control
   round, and a failure there has its error recorded.
   */
  lemma EmissionIff(ins: seq<Input>, n: nat, j: nat)
    requires n < |ins| && Succeeds(ins, n) && Distinct(ins[n].daemons) && j < |ins[n].daemons|
    ensures var d := ins[n].daemons[j];
            && (Emitted(d.did) in Log(ins, n) <==> Rounds(ins, n) && d.emits)
            && (EmitFailed(d.did) in Log(ins, n) <==> Rounds(ins, n) && !d.emits)
            && (EmitFailed(d.did) in Log(ins, n) ==> d.recordsControl)
  {
    var s, inp := After(ins[..n]), ins[n];
    TickEffects(s, inp, j, Emitted(inp.daemons[j].did));
    TickEffects(s, inp, j, EmitFailed(inp.daemons[j].did));
    if Rounds(ins, n) {
      RoundRecords(s, inp, inp.daemons, LatestDue(s, inp), j);
    }
  }

  lemma {:induction false} RoundRecords(s: Sched, inp: Input, ds: seq<Daemon>, latest: bool, j: nat)
    requires j < |ds| && !VisitAll(s, inp, ds, true, latest).failed
    ensures ds[j].emits || ds[j].recordsControl
  {
    var n := |ds| - 1;
    VisitAllRelease(s, inp, ds, true, latest);
    if j < n {
      RoundRecords(s, inp, ds[..n], latest, j);
    }
  }

  /** A tick that is no control round neither sends a heartbeat nor fails to, even if it fails. */
  lemma {:induction false} VisitAllSilent(s: Sched, inp: Input, ds: seq<Daemon>, latest: bool, did: Did)
    ensures var log := VisitAll(s, inp, ds, false, latest).log; Emitted(did) !in log && EmitFailed(did) !in log
  {
    if ds != [] {
      VisitAllSilent(s, inp, ds[..|ds| - 1], latest, did);
    }
  }

  lemma QuietTickIsSilent(ins: seq<Input>, i: nat, did: Did)
    requires i < |ins| && !Rounds(ins, i)
    ensures Emitted(did) !in Log(ins, i) && EmitFailed(did) !in Log(ins, i)
  {
    VisitAllSilent(After(ins[..i]), ins[i], ins[i].daemons, LatestDue(After(ins[..i]), ins[i]), did);
  }

  lemma TickControl(s: Sched, inp: Input)
    ensures TickOf(s, inp).s.lastControl ==
            if ControlDue(s, inp) && TickOf(s, inp).result.Some? then Some(inp.now) else s.lastControl
  {
    VisitAllRelease(s, inp, inp.daemons, ControlDue(s, inp), LatestDue(s, inp));
  }

  lemma RoundStamp(ins: seq<Input>, i: nat)
    requires i < |ins|
    ensures After(ins[..i + 1]).lastControl ==
            if Rounds(ins, i) && Succeeds(ins, i) then Some(ins[i].now) else After(ins[..i]).lastControl
  {
    assert ins[..i + 1][..i] == ins[..i];
    TickControl(After(ins[..i]), ins[i]);
  }

  lemma {:induction false} StampSince(ins: seq<Input>, c: nat, n: nat)
    requires c < n <= |ins| && Rounds(ins, c) && Succeeds(ins, c) && NoRound(ins, c + 1, n)
    ensures After(ins[..n]).lastControl == Some(ins[c].now)
  {
    var i := n - 1;
    RoundStamp(ins, i);
    if i > c {
      StampSince(ins, c, i);
      assert !Rounds(ins, i);
    }
  }

  lemma DueIff(s: Sched, inp: Input, t: int)
    requires s.lastControl == Some(t)
    ensures ControlDue(s, inp) <==> inp.now - t >= if inp.active then ACTIVE_HEARTBEAT_MS else IDLE_HEARTBEAT_MS
  {
  }

  /**
   After a control round that returned, sent or failed, a daemon's next heartbeat is tried
   exactly when the interval has passed since that round; no tick in between tries it.
   */
  lemma NextHeartbeatIff(ins: seq<Input>, c: nat, n: nat, j: nat)
    requires c < n < |ins| && Rounds(ins, c) && Succeeds(ins, c) && NoRound(ins, c + 1, n)
    requires Succeeds(ins, n) && Distinct(ins[n].daemons) && j < |ins[n].daemons|
    ensures var did := ins[n].daemons[j].did;
            && (Emitted(did) in Log(ins, n) || EmitFailed(did) in Log(ins, n) <==>
                ins[n].now - ins[c].now >= if ins[n].active then ACTIVE_HEARTBEAT_MS else IDLE_HEARTBEAT_MS)
            && forall k :: c < k < n ==> Emitted(did) !in Log(ins, k) && EmitFailed(did) !in Log(ins, k)
  {
    var did := ins[n].daemons[j].did;
    StampSince(ins, c, n);
    DueIff(After(ins[..n]), ins[n], ins[c].now);
    EmissionIff(ins, n, j);
    forall k | c < k < n ensures Emitted(did) !in Log(ins, k) && EmitFailed(did) !in Log(ins, k) {
      QuietTickIsSilent(ins, k, did);
    }
  }

  /** A control round that ends in an error is made again by the very next tick, unless the clock goes back. */
  lemma FailedRoundIsRepeated(ins: seq<Input>, c: nat)
    requires c + 1 < |ins| && Rounds(ins, c) && !Succeeds(ins, c)
    requires ins[c].now <= ins[c + 1].now && (ins[c + 1].active || !ins[c].active)
    ensures Rounds(ins, c + 1)
  {
    RoundStamp(ins, c);
  }

  /** After every tick without an error the last control round is younger than the interval the tick used. */
  lemma ControlIsCurrent(ins: seq<Input>)
    requires ins != [] && Succeeds(ins, |ins| - 1)
    ensures var last := ins[|ins| - 1];
            && After(ins).lastControl.Some?
            && last.now - After(ins).lastControl.value < if last.active then ACTIVE_HEARTBEAT_MS else IDLE_HEARTBEAT_MS
  {
    var n := |ins| - 1;
    assert ins[..n + 1] == ins;
    RoundStamp(ins, n);
  }

  // ----- statuses

  /** The records of `d` hold the signature it would write, from a write that is not yet due. */
  predicate UpToDate(records: (Option<int>, Option<string>), signature: string, inp: Input) {
    && records.1 == Some(signature) && records.0.Some?
    && inp.now - records.0.value < if inp.active then ACTIVE_HEARTBEAT_MS else IDLE_HEARTBEAT_MS
  }

  /** At a check that returns, exactly what is not up to date is written, and exactly a success is recorded. */
  lemma CheckWrites(s: Sched, inp: Input, j: nat)
    requires LatestDue(s, inp) && TickOf(s, inp).result.Some? && Distinct(inp.daemons) && j < |inp.daemons|
    ensures var d := inp.daemons[j];
            && d.signature.Some?
            && var signature := SignatureAt(s, inp, d);
               var stale := !UpToDate(Records(s, d.did), signature, inp);
               && (Written(d.did, signature) in TickOf(s, inp).log <==> stale && d.writes)
               && (WriteFailed(d.did, signature) in TickOf(s, inp).log <==> stale && !d.writes)
               && Records(TickOf(s, inp).s, d.did) ==
                  if stale && d.writes then (Some(inp.now), Some(signature)) else Records(s, d.did)
  {
    var d := inp.daemons[j];
    TickRecords(s, inp, j);
    var signature := SignatureAt(s, inp, d);
    TickEffects(s, inp, j, Written(d.did, signature));
    TickEffects(s, inp, j, WriteFailed(d.did, signature));
  }

  lemma RecordsSinceFailure(ins: seq<Input>, c: nat, i: nat, n: nat)
    requires c < n < |ins| && NoCheck(ins, c + 1, n)
    requires Checks(ins, c) && Succeeds(ins, c) && Distinct(ins[c].daemons) && i < |ins[c].daemons|
    requires ins[c].daemons[i].signature.Some? && WriteFails(After(ins[..c]), ins[c], ins[c].daemons[i])
    ensures Records(After(ins[..n]), ins[c].daemons[i].did) == Records(After(ins[..c]), ins[c].daemons[i].did)
  {
    FailedWriteLeavesRecords(ins, c, i);
    QuietTicksKeepRecords(ins, c + 1, n, ins[c].daemons[i].did);
  }

  /**
   A write that failed at a check is attempted again at the next check, unless by then the
   status has returned to the recorded signature and the recorded write is not yet due; an
   attempt that succeeds is recorded, and otherwise the records stay as they were.
   */
  lemma FailedWriteIsRetried(ins: seq<Input>, c: nat, i: nat, n: nat, j: nat)
    requires c < n < |ins| && NoCheck(ins, c + 1, n)
    requires Checks(ins, c) && Succeeds(ins, c) && Distinct(ins[c].daemons) && i < |ins[c].daemons|
    requires ins[c].daemons[i].signature.Some? && WriteFails(After(ins[..c]), ins[c], ins[c].daemons[i])
    requires Checks(ins, n) && Succeeds(ins, n) && Distinct(ins[n].daemons) && j < |ins[n].daemons|
    requires ins[n].daemons[j].did == ins[c].daemons[i].did
    ensures var d, before := ins[n].daemons[j], Records(After(ins[..c]), ins[c].daemons[i].did);
            && d.signature.Some?
            && var signature := SignatureAt(After(ins[..n]), ins[n], d);
               var stale := !UpToDate(before, signature, ins[n]);
               && (Written(d.did, signature) in Log(ins, n) <==> stale && d.writes)
               && (WriteFailed(d.did, signature) in Log(ins, n) <==> stale && !d.writes)
               && Records(After(ins[..n + 1]), d.did) ==
                  if stale && d.writes then (Some(ins[n].now), Some(signature)) else before
  {
    RecordsSinceFailure(ins, c, i, n);
    CheckWrites(After(ins[..n]), ins[n], j);
    assert ins[..n + 1][..n] == ins[..n];
  }

  /** The log holds a write of `did` with the signature on record, made at the time on record. */
  ghost predicate Logged(log: seq<Effect>, records: (Option<int>, Option<string>), did: Did, now: int) {
    exists signature :: Written(did, signature) in log && records == (Some(now), Some(signature))
  }

  predicate Writes(e: Effect, did: Did) {
    e.Written? && e.did == did
  }

  predicate NoWrite(log: seq<Effect>, did: Did) {
    forall e :: e in log ==> !Writes(e, did)
  }

  lemma LatestWrites(p: Progress, inp: Input, d: Daemon, did: Did)
    requires p.s.release.Some?
    ensures var q := Latest(p, inp, d);
            || Logged(q.log, Records(q.s, did), did, inp.now)
            || (&& Records(q.s, did) == Records(p.s, did) && p.log <= q.log
                && (NoWrite(p.log, did) ==> NoWrite(q.log, did)))
  {
  }

  lemma VisitWrites(p: Progress, inp: Input, d: Daemon, control: bool, latest: bool, did: Did)
    ensures var q := Visit(p, inp, d, control, latest);
            || Logged(q.log, Records(q.s, did), did, inp.now)
            || (&& Records(q.s, did) == Records(p.s, did) && p.log <= q.log
                && (NoWrite(p.log, did) ==> NoWrite(q.log, did)))
  {
    var p1 := p.(s := Refresh(p.s, inp));
    var p2 := if control then Control(p1, d) else p1;
    assert NoWrite(p.log, did) ==> NoWrite(p2.log, did);
    LatestWrites(p2, inp, d, did);
  }

  /** A tick either leaves the records of `did` alone and writes no status of it, or they hold what it wrote. */
  lemma {:induction false} VisitAllLogged(s: Sched, inp: Input, ds: seq<Daemon>, control: bool, latest: bool, did: Did)
    ensures var p := VisitAll(s, inp, ds, control, latest);
            || Logged(p.log, Records(p.s, did), did, inp.now)
            || (Records(p.s, did) == Records(s, did) && NoWrite(p.log, did))
  {
    if ds != [] {
      var n := |ds| - 1;
      var p := VisitAll(s, inp, ds[..n], control, latest);
      VisitAllLogged(s, inp, ds[..n], control, latest, did);
      VisitWrites(p, inp, ds[n], control, latest, did);
    }
  }

  lemma TickLogged(s: Sched, inp: Input, did: Did)
    ensures var t := TickOf(s, inp);
            || Logged(t.log, Records(t.s, did), did, inp.now)
            || (Records(t.s, did) == Records(s, did) && NoWrite(t.log, did))
  {
    VisitAllLogged(s, inp, inp.daemons, ControlDue(s, inp), LatestDue(s, inp), did);
  }

  lemma LogOfPrefix(ins: seq<Input>, n: nat, i: nat)
    requires i < n <= |ins|
    ensures Log(ins[..n], i) == Log(ins, i) && ins[..n][i] == ins[i]
  {
    assert ins[..n][..i] == ins[..i];
  }

  /**
   What is on record for a daemon was really written: by some tick of the run, at the recorded
   time and with the recorded signature, and no later tick wrote a status of it.
   */
  lemma {:induction false} RecordedWriteHappened(ins: seq<Input>, did: Did) returns (i: nat)
    requires Records(After(ins), did) != (None, None)
    ensures i < |ins| && Logged(Log(ins, i), Records(After(ins), did), did, ins[i].now)
    ensures forall k :: i < k < |ins| ==> NoWrite(Log(ins, k), did)
  {
    var n := |ins| - 1;
    TickLogged(After(ins[..n]), ins[n], did);
    if Logged(Log(ins, n), Records(After(ins), did), did, ins[n].now) {
      i := n;
    } else {
      i := RecordedWriteHappened(ins[..n], did);
      LogOfPrefix(ins, n, i);
      forall k | i < k < |ins| ensures NoWrite(Log(ins, k), did) {
        if k < n {
          LogOfPrefix(ins, n, k);
        }
      }
    }
  }

  /** Under a rising clock no recorded write is ahead of the last tick. */
  lemma RecordedWriteNotAhead(ins: seq<Input>, did: Did)
    requires ClockRises(ins) && Records(After(ins), did) != (None, None)
    ensures did in After(ins).writeAt && After(ins).writeAt[did] <= ins[|ins| - 1].now
  {
    var i := RecordedWriteHappened(ins, did);
    assert Records(After(ins), did).0 == Some(ins[i].now);
  }

  // ----- errors

  /** The turn of `d` ends the tick with an error. */
  predicate Breaks(s: Sched, inp: Input, d: Daemon, control: bool, latest: bool) {
    || !d.reconciles
    || (control && !d.emits && !d.recordsControl)
    || (latest && (d.signature.None?
                   || (!d.writes && !d.recordsLatest
                       && !UpToDate(Records(s, d.did), SignatureAt(s, inp, d), inp))))
  }

  lemma VisitBreaks(s: Sched, p: Progress, inp: Input, d: Daemon, control: bool, latest: bool)
    requires !p.failed && Records(p.s, d.did) == Records(s, d.did)
    requires Refresh(p.s, inp).release == Refresh(s, inp).release
    ensures Visit(p, inp, d, control, latest).failed <==> Breaks(s, inp, d, control, latest)
  {
  }

  lemma {:induction false} VisitAllBreaks(s: Sched, inp: Input, ds: seq<Daemon>, control: bool, latest: bool)
    requires Distinct(ds)
    ensures VisitAll(s, inp, ds, control, latest).failed <==>
            exists i :: 0 <= i < |ds| && Breaks(s, inp, ds[i], control, latest)
  {
    if ds != [] {
      var n := |ds| - 1;
      var p := VisitAll(s, inp, ds[..n], control, latest);
      VisitAllBreaks(s, inp, ds[..n], control, latest);
      VisitAllRelease(s, inp, ds[..n], control, latest);
      VisitAllSkips(s, inp, ds[..n], control, latest, ds[n].did);
      if !p.failed {
        VisitBreaks(s, p, inp, ds[n], control, latest);
      }
      assert forall i :: 0 <= i < n ==> ds[..n][i] == ds[i];
    }
  }

  /**
   A tick returns an error exactly when it cannot start, or something is due and some daemon cannot
   be reconciled, its failed heartbeat or failed write cannot be recorded, or its status cannot be built.
   */
  lemma TickFailsIff(s: Sched, inp: Input)
    requires Distinct(inp.daemons)
    ensures var control, latest := ControlDue(s, inp), LatestDue(s, inp);
            TickOf(s, inp).result.None? <==>
            || !inp.ready
            || ((control || latest)
                && exists i :: 0 <= i < |inp.daemons| && Breaks(s, inp, inp.daemons[i], control, latest))
  {
    VisitAllBreaks(s, inp, inp.daemons, ControlDue(s, inp), LatestDue(s, inp));
  }
}

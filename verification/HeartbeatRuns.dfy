/** What the heartbeat scheduler guarantees over whole runs of ticks. */
module HeartbeatRuns {
  import opened Wrappers
  import opened Heartbeat

  // ----- one tick

  /** The agent identifiers of a tick are keys of the daemon's store, so no two are equal. */
  ghost predicate Distinct(ds: seq<Daemon>) {
    forall i, j :: 0 <= i < j < |ds| ==> ds[i].did != ds[j].did
  }

  function SignatureAt(s: Sched, inp: Input, d: Daemon): string
    requires d.signature.Some?
  {
    var r := Refresh(s, inp).release;
    d.signature.value(if r.Some? then r.value else "")
  }

  predicate WriteFails(s: Sched, inp: Input, d: Daemon)
    requires d.signature.Some?
  {
    ShouldWrite(s, inp, d.did, SignatureAt(s, inp, d)) && !d.writes
  }

  /** The records of `did`: when its status was last written, and what was written. */
  function Records(s: Sched, did: Did): (Option<int>, Option<string>) {
    (Lookup(s.writeAt, did), Lookup(s.signatures, did))
  }

  function RecordsAfter(s: Sched, inp: Input, d: Daemon): (Option<int>, Option<string>)
    requires d.signature.Some?
  {
    if ShouldWrite(s, inp, d.did, SignatureAt(s, inp, d)) && d.writes
    then (Some(inp.now), Some(SignatureAt(s, inp, d)))
    else Records(s, d.did)
  }

  lemma VisitRelease(p: Progress, inp: Input, d: Daemon, control: bool, latest: bool)
    ensures var t := Visit(p, inp, d, control, latest).s;
            && t.lastControl == p.s.lastControl && t.lastLatest == p.s.lastLatest
            && t.release == Refresh(p.s, inp).release && t.lastRelease == Refresh(p.s, inp).lastRelease
  {
  }

  lemma {:induction false} VisitAllRelease(s: Sched, inp: Input, ds: seq<Daemon>, control: bool, latest: bool)
    ensures ds != [] && !VisitAll(s, inp, ds, control, latest).failed ==>
              !VisitAll(s, inp, ds[..|ds| - 1], control, latest).failed
    ensures var t := VisitAll(s, inp, ds, control, latest).s;
            && t.lastControl == s.lastControl && t.lastLatest == s.lastLatest
            && if ds == [] then t == s
               else t.release == Refresh(s, inp).release && t.lastRelease == Refresh(s, inp).lastRelease
  {
    if ds != [] {
      var n := |ds| - 1;
      VisitAllRelease(s, inp, ds[..n], control, latest);
      VisitRelease(VisitAll(s, inp, ds[..n], control, latest), inp, ds[n], control, latest);
      if n == 0 {
        assert ds[..n] == [];
      }
    }
  }

  lemma VisitSkips(p: Progress, inp: Input, d: Daemon, control: bool, latest: bool, did: Did)
    requires latest ==> d.did != did
    ensures Records(Visit(p, inp, d, control, latest).s, did) == Records(p.s, did)
  {
  }

  /** A daemon that has no turn, or a tick that is no check, leaves the records alone. */
  lemma {:induction false} VisitAllSkips(s: Sched, inp: Input, ds: seq<Daemon>, control: bool, latest: bool, did: Did)
    requires latest ==> forall i :: 0 <= i < |ds| ==> ds[i].did != did
    ensures Records(VisitAll(s, inp, ds, control, latest).s, did) == Records(s, did)
  {
    if ds != [] {
      var n := |ds| - 1;
      VisitAllSkips(s, inp, ds[..n], control, latest, did);
      VisitSkips(VisitAll(s, inp, ds[..n], control, latest), inp, ds[n], control, latest, did);
    }
  }

  lemma LastTurnWrites(s: Sched, inp: Input, ds: seq<Daemon>, d: Daemon, control: bool, p: Progress)
    requires p == VisitAll(s, inp, ds, control, true) && !p.failed && !Visit(p, inp, d, control, true).failed
    requires forall i :: 0 <= i < |ds| ==> ds[i].did != d.did
    ensures d.signature.Some?
    ensures Records(Visit(p, inp, d, control, true).s, d.did) == RecordsAfter(s, inp, d)
  {
    VisitAllRelease(s, inp, ds, control, true);
    VisitAllSkips(s, inp, ds, control, true, d.did);
    TurnWrites(s, p, inp, d, control);
  }

  /** At a check, each daemon's records are set by its own turn alone. */
  lemma {:induction false} VisitAllWrites(s: Sched, inp: Input, ds: seq<Daemon>, control: bool, i: nat)
    requires Distinct(ds) && i < |ds| && !VisitAll(s, inp, ds, control, true).failed
    ensures ds[i].signature.Some?
    ensures Records(VisitAll(s, inp, ds, control, true).s, ds[i].did) == RecordsAfter(s, inp, ds[i])
  {
    var n := |ds| - 1;
    var p := VisitAll(s, inp, ds[..n], control, true);
    if i < n {
      VisitAllWrites(s, inp, ds[..n], control, i);
      VisitSkips(p, inp, ds[n], control, true, ds[i].did);
    } else {
      LastTurnWrites(s, inp, ds[..n], ds[n], control, p);
    }
  }

  lemma TurnWrites(s: Sched, p: Progress, inp: Input, d: Daemon, control: bool)
    requires !p.failed && !Visit(p, inp, d, control, true).failed
    requires Records(p.s, d.did) == Records(s, d.did) && Refresh(p.s, inp).release == Refresh(s, inp).release
    ensures d.signature.Some?
    ensures Records(Visit(p, inp, d, control, true).s, d.did) == RecordsAfter(s, inp, d)
  {
  }

  lemma KeptRecordIsYoung(s: Sched, inp: Input, d: Daemon)
    requires d.signature.Some? && !WriteFails(s, inp, d)
    ensures var r := RecordsAfter(s, inp, d);
            r.1 == Some(SignatureAt(s, inp, d)) && r.0.Some?
            && inp.now - r.0.value < if inp.active then ACTIVE_HEARTBEAT_MS else IDLE_HEARTBEAT_MS
  {
  }

  lemma TickRecords(s: Sched, inp: Input, i: nat)
    requires TickOf(s, inp).result.Some? && LatestDue(s, inp) && Distinct(inp.daemons) && i < |inp.daemons|
    ensures inp.daemons[i].signature.Some?
    ensures Records(TickOf(s, inp).s, inp.daemons[i].did) == RecordsAfter(s, inp, inp.daemons[i])
  {
    VisitAllWrites(s, inp, inp.daemons, ControlDue(s, inp), i);
  }

  lemma TickWithoutCheck(s: Sched, inp: Input, did: Did)
    requires !LatestDue(s, inp)
    ensures Records(TickOf(s, inp).s, did) == Records(s, did) && TickOf(s, inp).s.lastLatest == s.lastLatest
  {
    VisitAllSkips(s, inp, inp.daemons, ControlDue(s, inp), false, did);
    VisitAllRelease(s, inp, inp.daemons, ControlDue(s, inp), false);
  }

  // ----- runs

  function After(ins: seq<Input>): Sched {
    if ins == [] then INITIAL else TickOf(After(ins[..|ins| - 1]), ins[|ins| - 1]).s
  }

  /** Tick `i` of the run returned without an error. */
  predicate Succeeds(ins: seq<Input>, i: nat)
    requires i < |ins|
  {
    TickOf(After(ins[..i]), ins[i]).result.Some?
  }

  ghost predicate ClockRises(ins: seq<Input>) {
    forall i, j :: 0 <= i < j < |ins| ==> ins[i].now <= ins[j].now
  }

  predicate Checks(ins: seq<Input>, i: nat)
    requires i < |ins|
  {
    LatestDue(After(ins[..i]), ins[i])
  }

  predicate NoCheck(ins: seq<Input>, m: nat, n: nat)
    requires n <= |ins|
  {
    forall k :: m <= k < n ==> !Checks(ins, k)
  }

  /** The last tick of the run that checked the latest status. */
  function LastCheck(ins: seq<Input>): (c: nat)
    requires ins != []
    ensures c < |ins|
  {
    if |ins| == 1 || Checks(ins, |ins| - 1) then |ins| - 1 else LastCheck(ins[..|ins| - 1])
  }

  lemma ChecksOfPrefix(ins: seq<Input>, n: nat, i: nat)
    requires i < n <= |ins|
    ensures Checks(ins[..n], i) <==> Checks(ins, i)
  {
    assert ins[..n][..i] == ins[..i];
  }

  lemma NoCheckGrows(ins: seq<Input>, m: nat)
    requires ins != [] && m < |ins| && NoCheck(ins[..|ins| - 1], m, |ins| - 1) && !Checks(ins, |ins| - 1)
    ensures NoCheck(ins, m, |ins|)
  {
    forall i | m <= i < |ins| ensures !Checks(ins, i) {
      if i < |ins| - 1 {
        ChecksOfPrefix(ins, |ins| - 1, i);
      }
    }
  }

  /** Every run has a last check: the first tick is one. */
  lemma {:induction false} LastCheckIsLast(ins: seq<Input>)
    requires ins != []
    ensures Checks(ins, LastCheck(ins))
    ensures NoCheck(ins, LastCheck(ins) + 1, |ins|)
  {
    var n := |ins| - 1;
    if n == 0 {
      assert ins[..0] == [];
    } else if !Checks(ins, n) {
      LastCheckIsLast(ins[..n]);
      ChecksOfPrefix(ins, n, LastCheck(ins[..n]));
      NoCheckGrows(ins, LastCheck(ins[..n]) + 1);
    }
  }

  lemma CheckIsRecorded(ins: seq<Input>, c: nat)
    requires c < |ins| && Checks(ins, c)
    ensures After(ins[..c + 1]).lastLatest ==
            if Succeeds(ins, c) then Some(ins[c].now) else After(ins[..c]).lastLatest
  {
    var s := After(ins[..c]);
    assert ins[..c + 1][..c] == ins[..c];
    VisitAllRelease(s, ins[c], ins[c].daemons, ControlDue(s, ins[c]), true);
  }

  lemma {:induction false} QuietTicksKeepRecords(ins: seq<Input>, m: nat, n: nat, did: Did)
    requires m <= n <= |ins| && NoCheck(ins, m, n)
    ensures Records(After(ins[..n]), did) == Records(After(ins[..m]), did)
    ensures After(ins[..n]).lastLatest == After(ins[..m]).lastLatest
  {
    if m < n {
      QuietTicksKeepRecords(ins, m, n - 1, did);
      assert !Checks(ins, n - 1);
      assert ins[..n][..n - 1] == ins[..n - 1];
      TickWithoutCheck(After(ins[..n - 1]), ins[n - 1], did);
    }
  }

  lemma DueStaysDue(s: Sched, inp: Input, s': Sched, inp': Input)
    requires LatestDue(s, inp) && s'.lastLatest == s.lastLatest && inp.now <= inp'.now
    ensures LatestDue(s', inp')
  {
  }

  /** Under a rising clock, a failed check is made again by the very next tick. */
  lemma FailedCheckIsRepeated(ins: seq<Input>, c: nat)
    requires c + 1 < |ins| && Checks(ins, c) && !Succeeds(ins, c) && ins[c].now <= ins[c + 1].now
    ensures Checks(ins, c + 1)
  {
    CheckIsRecorded(ins, c);
    DueStaysDue(After(ins[..c]), ins[c], After(ins[..c + 1]), ins[c + 1]);
  }

  /** So after a tick without an error the last check is one that succeeded. */
  lemma LastCheckSucceeds(ins: seq<Input>)
    requires ins != [] && ClockRises(ins) && Succeeds(ins, |ins| - 1)
    ensures Succeeds(ins, LastCheck(ins))
  {
    var c := LastCheck(ins);
    LastCheckIsLast(ins);
    if !Succeeds(ins, c) {
      FailedCheckIsRepeated(ins, c);
      assert false;
    }
  }

  lemma NotDueIsYoung(s: Sched, inp: Input, t: int)
    requires s.lastLatest == Some(t) && !LatestDue(s, inp)
    ensures inp.now - t < LATEST_STATUS_CHECK_MS
  {
  }

  lemma LatestSince(ins: seq<Input>, c: nat, n: nat)
    requires c < n < |ins| && Checks(ins, c) && Succeeds(ins, c) && NoCheck(ins, c + 1, n)
    ensures After(ins[..n]).lastLatest == Some(ins[c].now)
  {
    CheckIsRecorded(ins, c);
    QuietTicksKeepRecords(ins, c + 1, n, "");
  }

  /** After a check that returned, the next one is made exactly when its interval has passed. */
  lemma NextCheckIff(ins: seq<Input>, c: nat, n: nat)
    requires c < n < |ins| && Checks(ins, c) && Succeeds(ins, c) && NoCheck(ins, c + 1, n)
    ensures Checks(ins, n) <==> ins[n].now - ins[c].now >= LATEST_STATUS_CHECK_MS
  {
    LatestSince(ins, c, n);
  }

  lemma YoungCheck(ins: seq<Input>, c: nat, n: nat)
    requires c <= n < |ins| && Checks(ins, c) && Succeeds(ins, c) && NoCheck(ins, c + 1, n + 1)
    ensures ins[n].now - ins[c].now < LATEST_STATUS_CHECK_MS
  {
    if c < n {
      LatestSince(ins, c, n);
      assert !Checks(ins, n);
      NotDueIsYoung(After(ins[..n]), ins[n], ins[c].now);
    }
  }

  lemma RecordsSince(ins: seq<Input>, c: nat, did: Did)
    requires c < |ins| && NoCheck(ins, c + 1, |ins|)
    ensures Records(After(ins), did) == Records(After(ins[..c + 1]), did)
  {
    QuietTicksKeepRecords(ins, c + 1, |ins|, did);
    assert ins[..|ins|] == ins;
  }

  /** Since the last check no record has moved, and the check is younger than its interval. */
  lemma SinceCheck(ins: seq<Input>, c: nat, did: Did)
    requires c < |ins| && Checks(ins, c) && Succeeds(ins, c) && NoCheck(ins, c + 1, |ins|)
    ensures ins[|ins| - 1].now - ins[c].now < LATEST_STATUS_CHECK_MS
    ensures Records(After(ins), did) == Records(After(ins[..c + 1]), did)
  {
    YoungCheck(ins, c, |ins| - 1);
    RecordsSince(ins, c, did);
  }

  /**
   After every tick, each daemon listed at the last check whose write there did not fail has on
   record the signature computed at that check, and a write younger than the interval of that
   check, active or idle, and the check interval together.
   */
  lemma StatusIsCurrent(ins: seq<Input>, c: nat, i: nat)
    requires c < |ins| && Checks(ins, c) && Succeeds(ins, c) && NoCheck(ins, c + 1, |ins|)
    requires Distinct(ins[c].daemons) && i < |ins[c].daemons|
    ensures var s, d := After(ins[..c]), ins[c].daemons[i];
            && d.signature.Some?
            && (!WriteFails(s, ins[c], d) ==>
                  && Lookup(After(ins).signatures, d.did) == Some(SignatureAt(s, ins[c], d))
                  && d.did in After(ins).writeAt
                  && ins[|ins| - 1].now - After(ins).writeAt[d.did] <
                     (if ins[c].active then ACTIVE_HEARTBEAT_MS else IDLE_HEARTBEAT_MS) + LATEST_STATUS_CHECK_MS)
  {
    var s, d := After(ins[..c]), ins[c].daemons[i];
    SinceCheck(ins, c, d.did);
    assert ins[..c + 1][..c] == ins[..c];
    TickRecords(s, ins[c], i);
    if !WriteFails(s, ins[c], d) {
      KeptRecordIsYoung(s, ins[c], d);
    }
  }

  /** A failed write leaves both records as they were. */
  lemma FailedWriteLeavesRecords(ins: seq<Input>, c: nat, i: nat)
    requires c < |ins| && Checks(ins, c) && Succeeds(ins, c) && Distinct(ins[c].daemons) && i < |ins[c].daemons|
    requires ins[c].daemons[i].signature.Some? && WriteFails(After(ins[..c]), ins[c], ins[c].daemons[i])
    ensures Records(After(ins[..c + 1]), ins[c].daemons[i].did) == Records(After(ins[..c]), ins[c].daemons[i].did)
  {
    assert ins[..c + 1][..c] == ins[..c];
    TickRecords(After(ins[..c]), ins[c], i);
  }

  // ----- the release cache

  /** The cached release status is what some tick checked, at the recorded time. */
  lemma {:induction false} ReleaseIsChecked(ins: seq<Input>)
    ensures After(ins).release.Some? <==> After(ins).lastRelease.Some?
    ensures After(ins).release.Some? ==>
              exists i :: 0 <= i < |ins| && After(ins).release == Some(ins[i].checked)
                          && After(ins).lastRelease == Some(ins[i].now)
  {
    if ins != [] {
      var n := |ins| - 1;
      var s := After(ins[..n]);
      ReleaseIsChecked(ins[..n]);
      VisitAllRelease(s, ins[n], ins[n].daemons, ControlDue(s, ins[n]), LatestDue(s, ins[n]));
      assert forall i :: 0 <= i < n ==> ins[..n][i] == ins[i];
    }
  }

  /** A tick that visits a daemon, even one that then fails, works from a release status younger than its interval. */
  lemma ReleaseIsCurrent(ins: seq<Input>, inp: Input)
    requires inp.ready && inp.daemons != []
    requires ControlDue(After(ins), inp) || LatestDue(After(ins), inp)
    ensures After(ins + [inp]).lastRelease.Some?
    ensures inp.now - After(ins + [inp]).lastRelease.value < RELEASE_STATUS_CHECK_MS
  {
    var s := After(ins);
    assert (ins + [inp])[..|ins|] == ins && (ins + [inp])[|ins|] == inp;
    ReleaseIsChecked(ins);
    VisitAllRelease(s, inp, inp.daemons, ControlDue(s, inp), LatestDue(s, inp));
  }

  /** The time on the release cache, as tick `i` leaves it. */
  function StampAfter(ins: seq<Input>, i: nat): Option<int>
    requires i < |ins|
  {
    After(ins[..i + 1]).lastRelease
  }

  lemma TickRelease(s: Sched, inp: Input)
    requires s.release.Some?
    ensures var t := TickOf(s, inp).s;
            && t.release.Some?
            && (t.lastRelease == s.lastRelease
                || (Due(s.lastRelease, inp.now, RELEASE_STATUS_CHECK_MS) && t.lastRelease == Some(inp.now)))
  {
    VisitAllRelease(s, inp, inp.daemons, ControlDue(s, inp), LatestDue(s, inp));
  }

  /** The release status is checked again only after its interval: no tick moves a younger stamp. */
  lemma ReleaseIsKept(ins: seq<Input>, i: nat)
    requires i < |ins| && After(ins[..i]).lastRelease.Some?
    ensures var before := After(ins[..i]).lastRelease.value;
            || StampAfter(ins, i) == Some(before)
            || (StampAfter(ins, i) == Some(ins[i].now) && ins[i].now - before >= RELEASE_STATUS_CHECK_MS)
  {
    assert ins[..i + 1][..i] == ins[..i];
    ReleaseIsChecked(ins[..i]);
    TickRelease(After(ins[..i]), ins[i]);
  }
}

/** The heartbeat scheduler: one tick as a function of its inputs, and the object that runs it. */
module Heartbeat {
  import opened Wrappers

  const IDLE_HEARTBEAT_MS := 5 * 60 * 1000
  const ACTIVE_HEARTBEAT_MS := 30 * 1000
  const LATEST_STATUS_CHECK_MS := 10 * 1000
  const RELEASE_STATUS_CHECK_MS := 5 * 60 * 1000
  const I64_MAX := 0x7fff_ffff_ffff_ffff
  const I64_MIN := -0x8000_0000_0000_0000

  type Did = string
  type Release = string

  /**
   What a tick meets for one daemon. `signature` is the signature of its status items under a
   release status, or `None` when the items cannot be built; the booleans are the calls that
   may fail.
   */
  datatype Daemon = Daemon(
    did: Did,
    reconciles: bool,
    emits: bool,
    recordsControl: bool,
    signature: Option<Release -> string>,
    writes: bool,
    recordsLatest: bool)

  /** What a tick meets: the clock, whether runs or attention are active, the release check, the daemons. */
  datatype Input = Input(ready: bool, now: int, active: bool, checked: Release, daemons: seq<Daemon>)

  datatype Sched = Sched(
    lastControl: Option<int>,
    lastLatest: Option<int>,
    lastRelease: Option<int>,
    release: Option<Release>,
    writeAt: map<Did, int>,
    signatures: map<Did, string>)

  /** What a tick does to the outside: heartbeats it sends or fails to send, statuses it writes or fails to write. */
  datatype Effect =
    | Emitted(did: Did)
    | EmitFailed(did: Did)
    | Written(did: Did, signature: string)
    | WriteFailed(did: Did, signature: string)

  datatype Outcome = Outcome(emitted: bool, wrote: bool, active: bool)

  const INITIAL := Sched(None, None, None, None, map[], map[])

  function SaturatingSub(a: int, b: int): int {
    if a - b > I64_MAX then I64_MAX else if a - b < I64_MIN then I64_MIN else a - b
  }

  predicate Due(last: Option<int>, now: int, interval: int) {
    last.Some? ==> SaturatingSub(now, last.value) >= interval
  }

  function Interval(active: bool): int {
    if active then ACTIVE_HEARTBEAT_MS else IDLE_HEARTBEAT_MS
  }

  function Lookup<V>(m: map<Did, V>, d: Did): Option<V> {
    if d in m then Some(m[d]) else None
  }

  /** The release cache is refreshed when it is empty or old. */
  function Refresh(s: Sched, inp: Input): Sched {
    if Due(s.lastRelease, inp.now, RELEASE_STATUS_CHECK_MS) || s.release.None?
    then s.(lastRelease := Some(inp.now), release := Some(inp.checked))
    else s
  }

  predicate ShouldWrite(s: Sched, inp: Input, did: Did, signature: string) {
    || Lookup(s.signatures, did) != Some(signature)
    || did !in s.writeAt
    || Due(Lookup(s.writeAt, did), inp.now, Interval(inp.active))
  }

  function Wrote(s: Sched, inp: Input, did: Did, signature: string): Sched {
    s.(writeAt := s.writeAt[did := inp.now], signatures := s.signatures[did := signature])
  }

  /** The loop of a tick: scheduler, effects, whether anything was emitted or written, whether it failed. */
  datatype Progress = Progress(s: Sched, log: seq<Effect>, emitted: bool, wrote: bool, failed: bool)

  function Latest(p: Progress, inp: Input, d: Daemon): Progress
    requires p.s.release.Some?
  {
    if d.signature.None? then p.(failed := true)
    else
      var signature := d.signature.value(p.s.release.value);
      if !ShouldWrite(p.s, inp, d.did, signature) then p
      else if d.writes then
        p.(s := Wrote(p.s, inp, d.did, signature), log := p.log + [Written(d.did, signature)], wrote := true)
      else p.(log := p.log + [WriteFailed(d.did, signature)], failed := !d.recordsLatest)
  }

  function Control(p: Progress, d: Daemon): Progress {
    if d.emits then p.(log := p.log + [Emitted(d.did)], emitted := true)
    else p.(log := p.log + [EmitFailed(d.did)], failed := !d.recordsControl)
  }

  function Visit(p: Progress, inp: Input, d: Daemon, control: bool, latest: bool): Progress {
    var p1 := p.(s := Refresh(p.s, inp));
    if !d.reconciles then p1.(failed := true)
    else
      var p2 := if control then Control(p1, d) else p1;
      if p2.failed || !latest then p2 else Latest(p2, inp, d)
  }

  function VisitAll(s: Sched, inp: Input, ds: seq<Daemon>, control: bool, latest: bool): Progress {
    if ds == [] then Progress(s, [], false, false, false)
    else
      var p := VisitAll(s, inp, ds[..|ds| - 1], control, latest);
      if p.failed then p else Visit(p, inp, ds[|ds| - 1], control, latest)
  }

  predicate ControlDue(s: Sched, inp: Input) {
    Due(s.lastControl, inp.now, Interval(inp.active))
  }

  predicate LatestDue(s: Sched, inp: Input) {
    Due(s.lastLatest, inp.now, LATEST_STATUS_CHECK_MS)
  }

  datatype Ticked = Ticked(s: Sched, log: seq<Effect>, result: Option<Outcome>)

  /** One tick: the scheduler after it, its effects, and its outcome, or `None` when it returns an error. */
  function TickOf(s: Sched, inp: Input): Ticked {
    var control, latest := ControlDue(s, inp), LatestDue(s, inp);
    if !inp.ready then Ticked(s, [], None)
    else if !control && !latest then Ticked(s, [], Some(Outcome(false, false, inp.active)))
    else
      var p := VisitAll(s, inp, inp.daemons, control, latest);
      if p.failed then Ticked(p.s, p.log, None)
      else
        Ticked(p.s.(lastControl := if control then Some(inp.now) else p.s.lastControl,
                    lastLatest := if latest then Some(inp.now) else p.s.lastLatest),
               p.log, Some(Outcome(p.emitted, p.wrote, inp.active)))
  }

  lemma {:induction false} VisitAllFailed(s: Sched, inp: Input, n: nat, control: bool, latest: bool)
    requires n <= |inp.daemons| && VisitAll(s, inp, inp.daemons[..n], control, latest).failed
    ensures VisitAll(s, inp, inp.daemons, control, latest) == VisitAll(s, inp, inp.daemons[..n], control, latest)
    decreases |inp.daemons| - n
  {
    if n < |inp.daemons| {
      assert inp.daemons[..n + 1][..n] == inp.daemons[..n];
      VisitAllFailed(s, inp, n + 1, control, latest);
    } else {
      assert inp.daemons[..n] == inp.daemons;
    }
  }

  lemma VisitNext(s: Sched, inp: Input, i: nat, control: bool, latest: bool, p: Progress)
    requires i < |inp.daemons| && p == VisitAll(s, inp, inp.daemons[..i], control, latest) && !p.failed
    ensures VisitAll(s, inp, inp.daemons[..i + 1], control, latest) == Visit(p, inp, inp.daemons[i], control, latest)
  {
    assert inp.daemons[..i + 1][..i] == inp.daemons[..i];
  }

  class HeartbeatScheduler {
    var lastControl: Option<int>
    var lastLatest: Option<int>
    var lastRelease: Option<int>
    var release: Option<Release>
    var writeAt: map<Did, int>
    var signatures: map<Did, string>

    function State(): Sched
      reads this
    {
      Sched(lastControl, lastLatest, lastRelease, release, writeAt, signatures)
    }

    constructor ()
      ensures State() == INITIAL
    {
      lastControl, lastLatest, lastRelease, release := None, None, None, None;
      writeAt, signatures := map[], map[];
    }

    method ReleaseStatus(inp: Input) returns (r: Release)
      modifies this`lastRelease, this`release
      ensures State() == Refresh(old(State()), inp) && Some(r) == release
    {
      var due := lastRelease.None? || SaturatingSub(inp.now, lastRelease.value) >= RELEASE_STATUS_CHECK_MS;
      if due || release.None? {
        lastRelease, release := Some(inp.now), Some(inp.checked);
      }
      r := release.value;
    }

    /** The latest-status part of one daemon's turn. */
    method WriteLatest(inp: Input, d: Daemon, r: Release, p: Progress) returns (q: Progress)
      requires p.s == State() && !p.failed && release == Some(r)
      modifies this`writeAt, this`signatures
      ensures q == Latest(p, inp, d) && q.s == State()
    {
      if d.signature.None? { return p.(failed := true); }
      var signature := d.signature.value(r);
      var changed := if d.did in signatures then signatures[d.did] != signature else true;
      var intervalDue :=
        if d.did in writeAt then SaturatingSub(inp.now, writeAt[d.did]) >= Interval(inp.active) else true;
      q := p;
      if changed || d.did !in writeAt || intervalDue {
        if d.writes {
          writeAt := writeAt[d.did := inp.now];
          signatures := signatures[d.did := signature];
          q := Progress(State(), p.log + [Written(d.did, signature)], p.emitted, true, false);
        } else {
          q := p.(log := p.log + [WriteFailed(d.did, signature)], failed := !d.recordsLatest);
        }
      }
    }

    /** One daemon's turn in the loop of a tick. */
    method Turn(inp: Input, d: Daemon, control: bool, latest: bool, p: Progress) returns (q: Progress)
      requires p.s == State() && !p.failed
      modifies this`lastRelease, this`release, this`writeAt, this`signatures
      ensures q == Visit(p, inp, d, control, latest) && q.s == State()
    {
      var r := ReleaseStatus(inp);
      q := p.(s := State());
      if !d.reconciles { return q.(failed := true); }
      if control {
        if d.emits {
          q := q.(log := q.log + [Emitted(d.did)], emitted := true);
        } else {
          q := q.(log := q.log + [EmitFailed(d.did)], failed := !d.recordsControl);
          if q.failed { return; }
        }
      }
      if latest {
        q := WriteLatest(inp, d, r, q);
      }
    }

    method Visits(inp: Input, control: bool, latest: bool) returns (p: Progress)
      modifies this`lastRelease, this`release, this`writeAt, this`signatures
      ensures p == VisitAll(old(State()), inp, inp.daemons, control, latest) && p.s == State()
    {
      ghost var s := State();
      p := Progress(State(), [], false, false, false);
      for i := 0 to |inp.daemons|
        invariant p == VisitAll(s, inp, inp.daemons[..i], control, latest) && p.s == State() && !p.failed
      {
        VisitNext(s, inp, i, control, latest, p);
        p := Turn(inp, inp.daemons[i], control, latest, p);
        if p.failed {
          VisitAllFailed(s, inp, i + 1, control, latest);
          return;
        }
      }
      assert inp.daemons[..|inp.daemons|] == inp.daemons;
    }

    /** `tick`, which also returns the effects it had. */
    method Tick(inp: Input) returns (log: seq<Effect>, r: Option<Outcome>)
      modifies this
      ensures Ticked(State(), log, r) == TickOf(old(State()), inp)
    {
      if !inp.ready { return [], None; }
      var control := lastControl.None? || SaturatingSub(inp.now, lastControl.value) >= Interval(inp.active);
      var latest := lastLatest.None? || SaturatingSub(inp.now, lastLatest.value) >= LATEST_STATUS_CHECK_MS;
      if !control && !latest { return [], Some(Outcome(false, false, inp.active)); }
      var p := Visits(inp, control, latest);
      if p.failed { return p.log, None; }
      if control { lastControl := Some(inp.now); }
      if latest { lastLatest := Some(inp.now); }
      return p.log, Some(Outcome(p.emitted, p.wrote, inp.active));
    }
  }
}

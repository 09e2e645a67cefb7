/** The notification handler: threads that check, forward and remember, interleaved in any way. */
module DedupeHandler {
  import opened DedupeCache

  /** Where the thread of one request stands. It reads the clock before it waits for the lock. */
  datatype Phase =
    | Received(id: Key)                       // validated, not yet checked
    | Asking(id: Key, now: real)              // has read the clock for its check
    | Fresh(id: Key, at: nat)                 // not a duplicate by cache call `at`, about to be forwarded
    | Accepted(id: Key, at: nat)              // forwarded with success, about to be remembered
    | Noting(id: Key, at: nat, now: real)     // has read the clock for its remember call

  datatype Event =
    | Answered(id: Key, duplicate: bool, at: nat)   // the answer of cache call `at`
    | ForwardOk(thread: nat, id: Key, at: nat)      // forwarded on the answer of cache call `at`
    | ForwardFailed(thread: nat, id: Key)
    | Noted(thread: nat, id: Key, at: nat)          // remembered by cache call `at`

  /** `calls` are the cache calls so far and `stores` the cache after each; `history` is what happened. */
  datatype State = State(calls: seq<Call>, stores: seq<Store>, threads: map<nat, Phase>, history: seq<Event>)

  const INITIAL := State([], [map[]], map[], [])

  datatype Action =
    | Receive(thread: nat, id: Key)
    | ReadClock(thread: nat, now: real)
    | Ask(thread: nat)
    | Forward(thread: nat, ok: bool)
    | Note(thread: nat)

  function Last(s: State): Store
    requires s.stores != []
  {
    s.stores[|s.stores| - 1]
  }

  function Move(s: State, thread: nat, phase: Phase, e: Event): State {
    s.(threads := s.threads[thread := phase], history := s.history + [e])
  }

  function Finish(s: State, thread: nat, e: Event): State {
    s.(threads := s.threads - {thread}, history := s.history + [e])
  }

  /** The clock shows a time since the epoch, whatever order its readings have. */
  predicate ClockStep(s: State, t: nat, now: real, s': State) {
    && now >= 0.0 && t in s.threads
    && match s.threads[t]
       case Received(id) => s' == s.(threads := s.threads[t := Asking(id, now)])
       case Accepted(id, at) => s' == s.(threads := s.threads[t := Noting(id, at, now)])
       case _ => false
  }

  predicate AskStep(s: State, t: nat, s': State) {
    && s.stores != [] && t in s.threads && s.threads[t].Asking?
    && var id, now, at := s.threads[t].id, s.threads[t].now, |s.calls|;
       var cached := s.(calls := s.calls + [Check(id, now)], stores := s.stores + [Live(Last(s), now)]);
       if Duplicate(Last(s), id, now)
       then s' == Finish(cached, t, Answered(id, true, at))
       else s' == Move(cached, t, Fresh(id, at), Answered(id, false, at))
  }

  predicate ForwardStep(s: State, t: nat, ok: bool, s': State) {
    && t in s.threads && s.threads[t].Fresh?
    && var id, at := s.threads[t].id, s.threads[t].at;
       s' == if ok then Move(s, t, Accepted(id, at), ForwardOk(t, id, at)) else Finish(s, t, ForwardFailed(t, id))
  }

  ghost predicate NoteStep(l: Limits, s: State, t: nat, s': State) {
    && s.stores != [] && t in s.threads && s.threads[t].Noting?
    && var id, now := s.threads[t].id, s.threads[t].now;
       exists store :: Remembers(l, Last(s), id, now, store)
         && s' == Finish(s.(calls := s.calls + [Remember(id, now)], stores := s.stores + [store]),
                         t, Noted(t, id, |s.calls|))
  }

  ghost predicate Step(l: Limits, s: State, a: Action, s': State) {
    match a
    case Receive(t, id) => t !in s.threads && s' == s.(threads := s.threads[t := Received(id)])
    case ReadClock(t, now) => ClockStep(s, t, now, s')
    case Ask(t) => AskStep(s, t, s')
    case Forward(t, ok) => ForwardStep(s, t, ok, s')
    case Note(t) => NoteStep(l, s, t, s')
  }

  /** `states` and `acts` alternate. */
  ghost predicate Steps(l: Limits, states: seq<State>, acts: seq<Action>) {
    && |states| == |acts| + 1
    && forall i :: 0 <= i < |acts| ==> Step(l, states[i], acts[i], states[i + 1])
  }

  ghost predicate Run(l: Limits, states: seq<State>, acts: seq<Action>) {
    Steps(l, states, acts) && states[0] == INITIAL
  }

  // ----- the invariant

  /** The cache calls are a run of the cache, and every answer is the one the cache gave. */
  ghost predicate CacheInv(l: Limits, s: State) {
    && DedupeCache.Run(l, s.calls, s.stores)
    && (forall i :: 0 <= i < |s.calls| ==> s.calls[i].now >= 0.0)
    && (forall t :: t in s.threads && (s.threads[t].Asking? || s.threads[t].Noting?) ==> s.threads[t].now >= 0.0)
    && (forall i :: 0 <= i < |s.history| && s.history[i].Answered? ==>
          AnswerOf(s, s.history[i].id, s.history[i].duplicate, s.history[i].at))
  }

  /** Cache call `at` checked `id` and this was its answer. */
  predicate AnswerOf(s: State, id: Key, duplicate: bool, at: nat) {
    && at < |s.calls| && at < |s.stores| && s.calls[at].Check? && s.calls[at].key == id
    && duplicate == Duplicate(s.stores[at], id, s.calls[at].now)
  }

  /** Thread `t` has forwarded `id` with success. */
  ghost predicate Forwarded(history: seq<Event>, t: nat, id: Key) {
    exists i :: 0 <= i < |history| && history[i].ForwardOk? && history[i].thread == t && history[i].id == id
  }

  /** Cache call `c` remembered `id` after its own thread had forwarded it with success. */
  ghost predicate NotedAfterForward(history: seq<Event>, c: nat, id: Key) {
    exists p, t :: 0 <= p < |history| && history[p] == Noted(t, id, c) && Forwarded(history[..p], t, id)
  }

  /** Every remember call follows a successful forward of the same id by the same thread. */
  ghost predicate ForwardInv(s: State) {
    && (forall t :: t in s.threads && (s.threads[t].Accepted? || s.threads[t].Noting?) ==>
          Forwarded(s.history, t, s.threads[t].id))
    && (forall c :: 0 <= c < |s.calls| && s.calls[c].Remember? ==> NotedAfterForward(s.history, c, s.calls[c].key))
  }

  lemma AskKeepsCache(l: Limits, s: State, t: nat, s': State)
    requires CacheInv(l, s) && AskStep(s, t, s')
    ensures CacheInv(l, s')
  {
    var id, now := s.threads[t].id, s.threads[t].now;
    DedupeCache.RunExtends(l, s.calls, s.stores, Check(id, now), Live(Last(s), now));
  }

  lemma NoteKeepsCache(l: Limits, s: State, t: nat, s': State)
    requires CacheInv(l, s) && NoteStep(l, s, t, s')
    ensures CacheInv(l, s')
  {
    var id, now := s.threads[t].id, s.threads[t].now;
    var store :| Remembers(l, Last(s), id, now, store) && s'.stores == s.stores + [store];
    DedupeCache.RunExtends(l, s.calls, s.stores, Remember(id, now), store);
  }

  lemma StepKeepsCache(l: Limits, s: State, a: Action, s': State)
    requires CacheInv(l, s) && Step(l, s, a, s')
    ensures CacheInv(l, s')
  {
    match a
    case Receive(_, _) =>
    case ReadClock(_, _) =>
    case Ask(t) => AskKeepsCache(l, s, t, s');
    case Forward(_, _) =>
    case Note(t) => NoteKeepsCache(l, s, t, s');
  }

  lemma ForwardedStays(history: seq<Event>, e: Event, t: nat, id: Key)
    requires Forwarded(history, t, id)
    ensures Forwarded(history + [e], t, id)
  {
    var i :| 0 <= i < |history| && history[i].ForwardOk? && history[i].thread == t && history[i].id == id;
    assert (history + [e])[i] == history[i];
  }

  lemma NotedStays(history: seq<Event>, e: Event, c: nat, id: Key)
    requires NotedAfterForward(history, c, id)
    ensures NotedAfterForward(history + [e], c, id)
  {
    var p, t :| 0 <= p < |history| && history[p] == Noted(t, id, c) && Forwarded(history[..p], t, id);
    assert (history + [e])[..p] == history[..p] && (history + [e])[p] == history[p];
  }

  /** A longer history forgets neither forwards nor notes. */
  lemma HistoryGrows(history: seq<Event>, e: Event)
    ensures forall t, id :: Forwarded(history, t, id) ==> Forwarded(history + [e], t, id)
    ensures forall c: nat, id :: NotedAfterForward(history, c, id) ==> NotedAfterForward(history + [e], c, id)
  {
    forall t, id | Forwarded(history, t, id) ensures Forwarded(history + [e], t, id) {
      ForwardedStays(history, e, t, id);
    }
    forall c: nat, id | NotedAfterForward(history, c, id) ensures NotedAfterForward(history + [e], c, id) {
      NotedStays(history, e, c, id);
    }
  }

  lemma ForwardKeepsForward(s: State, t: nat, ok: bool, s': State)
    requires ForwardInv(s) && ForwardStep(s, t, ok, s')
    ensures ForwardInv(s')
  {
    var n := |s.history|;
    HistoryGrows(s.history, s'.history[n]);
    assert s'.history == s.history + [s'.history[n]];
    if ok {
      assert Forwarded(s'.history, t, s.threads[t].id);
    }
  }

  lemma AskKeepsForward(s: State, t: nat, s': State)
    requires ForwardInv(s) && AskStep(s, t, s')
    ensures ForwardInv(s')
  {
    var n := |s.history|;
    HistoryGrows(s.history, s'.history[n]);
    assert s'.history == s.history + [s'.history[n]];
  }

  lemma NoteKeepsForward(l: Limits, s: State, t: nat, s': State)
    requires ForwardInv(s) && NoteStep(l, s, t, s')
    ensures ForwardInv(s')
  {
    var n, id := |s.history|, s.threads[t].id;
    HistoryGrows(s.history, s'.history[n]);
    assert s'.history == s.history + [s'.history[n]];
    assert s'.history[..n] == s.history && s'.history[n] == Noted(t, id, |s.calls|);
    assert NotedAfterForward(s'.history, |s.calls|, id);
  }

  lemma StepKeepsForward(l: Limits, s: State, a: Action, s': State)
    requires ForwardInv(s) && Step(l, s, a, s')
    ensures ForwardInv(s')
  {
    match a
    case Receive(_, _) =>
    case ReadClock(_, _) =>
    case Ask(t) => AskKeepsForward(s, t, s');
    case Forward(t, ok) => ForwardKeepsForward(s, t, ok, s');
    case Note(t) => NoteKeepsForward(l, s, t, s');
  }

  lemma StepKeeps(l: Limits, s: State, a: Action, s': State)
    requires CacheInv(l, s) && ForwardInv(s) && Step(l, s, a, s')
    ensures CacheInv(l, s') && ForwardInv(s')
  {
    StepKeepsCache(l, s, a, s');
    StepKeepsForward(l, s, a, s');
  }

  lemma StepAt(l: Limits, states: seq<State>, acts: seq<Action>, i: nat)
    requires Steps(l, states, acts) && i < |acts|
    ensures Step(l, states[i], acts[i], states[i + 1])
  {
  }

  lemma {:induction false} RunKeeps(l: Limits, states: seq<State>, acts: seq<Action>, n: nat)
    requires Run(l, states, acts) && n < |states|
    ensures CacheInv(l, states[n]) && ForwardInv(states[n])
  {
    if n > 0 {
      var i := n - 1;
      RunKeeps(l, states, acts, i);
      StepAt(l, states, acts, i);
      StepKeeps(l, states[i], acts[i], states[i + 1]);
    }
  }

  // ----- what the answers mean

  /**
   Over every interleaving a request is answered `duplicate` only if the same id was forwarded
   with success before and remembered within its lifetime.
   */
  lemma DuplicateMeansForwarded(l: Limits, states: seq<State>, acts: seq<Action>, n: nat) returns (c: nat)
    requires Run(l, states, acts) && n < |acts| && acts[n].Ask?
    requires AskStep(states[n], acts[n].thread, states[n + 1])
    requires var phase := states[n].threads[acts[n].thread]; Duplicate(Last(states[n]), phase.id, phase.now)
    ensures var s, phase := states[n], states[n].threads[acts[n].thread];
            && c < |s.calls| && s.calls[c].Remember? && s.calls[c].key == phase.id
            && phase.now < s.calls[c].now + l.ttl && NotedAfterForward(s.history, c, phase.id)
  {
    RunKeeps(l, states, acts, n);
    var s, phase := states[n], states[n].threads[acts[n].thread];
    c := DuplicateWasRemembered(l, s.calls, s.stores, |s.calls|, phase.id, phase.now);
  }

  lemma NotedWasForwarded(history: seq<Event>, c: nat, id: Key)
    requires NotedAfterForward(history, c, id)
    ensures exists t :: Forwarded(history, t, id)
  {
    var p, t :| 0 <= p < |history| && history[p] == Noted(t, id, c) && Forwarded(history[..p], t, id);
    var i :| 0 <= i < p && history[..p][i].ForwardOk? && history[..p][i].thread == t && history[..p][i].id == id;
    assert history[i] == history[..p][i];
    assert Forwarded(history, t, id);
  }

  /** While no forward of an id has succeeded, every request for it goes on to be forwarded. */
  lemma FailedForwardsDoNotSuppress(l: Limits, states: seq<State>, acts: seq<Action>, n: nat)
    requires Run(l, states, acts) && n < |acts| && acts[n].Ask?
    requires AskStep(states[n], acts[n].thread, states[n + 1])
    requires var id := states[n].threads[acts[n].thread].id; forall t :: !Forwarded(states[n].history, t, id)
    ensures var t := acts[n].thread;
            t in states[n + 1].threads && states[n + 1].threads[t] == Fresh(states[n].threads[t].id, |states[n].calls|)
  {
    var s, phase := states[n], states[n].threads[acts[n].thread];
    if Duplicate(Last(s), phase.id, phase.now) {
      var c := DuplicateMeansForwarded(l, states, acts, n);
      NotedWasForwarded(s.history, c, phase.id);
    }
  }

  /**
   Every answer in every history is exact, even where threads overtake each other between
   reading the clock and taking the lock: for the last remember call of the id before it, with
   fewer than `max` rivals, `duplicate` means that no call since, this one included, was made
   at or after its expiry.
   */
  lemma AnswersAreExact(l: Limits, states: seq<State>, acts: seq<Action>, n: nat, h: nat, i: nat)
    requires Run(l, states, acts) && n < |states| && h < |states[n].history| && states[n].history[h].Answered?
    requires var e, calls := states[n].history[h], states[n].calls;
             IsLast(calls, i, e.at) && calls[i].key == e.id && RivalCount(calls, i, e.at) < l.max
    ensures var e, calls := states[n].history[h], states[n].calls;
            e.at < |calls| && (e.duplicate <==> Alive(l, calls, i, e.at + 1))
  {
    RunKeeps(l, states, acts, n);
    var s, e := states[n], states[n].history[h];
    assert AnswerOf(s, e.id, e.duplicate, e.at);
    DuplicateIff(l, s.calls, s.stores, i, e.at, s.calls[e.at].now);
    AliveNext(l, s.calls, i, e.at);
  }

  /** Readings that rise in time can still reach the cache in the other order. */
  lemma ReadingsAreOvertaken(l: Limits, a: Key, b: Key) returns (states: seq<State>, acts: seq<Action>)
    ensures Run(l, states, acts) && |acts| == 6 && acts[2..4] == [ReadClock(0, 1.0), ReadClock(1, 2.0)]
    ensures states[|acts|].calls == [Check(b, 2.0), Check(a, 1.0)]
  {
    var none: Store := map[];
    assert Live(none, 1.0) == none && Live(none, 2.0) == none;
    var s1 := INITIAL.(threads := map[0 := Received(a)]);
    var s2 := s1.(threads := s1.threads[1 := Received(b)]);
    var s3 := s2.(threads := s2.threads[0 := Asking(a, 1.0)]);
    var s4 := s3.(threads := s3.threads[1 := Asking(b, 2.0)]);
    var s5 := Move(s4.(calls := [Check(b, 2.0)], stores := [none, none]), 1, Fresh(b, 0), Answered(b, false, 0));
    var s6 := Move(s5.(calls := s5.calls + [Check(a, 1.0)], stores := s5.stores + [none]), 0, Fresh(a, 1),
                   Answered(a, false, 1));
    states := [INITIAL, s1, s2, s3, s4, s5, s6];
    acts := [Receive(0, a), Receive(1, b), ReadClock(0, 1.0), ReadClock(1, 2.0), Ask(1), Ask(0)];
    assert s1.threads == INITIAL.threads[0 := Received(a)];
    assert AskStep(s4, 1, s5);
    assert AskStep(s5, 0, s6);
  }
}

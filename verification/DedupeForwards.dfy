/** How often an id is forwarded, over every interleaving of the request threads. */
module DedupeForwards {
  import opened DedupeCache
  import opened DedupeHandler

  /** What a thread is about to do with an id, and the cache call it goes back to. */
  datatype Flight = Idle | Told(at: nat) | Sent(at: nat)

  function FlightOf(s: State, t: nat, id: Key): Flight {
    if t !in s.threads || s.threads[t].id != id then Idle
    else
      match s.threads[t]
      case Fresh(_, at) => Told(at)
      case Accepted(_, at) => Sent(at)
      case Noting(_, at, _) => Sent(at)
      case _ => Idle
  }

  /** No thread but `t` was told to forward `id` without having failed or remembered it since. */
  ghost predicate Alone(s: State, t: nat, id: Key) {
    forall u: nat :: u != t ==> FlightOf(s, u, id).Idle?
  }

  predicate AsksFor(s: State, a: Action, id: Key) {
    a.Ask? && a.thread in s.threads && s.threads[a.thread].Asking? && s.threads[a.thread].id == id
  }

  /** Each request for `id` is checked while no other request for it is in flight. */
  ghost predicate Exclusive(states: seq<State>, acts: seq<Action>, id: Key) {
    |acts| < |states| &&
    forall i :: 0 <= i < |acts| && AsksFor(states[i], acts[i], id) ==> Alone(states[i], acts[i].thread, id)
  }

  /** A cache call between `a` and `b` remembers `id`. */
  ghost predicate Remembered(calls: seq<Call>, id: Key, a: nat, b: nat) {
    exists c :: a < c < b && c < |calls| && calls[c].Remember? && calls[c].key == id
  }

  predicate IsForward(e: Event, id: Key) {
    e.ForwardOk? && e.id == id
  }

  /** Two forwards of `id` without a remember call between the checks they go back to. */
  ghost predicate ForwardedTwice(s: State, id: Key) {
    exists p, q :: 0 <= p < q < |s.history| && IsForward(s.history[p], id) && IsForward(s.history[q], id)
                   && !Remembered(s.calls, id, s.history[p].at, s.history[q].at)
  }

  // ----- what holds while requests for the id do not overlap

  ghost predicate Unique(s: State, id: Key) {
    forall t: nat, u: nat :: !FlightOf(s, t, id).Idle? && !FlightOf(s, u, id).Idle? ==> t == u
  }

  /** Every forward, made or to come, goes back to a negative answer. */
  ghost predicate Negative(s: State, id: Key) {
    && |s.stores| == |s.calls| + 1
    && (forall p :: 0 <= p < |s.history| && IsForward(s.history[p], id) ==> AnswerOf(s, id, false, s.history[p].at))
    && (forall t: nat :: !FlightOf(s, t, id).Idle? ==> AnswerOf(s, id, false, FlightOf(s, t, id).at))
  }

  /** A thread in flight has not yet been remembered; what it forwarded is in the history. */
  ghost predicate Pending(s: State, id: Key) {
    forall t: nat :: !FlightOf(s, t, id).Idle? ==>
      && !Remembered(s.calls, id, FlightOf(s, t, id).at, |s.calls|)
      && (FlightOf(s, t, id).Sent? ==> ForwardOk(t, id, FlightOf(s, t, id).at) in s.history)
  }

  /** The forward that goes back to call `at` was remembered, or its thread is about to do so. */
  ghost predicate Settled(s: State, id: Key, at: nat) {
    Remembered(s.calls, id, at, |s.calls|) || exists t: nat :: FlightOf(s, t, id) == Sent(at)
  }

  ghost predicate Covered(s: State, id: Key) {
    && (forall p :: 0 <= p < |s.history| && IsForward(s.history[p], id) ==> Settled(s, id, s.history[p].at))
    && (forall t: nat, p :: FlightOf(s, t, id).Told? && 0 <= p < |s.history| && IsForward(s.history[p], id) ==>
          Remembered(s.calls, id, s.history[p].at, FlightOf(s, t, id).at))
    && !ForwardedTwice(s, id)
  }

  ghost predicate OnceInv(s: State, id: Key) {
    Unique(s, id) && Negative(s, id) && Pending(s, id) && Covered(s, id)
  }

  lemma RememberedGrows(calls: seq<Call>, c: Call, id: Key, a: nat, b: nat)
    ensures b <= |calls| ==> (Remembered(calls + [c], id, a, b) <==> Remembered(calls, id, a, b))
    ensures Remembered(calls + [c], id, a, |calls| + 1) <==>
              Remembered(calls, id, a, |calls|) || (a < |calls| && c.Remember? && c.key == id)
  {
    forall i | 0 <= i < |calls| ensures (calls + [c])[i] == calls[i] {}
    assert (calls + [c])[|calls|] == c;
    if b <= |calls| && Remembered(calls, id, a, b) {
      var i :| a < i < b && i < |calls| && calls[i].Remember? && calls[i].key == id;
      assert (calls + [c])[i] == calls[i];
    }
    if Remembered(calls, id, a, |calls|) {
      var i :| a < i < |calls| && calls[i].Remember? && calls[i].key == id;
      assert (calls + [c])[i] == calls[i];
    }
  }

  /** `s` after one more cache call. */
  function Extend(s: State, c: Call, store: Store): State {
    s.(calls := s.calls + [c], stores := s.stores + [store])
  }

  lemma ExtendFlights(s: State, c: Call, store: Store, id: Key)
    requires |s.stores| == |s.calls| + 1
    ensures var s' := Extend(s, c, store);
            && (forall t: nat :: FlightOf(s', t, id) == FlightOf(s, t, id))
            && (forall at: nat :: AnswerOf(s, id, false, at) ==> AnswerOf(s', id, false, at))
            && (forall a: nat, b: nat :: b <= |s.calls| ==>
                  (Remembered(s'.calls, id, a, b) <==> Remembered(s.calls, id, a, b)))
            && (forall a: nat :: Remembered(s'.calls, id, a, |s'.calls|) <==>
                  Remembered(s.calls, id, a, |s.calls|) || (a < |s.calls| && c.Remember? && c.key == id))
  {
    forall a: nat, b: nat
      ensures b <= |s.calls| ==> (Remembered(s.calls + [c], id, a, b) <==> Remembered(s.calls, id, a, b))
      ensures Remembered(s.calls + [c], id, a, |s.calls| + 1) <==>
                Remembered(s.calls, id, a, |s.calls|) || (a < |s.calls| && c.Remember? && c.key == id)
    {
      RememberedGrows(s.calls, c, id, a, b);
    }
  }

  /** A cache call that does not remember `id` changes nothing for it. */
  lemma ExtendKeeps(s: State, c: Call, store: Store, id: Key)
    requires OnceInv(s, id) && !(c.Remember? && c.key == id)
    ensures OnceInv(Extend(s, c, store), id)
  {
    ExtendFlights(s, c, store, id);
    var s' := Extend(s, c, store);
    forall p | 0 <= p < |s.history| && IsForward(s.history[p], id) ensures Settled(s', id, s.history[p].at) {
      assert Settled(s, id, s.history[p].at);
      if t: nat :| FlightOf(s, t, id) == Sent(s.history[p].at) {
        assert FlightOf(s', t, id) == Sent(s.history[p].at);
      }
    }
  }

  /** Nothing about `id` has moved but, perhaps, an event that does not forward it. */
  ghost predicate Unmoved(s: State, s': State, id: Key) {
    && s'.calls == s.calls && s'.stores == s.stores
    && (forall t: nat :: FlightOf(s', t, id) == FlightOf(s, t, id))
    && (s'.history == s.history
        || (|s'.history| == |s.history| + 1 && s'.history[..|s.history|] == s.history
            && !IsForward(s'.history[|s.history|], id)))
  }

  lemma HistoryAt(s: State, s': State, id: Key)
    requires Unmoved(s, s', id)
    ensures forall p :: 0 <= p < |s.history| ==> s'.history[p] == s.history[p]
    ensures forall p :: |s.history| <= p < |s'.history| ==> !IsForward(s'.history[p], id)
  {
    forall p | 0 <= p < |s.history| ensures s'.history[p] == s.history[p] {
      assert s'.history == s.history || s'.history[..|s.history|][p] == s.history[p];
    }
  }

  lemma UnmovedKeeps(s: State, s': State, id: Key)
    requires OnceInv(s, id) && Unmoved(s, s', id)
    ensures OnceInv(s', id)
  {
    HistoryAt(s, s', id);
    forall p | 0 <= p < |s'.history| && IsForward(s'.history[p], id) ensures Settled(s', id, s'.history[p].at) {
      assert Settled(s, id, s.history[p].at);
      if t: nat :| FlightOf(s, t, id) == Sent(s.history[p].at) {
        assert FlightOf(s', t, id) == Sent(s.history[p].at);
      }
    }
    assert Pending(s', id) by {
      forall t: nat | FlightOf(s', t, id).Sent?
        ensures ForwardOk(t, id, FlightOf(s', t, id).at) in s'.history
      {
        var p :| 0 <= p < |s.history| && s.history[p] == ForwardOk(t, id, FlightOf(s, t, id).at);
        assert s'.history[p] == s.history[p];
      }
    }
  }

  lemma MoveFlights(s: State, t: nat, phase: Phase, e: Event, id: Key)
    ensures var s' := Move(s, t, phase, e);
            && (forall u: nat :: u != t ==> FlightOf(s', u, id) == FlightOf(s, u, id))
            && s'.calls == s.calls && s'.stores == s.stores
            && (forall p :: 0 <= p < |s.history| ==> s'.history[p] == s.history[p]) && s'.history[|s.history|] == e
    ensures var s' := Finish(s, t, e);
            && (forall u: nat :: u != t ==> FlightOf(s', u, id) == FlightOf(s, u, id))
            && s'.calls == s.calls && s'.stores == s.stores && FlightOf(s', t, id).Idle?
            && (forall p :: 0 <= p < |s.history| ==> s'.history[p] == s.history[p]) && s'.history[|s.history|] == e
  {
  }

  /** A negative answer while nobody has the id in flight: all earlier forwards were remembered. */
  lemma TellKeeps(s: State, t: nat, id: Key, at: nat)
    requires OnceInv(s, id) && |s.calls| == at + 1 && AnswerOf(s, id, false, at)
    requires forall u: nat :: FlightOf(s, u, id).Idle?
    ensures OnceInv(Move(s, t, Fresh(id, at), Answered(id, false, at)), id)
  {
    var s' := Move(s, t, Fresh(id, at), Answered(id, false, at));
    MoveFlights(s, t, Fresh(id, at), Answered(id, false, at), id);
    assert FlightOf(s', t, id) == Told(at);
    assert s.calls[at].Check?;
    forall p | 0 <= p < |s'.history| && IsForward(s'.history[p], id)
      ensures Remembered(s.calls, id, s'.history[p].at, at)
    {
      assert Settled(s, id, s.history[p].at);
      var c :| s.history[p].at < c < |s.calls| && s.calls[c].Remember? && s.calls[c].key == id;
    }
    assert !Remembered(s.calls, id, at, |s.calls|);
  }

  lemma SentTwice(s: State, t: nat, id: Key, at: nat, s': State)
    requires OnceInv(s, id) && FlightOf(s, t, id) == Told(at) && s'.calls == s.calls
    requires s'.history == s.history + [ForwardOk(t, id, at)]
    ensures !ForwardedTwice(s', id)
  {
    forall p, q | 0 <= p < q < |s'.history| && IsForward(s'.history[p], id) && IsForward(s'.history[q], id)
      ensures Remembered(s'.calls, id, s'.history[p].at, s'.history[q].at)
    {
      if q == |s.history| {
        assert Remembered(s.calls, id, s.history[p].at, FlightOf(s, t, id).at);
      }
    }
  }

  lemma SentKeeps(s: State, t: nat, id: Key, at: nat)
    requires OnceInv(s, id) && FlightOf(s, t, id) == Told(at)
    ensures OnceInv(Move(s, t, Accepted(id, at), ForwardOk(t, id, at)), id)
  {
    var e := ForwardOk(t, id, at);
    var s' := Move(s, t, Accepted(id, at), e);
    MoveFlights(s, t, Accepted(id, at), e, id);
    assert FlightOf(s', t, id) == Sent(at) && s'.history[|s.history|] == e;
    SentTwice(s, t, id, at, s');
    forall u: nat | u != t ensures FlightOf(s, u, id).Idle? && FlightOf(s', u, id).Idle? {}
    forall p | 0 <= p < |s'.history| && IsForward(s'.history[p], id) ensures Settled(s', id, s'.history[p].at) {
      if p < |s.history| {
        assert Settled(s, id, s.history[p].at);
      }
    }
  }

  lemma FailKeeps(s: State, t: nat, id: Key, at: nat)
    requires OnceInv(s, id) && FlightOf(s, t, id) == Told(at)
    ensures OnceInv(Finish(s, t, ForwardFailed(t, id)), id)
  {
    var e := ForwardFailed(t, id);
    var s' := Finish(s, t, e);
    MoveFlights(s, t, Received(id), e, id);
    forall u: nat ensures FlightOf(s', u, id).Idle? {}
    forall p | 0 <= p < |s'.history| && IsForward(s'.history[p], id) ensures Settled(s', id, s'.history[p].at) {
      assert Settled(s, id, s.history[p].at);
    }
  }

  lemma NotedKeeps(s: State, t: nat, id: Key, at: nat, now: real, store: Store, e: Event)
    requires OnceInv(s, id) && FlightOf(s, t, id) == Sent(at) && !e.ForwardOk?
    ensures OnceInv(Finish(Extend(s, Remember(id, now), store), t, e), id)
  {
    var m := Extend(s, Remember(id, now), store);
    var s' := Finish(m, t, e);
    ExtendFlights(s, Remember(id, now), store, id);
    MoveFlights(m, t, Received(id), e, id);
    forall u: nat ensures FlightOf(s', u, id).Idle? {}
    forall p | 0 <= p < |s'.history| && IsForward(s'.history[p], id)
      ensures Settled(s', id, s'.history[p].at) && AnswerOf(s', id, false, s'.history[p].at)
    {
      assert AnswerOf(s, id, false, s.history[p].at);
    }
    forall p, q | 0 <= p < q < |s'.history| && IsForward(s'.history[p], id) && IsForward(s'.history[q], id)
      ensures Remembered(s'.calls, id, s'.history[p].at, s'.history[q].at)
    {
      assert AnswerOf(s, id, false, s.history[q].at);
      assert Remembered(s.calls, id, s.history[p].at, s.history[q].at);
    }
  }

  // ----- every step

  lemma AskKeeps(s: State, t: nat, s': State, id: Key)
    requires OnceInv(s, id) && AskStep(s, t, s')
    requires s.threads[t].id == id ==> Alone(s, t, id) || Duplicate(Last(s), id, s.threads[t].now)
    ensures OnceInv(s', id)
  {
    var asked, now, at := s.threads[t].id, s.threads[t].now, |s.calls|;
    var m := Extend(s, Check(asked, now), Live(Last(s), now));
    ExtendKeeps(s, Check(asked, now), Live(Last(s), now), id);
    ExtendFlights(s, Check(asked, now), Live(Last(s), now), id);
    if asked == id && !Duplicate(Last(s), id, now) {
      assert m.stores[at] == Last(s);
      forall u: nat ensures FlightOf(m, u, id).Idle? {}
      TellKeeps(m, t, id, at);
    } else {
      MoveFlights(m, t, Fresh(asked, at), Answered(asked, false, at), id);
      MoveFlights(m, t, Fresh(asked, at), Answered(asked, true, at), id);
      assert s'.history[..|m.history|] == m.history;
      UnmovedKeeps(m, s', id);
    }
  }

  lemma ForwardKeeps(s: State, t: nat, ok: bool, s': State, id: Key)
    requires OnceInv(s, id) && ForwardStep(s, t, ok, s')
    ensures OnceInv(s', id)
  {
    var sent, at := s.threads[t].id, s.threads[t].at;
    if sent == id {
      assert FlightOf(s, t, id) == Told(at);
      if ok {
        SentKeeps(s, t, id, at);
      } else {
        FailKeeps(s, t, id, at);
      }
    } else {
      MoveFlights(s, t, Accepted(sent, at), ForwardOk(t, sent, at), id);
      MoveFlights(s, t, Received(sent), ForwardFailed(t, sent), id);
      assert s'.history[..|s.history|] == s.history;
      UnmovedKeeps(s, s', id);
    }
  }

  lemma NoteKeeps(l: Limits, s: State, t: nat, s': State, id: Key)
    requires OnceInv(s, id) && NoteStep(l, s, t, s')
    ensures OnceInv(s', id)
  {
    var noted, now := s.threads[t].id, s.threads[t].now;
    var e := Noted(t, noted, |s.calls|);
    var store :| Remembers(l, Last(s), noted, now, store) && s' == Finish(Extend(s, Remember(noted, now), store), t, e);
    if noted == id {
      NotedKeeps(s, t, id, s.threads[t].at, now, store, e);
    } else {
      var m := Extend(s, Remember(noted, now), store);
      ExtendKeeps(s, Remember(noted, now), store, id);
      MoveFlights(m, t, Received(noted), e, id);
      assert s'.history[..|m.history|] == m.history;
      UnmovedKeeps(m, s', id);
    }
  }

  lemma StepKeepsOnce(l: Limits, s: State, a: Action, s': State, id: Key)
    requires OnceInv(s, id) && DedupeHandler.Step(l, s, a, s')
    requires AsksFor(s, a, id) ==> Alone(s, a.thread, id) || Duplicate(Last(s), id, s.threads[a.thread].now)
    ensures OnceInv(s', id)
  {
    match a
    case Receive(t, _) => UnmovedKeeps(s, s', id);
    case ReadClock(t, _) => UnmovedKeeps(s, s', id);
    case Ask(t) => AskKeeps(s, t, s', id);
    case Forward(t, ok) => ForwardKeeps(s, t, ok, s', id);
    case Note(t) => NoteKeeps(l, s, t, s', id);
  }

  lemma {:induction false} ExclusiveKeeps(l: Limits, states: seq<State>, acts: seq<Action>, id: Key, n: nat)
    requires Steps(l, states, acts) && OnceInv(states[0], id) && Exclusive(states, acts, id) && n < |states|
    ensures OnceInv(states[n], id)
  {
    if n > 0 {
      var i := n - 1;
      ExclusiveKeeps(l, states, acts, id, i);
      StepAt(l, states, acts, i);
      StepKeepsOnce(l, states[i], acts[i], states[i + 1], id);
    }
  }

  /**
   While requests for an id do not overlap, it is forwarded again only when it was forgotten:
   between the checks of two forwards lies a remember call of it, and for the last of these
   the lifetime had ended or at least `max` rivals had come.
   */
  lemma ForwardedAgainOnlyWhenForgotten(l: Limits, states: seq<State>, acts: seq<Action>, id: Key,
                                        n: nat, p: nat, q: nat)
    returns (i: nat)
    requires DedupeHandler.Run(l, states, acts) && Exclusive(states, acts, id)
    requires n < |states| && p < q < |states[n].history|
    requires IsForward(states[n].history[p], id) && IsForward(states[n].history[q], id)
    ensures var s, first, second := states[n], states[n].history[p].at, states[n].history[q].at;
            && first < i < second < |s.calls| && IsLast(s.calls, i, second) && s.calls[i].key == id
            && (RivalCount(s.calls, i, second) >= l.max || !Alive(l, s.calls, i, second + 1))
  {
    RunKeeps(l, states, acts, n);
    ExclusiveKeeps(l, states, acts, id, n);
    var s, first, second := states[n], states[n].history[p].at, states[n].history[q].at;
    assert AnswerOf(s, id, false, second);
    assert Remembered(s.calls, id, first, second);
    var c :| first < c < second && c < |s.calls| && s.calls[c].Remember? && s.calls[c].key == id;
    i := LastRemember(s.calls, c, second);
    if RivalCount(s.calls, i, second) < l.max {
      DuplicateIff(l, s.calls, s.stores, i, second, s.calls[second].now);
      AliveNext(l, s.calls, i, second);
    }
  }

  // ----- exactly when one more check can double a forward

  /** From `s`, the check of `t` and then steps without a further check of `id` forward it twice. */
  ghost predicate Doubles(l: Limits, s: State, t: nat, id: Key, more: seq<State>, moves: seq<Action>) {
    && Steps(l, more, moves) && more[0] == s && moves != [] && moves[0] == Ask(t)
    && (forall i :: 1 <= i < |moves| ==> !AsksFor(more[i], moves[i], id))
    && ForwardedTwice(more[|moves|], id)
  }

  ghost predicate About(s: State, t: nat, id: Key) {
    s.stores != [] && t in s.threads && s.threads[t].Asking? && s.threads[t].id == id
  }

  lemma {:induction false} DoublesNot(l: Limits, s: State, t: nat, id: Key,
                                      more: seq<State>, moves: seq<Action>, n: nat)
    requires OnceInv(s, id) && About(s, t, id) && Doubles(l, s, t, id, more, moves) && n < |more|
    requires Alone(s, t, id) || Duplicate(Last(s), id, s.threads[t].now)
    ensures OnceInv(more[n], id)
  {
    if n > 0 {
      var i := n - 1;
      DoublesNot(l, s, t, id, more, moves, i);
      StepAt(l, more, moves, i);
      StepKeepsOnce(l, more[i], moves[i], more[i + 1], id);
    }
  }

  /** The state after `t` was told to forward. */
  function AfterAsk(s: State, t: nat): State
    requires s.stores != [] && t in s.threads && s.threads[t].Asking?
  {
    var id, now, at := s.threads[t].id, s.threads[t].now, |s.calls|;
    Move(Extend(s, Check(id, now), Live(Last(s), now)), t, Fresh(id, at), Answered(id, false, at))
  }

  function AfterForward(s: State, t: nat): State
    requires t in s.threads && s.threads[t].Fresh?
  {
    Move(s, t, Accepted(s.threads[t].id, s.threads[t].at), ForwardOk(t, s.threads[t].id, s.threads[t].at))
  }

  /** Two forwards in the history that go back to `a` and `b`. */
  lemma TwoForwards(s: State, id: Key, p: nat, q: nat)
    requires p < q < |s.history| && IsForward(s.history[p], id) && IsForward(s.history[q], id)
    requires !Remembered(s.calls, id, s.history[p].at, s.history[q].at)
    ensures ForwardedTwice(s, id)
  {
  }

  lemma NotRememberedYet(s: State, t: nat, u: nat, id: Key)
    requires OnceInv(s, id) && About(s, t, id) && !FlightOf(s, u, id).Idle?
    ensures !Remembered(AfterAsk(s, t).calls, id, FlightOf(s, u, id).at, |s.calls|)
  {
    RememberedGrows(s.calls, Check(id, s.threads[t].now), id, FlightOf(s, u, id).at, |s.calls|);
  }

  lemma DoublesSent(l: Limits, s: State, t: nat, u: nat, id: Key) returns (more: seq<State>, moves: seq<Action>)
    requires OnceInv(s, id) && About(s, t, id) && !Duplicate(Last(s), id, s.threads[t].now)
    requires u != t && FlightOf(s, u, id).Sent?
    ensures Doubles(l, s, t, id, more, moves)
  {
    var s1 := AfterAsk(s, t);
    var s2 := AfterForward(s1, t);
    more, moves := [s, s1, s2], [Ask(t), Forward(t, true)];
    var p :| 0 <= p < |s.history| && s.history[p] == ForwardOk(u, id, FlightOf(s, u, id).at);
    NotRememberedYet(s, t, u, id);
    assert s2.history[p] == s.history[p];
    TwoForwards(s2, id, p, |s1.history|);
  }

  lemma DoublesTold(l: Limits, s: State, t: nat, u: nat, id: Key) returns (more: seq<State>, moves: seq<Action>)
    requires OnceInv(s, id) && About(s, t, id) && !Duplicate(Last(s), id, s.threads[t].now)
    requires u != t && FlightOf(s, u, id).Told?
    ensures Doubles(l, s, t, id, more, moves)
  {
    var s1 := AfterAsk(s, t);
    var s2 := AfterForward(s1, u);
    var s3 := AfterForward(s2, t);
    more, moves := [s, s1, s2, s3], [Ask(t), Forward(u, true), Forward(t, true)];
    NotRememberedYet(s, t, u, id);
    TwoForwards(s3, id, |s1.history|, |s2.history|);
  }

  /**
   After a run without overlap, one more check of the id can lead to a second forward that no
   remember call separates from the first if and only if another request for it is in flight
   and the check finds no live entry.
   */
  lemma ForwardedTwiceIff(l: Limits, states: seq<State>, acts: seq<Action>, id: Key, t: nat)
    requires DedupeHandler.Run(l, states, acts) && Exclusive(states, acts, id) && About(states[|acts|], t, id)
    ensures var s := states[|acts|];
            (exists more, moves :: Doubles(l, s, t, id, more, moves)) <==>
            !Alone(s, t, id) && !Duplicate(Last(s), id, s.threads[t].now)
  {
    var s := states[|acts|];
    ExclusiveKeeps(l, states, acts, id, |acts|);
    if !Alone(s, t, id) && !Duplicate(Last(s), id, s.threads[t].now) {
      var u: nat :| u != t && !FlightOf(s, u, id).Idle?;
      if FlightOf(s, u, id).Sent? {
        var more, moves := DoublesSent(l, s, t, u, id);
      } else {
        var more, moves := DoublesTold(l, s, t, u, id);
      }
    } else {
      forall more, moves ensures !Doubles(l, s, t, id, more, moves) {
        if Doubles(l, s, t, id, more, moves) {
          DoublesNot(l, s, t, id, more, moves, |moves|);
        }
      }
    }
  }

  lemma StepsAppend(l: Limits, states: seq<State>, acts: seq<Action>, a: Action, s': State)
    requires DedupeHandler.Run(l, states, acts) && DedupeHandler.Step(l, states[|acts|], a, s')
    ensures DedupeHandler.Run(l, states + [s'], acts + [a])
  {
    forall i | 0 <= i < |acts + [a]|
      ensures DedupeHandler.Step(l, (states + [s'])[i], (acts + [a])[i], (states + [s'])[i + 1])
    {
      if i < |acts| {
        StepAt(l, states, acts, i);
      }
    }
  }

  lemma TwoRequests(l: Limits, id: Key, now: real) returns (states: seq<State>, acts: seq<Action>)
    requires now >= 0.0
    ensures DedupeHandler.Run(l, states, acts)
    ensures states[|acts|] == INITIAL.(threads := map[0 := Asking(id, now), 1 := Asking(id, now)])
  {
    var s1 := INITIAL.(threads := map[0 := Received(id)]);
    var s2 := s1.(threads := s1.threads[1 := Received(id)]);
    var s3 := s2.(threads := s2.threads[0 := Asking(id, now)]);
    var s4 := s3.(threads := s3.threads[1 := Asking(id, now)]);
    assert INITIAL.threads[0 := Received(id)] == s1.threads;
    assert s4.threads == map[0 := Asking(id, now), 1 := Asking(id, now)];
    states, acts := [INITIAL, s1, s2, s3, s4], [Receive(0, id), Receive(1, id), ReadClock(0, now), ReadClock(1, now)];
  }

  /** From the very beginning, two overlapping requests can both be forwarded. */
  lemma OverlappingRequestsBothForwarded(l: Limits, id: Key, now: real) returns (states: seq<State>, acts: seq<Action>)
    requires now >= 0.0
    ensures DedupeHandler.Run(l, states, acts) && ForwardedTwice(states[|acts|], id)
  {
    states, acts := TwoRequests(l, id, now);
    var s1 := AfterAsk(states[|acts|], 0);
    var s2 := AfterAsk(s1, 1);
    var s3 := AfterForward(s2, 0);
    var s4 := AfterForward(s3, 1);
    StepsAppend(l, states, acts, Ask(0), s1);
    StepsAppend(l, states + [s1], acts + [Ask(0)], Ask(1), s2);
    StepsAppend(l, states + [s1] + [s2], acts + [Ask(0)] + [Ask(1)], Forward(0, true), s3);
    states, acts := states + [s1] + [s2] + [s3], acts + [Ask(0)] + [Ask(1)] + [Forward(0, true)];
    StepsAppend(l, states, acts, Forward(1, true), s4);
    states, acts := states + [s4], acts + [Forward(1, true)];
    TwoForwards(s4, id, 2, 3);
  }
}

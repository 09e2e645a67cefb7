/** The probe's scan of a paged inbox for one message of one sender. */
module InboxScan {
  import opened Wrappers
  import opened Text
  import opened Json

  const PAGE_LIMIT := 100
  const MAX_PAGES := 20
  const I64_MAX := 0x7fff_ffff_ffff_ffff

  datatype Failure = Runtime | Transport

  /** The answer to one request: the call may fail, be rejected, or carry a result. */
  datatype Reply = Failed(failure: Failure) | Rejected | Success(result: Value)

  datatype Wanted = Wanted(id: string, peer: string)

  datatype Progress = Progress(count: nat, hasMore: bool)

  /** A server: what it answers to the `i`th request, made with this many messages to skip. */
  type Server = (nat, nat) -> Reply

  // ----- pages

  predicate IsControl(c: char) {
    c <= '\U{1f}' || '\U{7f}' <= c <= '\U{9f}'
  }

  function Field(fields: map<string, Value>, key: string): Option<string> {
    if key !in fields || !fields[key].Str? then None
    else
      var s := fields[key].text;
      if Trim(s) == "" || exists c :: c in s && IsControl(c) then None else Some(s)
  }

  predicate IsPage(v: Value) {
    && v.Object?
    && "messages" in v.fields && v.fields["messages"].Array? && |v.fields["messages"].items| <= PAGE_LIMIT
    && "has_more" in v.fields && v.fields["has_more"].Bool?
  }

  function Messages(v: Value): seq<Value>
    requires IsPage(v)
  {
    v.fields["messages"].items
  }

  predicate HasMore(v: Value)
    requires IsPage(v)
  {
    v.fields["has_more"].flag
  }

  /** A message the scan can judge: it has an id and, if that is the wanted one, a sender. */
  predicate Readable(m: Value, want: Wanted) {
    && m.Object?
    && Field(m.fields, "id").Some?
    && (Field(m.fields, "id").value == want.id ==> Field(m.fields, "sender_did").Some?)
  }

  predicate AllReadable(ms: seq<Value>, want: Wanted) {
    forall m :: m in ms ==> Readable(m, want)
  }

  predicate Matches(m: Value, want: Wanted) {
    m.Object? && Field(m.fields, "id") == Some(want.id) && Field(m.fields, "sender_did") == Some(want.peer)
  }

  /** The matching messages, in their order. */
  function Matching(ms: seq<Value>, want: Wanted): seq<Value> {
    if ms == [] then []
    else
      var last := ms[|ms| - 1];
      Matching(ms[..|ms| - 1], want) + if Matches(last, want) then [last] else []
  }

  lemma {:induction false} MatchingConcat(a: seq<Value>, b: seq<Value>, want: Wanted)
    ensures Matching(a + b, want) == Matching(a, want) + Matching(b, want)
  {
    if b == [] {
      assert a + b == a;
    } else {
      assert (a + b)[..|a + b| - 1] == a + b[..|b| - 1];
      MatchingConcat(a, b[..|b| - 1], want);
    }
  }

  /** The messages found are those of the page, in order, whose id and sender are the wanted ones. */
  lemma {:induction false} MatchingIff(ms: seq<Value>, want: Wanted, m: Value)
    requires Clean(want.id) && Clean(want.peer)
    ensures m in Matching(ms, want) <==>
            && m in ms && m.Object?
            && "id" in m.fields && m.fields["id"] == Str(want.id)
            && "sender_did" in m.fields && m.fields["sender_did"] == Str(want.peer)
  {
    if ms != [] {
      var n := |ms| - 1;
      MatchingIff(ms[..n], want, m);
      assert ms == ms[..n] + [ms[n]];
      CleanField(m, want);
    }
  }

  /** A string that a response may hold: not blank, and without control characters. */
  ghost predicate Clean(s: string) {
    Trim(s) != "" && forall c :: c in s ==> ' ' <= c && !('\U{7f}' <= c <= '\U{9f}')
  }

  lemma CleanField(m: Value, want: Wanted)
    requires Clean(want.id) && Clean(want.peer)
    ensures Matches(m, want) <==>
            && m.Object?
            && "id" in m.fields && m.fields["id"] == Str(want.id)
            && "sender_did" in m.fields && m.fields["sender_did"] == Str(want.peer)
  {
  }

  /** A message can be judged exactly when its id, and the sender of a wanted one, are clean strings. */
  lemma ReadableIff(m: Value, want: Wanted)
    ensures Readable(m, want) <==>
            && m.Object? && "id" in m.fields && m.fields["id"].Str? && Clean(m.fields["id"].text)
            && (m.fields["id"].text == want.id ==>
                  "sender_did" in m.fields && m.fields["sender_did"].Str? && Clean(m.fields["sender_did"].text))
  {
  }

  /** Reads one page: either every message can be judged and the matches are added, or it fails. */
  method AppendMatches(result: Value, want: Wanted, matching: seq<Value>)
    returns (r: Result<Progress, Failure>, found: seq<Value>)
    ensures r.Ok? <==> IsPage(result) && AllReadable(Messages(result), want)
    ensures r.Err? ==> r.error == Runtime
    ensures r.Ok? ==>
              && r.value == Progress(|Messages(result)|, HasMore(result))
              && found == matching + Matching(Messages(result), want)
  {
    found := matching;
    if !IsPage(result) { return Err(Runtime), found; }
    var messages := Messages(result);
    for i := 0 to |messages|
      invariant AllReadable(messages[..i], want)
      invariant found == matching + Matching(messages[..i], want)
    {
      var m := messages[i];
      assert m in messages;
      assert messages[..i + 1][..i] == messages[..i];
      if !m.Object? { return Err(Runtime), found; }
      var id := Field(m.fields, "id");
      if id.None? { return Err(Runtime), found; }
      if id.value != want.id { continue; }
      var sender := Field(m.fields, "sender_did");
      if sender.None? { return Err(Runtime), found; }
      if sender.value == want.peer { found := found + [m]; }
    }
    assert messages[..|messages|] == messages;
    r := Ok(Progress(|messages|, HasMore(result)));
  }

  // ----- scans

  predicate Good(reply: Reply, want: Wanted) {
    reply.Success? && IsPage(reply.result) && AllReadable(Messages(reply.result), want)
  }

  /** A page after which the scan asks for another. */
  predicate Continues(reply: Reply, want: Wanted) {
    Good(reply, want) && HasMore(reply.result) && Messages(reply.result) != []
  }

  function Content(reply: Reply): seq<Value> {
    if reply.Success? && IsPage(reply.result) then Messages(reply.result) else []
  }

  /** How many messages the first `i` replies held: the skip of the next request. */
  function SkipAt(serve: Server, i: nat): nat
    decreases i, 0
  {
    if i == 0 then 0 else SkipAt(serve, i - 1) + |Content(ReplyAt(serve, i - 1))|
  }

  function ReplyAt(serve: Server, i: nat): Reply
    decreases i, 1
  {
    serve(i, SkipAt(serve, i))
  }

  /** Everything the first `i` replies held. */
  function Seen(serve: Server, i: nat): seq<Value> {
    if i == 0 then [] else Seen(serve, i - 1) + Content(ReplyAt(serve, i - 1))
  }

  predicate ContinuesTo(serve: Server, want: Wanted, n: nat) {
    forall i :: 0 <= i < n ==> Continues(ReplyAt(serve, i), want)
  }

  /** The scan ends with reply `n`, or after the last request it may make. */
  predicate StopsAt(serve: Server, want: Wanted, n: nat) {
    && n <= MAX_PAGES
    && ContinuesTo(serve, want, n)
    && (n < MAX_PAGES ==> !Continues(ReplyAt(serve, n), want))
  }

  function FailureOf(reply: Reply): Failure {
    match reply
    case Failed(f) => f
    case Rejected => Transport
    case Success(_) => Runtime
  }

  function Outcome(serve: Server, want: Wanted, n: nat): Result<seq<Value>, Failure> {
    if n >= MAX_PAGES then Err(Runtime)
    else
      var reply := ReplyAt(serve, n);
      if Good(reply, want) && !HasMore(reply.result) then Ok(Matching(Seen(serve, n + 1), want))
      else Err(FailureOf(reply))
  }

  method Receive(reply: Reply, want: Wanted, matching: seq<Value>)
    returns (r: Result<Progress, Failure>, found: seq<Value>)
    ensures r.Ok? <==> Good(reply, want)
    ensures r.Err? ==> r.error == FailureOf(reply)
    ensures r.Ok? ==>
              && r.value == Progress(|Content(reply)|, HasMore(reply.result))
              && found == matching + Matching(Content(reply), want)
  {
    match reply
    case Failed(f) => r, found := Err(f), matching;
    case Rejected => r, found := Err(Transport), matching;
    case Success(page) => r, found := AppendMatches(page, want, matching);
  }

  lemma SeenNext(serve: Server, want: Wanted, i: nat)
    ensures Matching(Seen(serve, i + 1), want) ==
            Matching(Seen(serve, i), want) + Matching(Content(ReplyAt(serve, i)), want)
    ensures SkipAt(serve, i + 1) == SkipAt(serve, i) + |Content(ReplyAt(serve, i))| <= SkipAt(serve, i) + PAGE_LIMIT
  {
    MatchingConcat(Seen(serve, i), Content(ReplyAt(serve, i)), want);
  }

  /** The paging loop. The skip never leaves the range of a 64-bit integer. */
  method CollectMatches(serve: Server, want: Wanted) returns (r: Result<seq<Value>, Failure>)
    ensures exists n :: StopsAt(serve, want, n) && r == Outcome(serve, want, n)
  {
    var matching: seq<Value>, skip: nat := [], 0;
    for i := 0 to MAX_PAGES
      invariant ContinuesTo(serve, want, i)
      invariant skip == SkipAt(serve, i) <= i * PAGE_LIMIT
      invariant matching == Matching(Seen(serve, i), want)
    {
      var reply := serve(i, skip);
      assert reply == ReplyAt(serve, i);
      assert Continues(reply, want) || StopsAt(serve, want, i);
      SeenNext(serve, want, i);
      var progress, found := Receive(reply, want, matching);
      if progress.Err? { return Err(progress.error); }
      matching := found;
      if !progress.value.hasMore { return Ok(matching); }
      if progress.value.count == 0 { return Err(Runtime); }
      assert skip + progress.value.count <= I64_MAX;
      skip := skip + progress.value.count;
    }
    assert StopsAt(serve, want, MAX_PAGES);
    r := Err(Runtime);
  }

  /** A scan fails as its last reply says: rejections and failed calls are passed on, all else is a runtime failure. */
  lemma FailureReports(serve: Server, want: Wanted, n: nat)
    requires Outcome(serve, want, n).Err?
    ensures Outcome(serve, want, n).error ==
            if n < MAX_PAGES && ReplyAt(serve, n) == Rejected then Transport
            else if n < MAX_PAGES && ReplyAt(serve, n).Failed? then ReplyAt(serve, n).failure
            else Runtime
  {
  }

  /** A page that promises more and holds nothing ends the scan with a failure. */
  lemma EmptyPageStops(serve: Server, want: Wanted, n: nat)
    requires n < MAX_PAGES && ContinuesTo(serve, want, n) && ReplyAt(serve, n).Success?
    requires IsPage(ReplyAt(serve, n).result) && HasMore(ReplyAt(serve, n).result)
    requires Messages(ReplyAt(serve, n).result) == []
    ensures StopsAt(serve, want, n) && Outcome(serve, want, n) == Err(Runtime)
  {
  }

  // ----- what a successful scan has seen

  /** The page is the next stretch of the inbox and says truthfully whether more follows. */
  predicate PageOf(v: Value, inbox: seq<Value>, skip: nat) {
    && IsPage(v)
    && skip + |Messages(v)| <= |inbox|
    && Messages(v) == inbox[skip..skip + |Messages(v)|]
    && (HasMore(v) <==> skip + |Messages(v)| < |inbox|)
  }

  /** Every page is cut from the same inbox; calls may still fail. */
  ghost predicate Serves(serve: Server, inbox: seq<Value>) {
    forall i: nat, skip: nat :: skip <= |inbox| && serve(i, skip).Success? && IsPage(serve(i, skip).result) ==>
      PageOf(serve(i, skip).result, inbox, skip)
  }

  lemma NextStretch(inbox: seq<Value>, k: nat, reply: Reply)
    requires k <= |inbox| && (reply.Success? && IsPage(reply.result) ==> PageOf(reply.result, inbox, k))
    ensures var m := k + |Content(reply)|; m <= |inbox| && inbox[..k] + Content(reply) == inbox[..m]
  {
    var page := Content(reply);
    assert page == inbox[k..k + |page|];
    assert inbox[..k] + inbox[k..k + |page|] == inbox[..k + |page|];
  }

  lemma {:induction false} SeenIsPrefix(serve: Server, inbox: seq<Value>, i: nat)
    requires Serves(serve, inbox)
    ensures SkipAt(serve, i) <= |inbox| && Seen(serve, i) == inbox[..SkipAt(serve, i)]
  {
    if i > 0 {
      SeenIsPrefix(serve, inbox, i - 1);
      NextStretch(inbox, SkipAt(serve, i - 1), ReplyAt(serve, i - 1));
    }
  }

  lemma LastPageEnds(serve: Server, inbox: seq<Value>, n: nat)
    requires Serves(serve, inbox)
    requires ReplyAt(serve, n).Success? && IsPage(ReplyAt(serve, n).result) && !HasMore(ReplyAt(serve, n).result)
    ensures Seen(serve, n + 1) == inbox
  {
    SeenIsPrefix(serve, inbox, n);
    SeenIsPrefix(serve, inbox, n + 1);
    assert PageOf(serve(n, SkipAt(serve, n)).result, inbox, SkipAt(serve, n));
    assert inbox[..|inbox|] == inbox;
  }

  /** The scan answers with all matches of the whole inbox in order, or with a failure. */
  lemma CompleteOrFailed(serve: Server, want: Wanted, inbox: seq<Value>, n: nat)
    requires Serves(serve, inbox) && Outcome(serve, want, n).Ok?
    ensures Outcome(serve, want, n).value == Matching(inbox, want)
  {
    LastPageEnds(serve, inbox, n);
  }

  /** No call fails and every page holds as many messages as it may. */
  ghost predicate Fills(serve: Server, inbox: seq<Value>) {
    forall i: nat, skip: nat :: skip <= |inbox| ==>
      && serve(i, skip).Success?
      && PageOf(serve(i, skip).result, inbox, skip)
      && (|Messages(serve(i, skip).result)| == PAGE_LIMIT || !HasMore(serve(i, skip).result))
  }

  lemma {:induction false} FullSkips(serve: Server, want: Wanted, inbox: seq<Value>, i: nat)
    requires Fills(serve, inbox) && ContinuesTo(serve, want, i)
    ensures SkipAt(serve, i) == PAGE_LIMIT * i && (i > 0 ==> PAGE_LIMIT * i < |inbox|)
    ensures AllReadable(inbox[..SkipAt(serve, i)], want)
  {
    if i > 0 {
      FullSkips(serve, want, inbox, i - 1);
      var k := SkipAt(serve, i - 1);
      assert Continues(ReplyAt(serve, i - 1), want);
      var page := Content(serve(i - 1, k));
      assert inbox[..k] + page == inbox[..k + |page|];
    }
  }

  lemma WholeInbox(serve: Server, want: Wanted, inbox: seq<Value>, n: nat)
    requires Fills(serve, inbox) && ContinuesTo(serve, want, n)
    requires Good(ReplyAt(serve, n), want) && !HasMore(ReplyAt(serve, n).result)
    ensures |inbox| <= PAGE_LIMIT * (n + 1) && AllReadable(inbox, want)
  {
    FullSkips(serve, want, inbox, n);
    var k := SkipAt(serve, n);
    assert PageOf(serve(n, k).result, inbox, k);
    var page := Messages(serve(n, k).result);
    assert inbox == inbox[..k] + page;
  }

  /** A readable inbox is scanned to its end, if there are requests left. */
  lemma ReachesEnd(serve: Server, want: Wanted, inbox: seq<Value>, n: nat)
    requires Fills(serve, inbox) && ContinuesTo(serve, want, n) && !Continues(ReplyAt(serve, n), want)
    requires AllReadable(inbox, want)
    ensures Good(ReplyAt(serve, n), want) && !HasMore(ReplyAt(serve, n).result)
  {
    FullSkips(serve, want, inbox, n);
    var k := SkipAt(serve, n);
    assert PageOf(serve(n, k).result, inbox, k);
    assert forall m :: m in Messages(serve(n, k).result) ==> m in inbox;
  }

  /** A server that fills its pages is scanned to the end exactly when the inbox fits and can be read. */
  lemma SucceedsIff(serve: Server, want: Wanted, inbox: seq<Value>, n: nat)
    requires Fills(serve, inbox) && StopsAt(serve, want, n)
    ensures Outcome(serve, want, n).Ok? <==> |inbox| <= 2000 && AllReadable(inbox, want)
  {
    if n < MAX_PAGES {
      if Outcome(serve, want, n).Ok? {
        WholeInbox(serve, want, inbox, n);
      }
      if AllReadable(inbox, want) {
        ReachesEnd(serve, want, inbox, n);
      }
    } else {
      FullSkips(serve, want, inbox, n);
    }
  }
}

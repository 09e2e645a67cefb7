/** Everything the saved environment file holds, not only its proxy entries. */
module EnvContents {
  import opened Wrappers
  import opened Text
  import opened KeyOrder
  import opened ProxyKeys
  import opened RuntimeEnv
  import opened Reinstall

  // ----- reading every entry

  /** A line of the form `NAME=value` sets its variable, whatever its name. */
  function ReadEntry(m: Env, line: string): Env {
    match SplitOnce(Trim(line), '=')
    case None => m
    case Some((key, value)) => if Decode(value).None? then m else m[key := Decode(value).value]
  }

  type Reader = (Env, string) -> Env

  function ReadWith(read: Reader, ls: seq<string>): Env {
    if ls == [] then map[] else read(ReadWith(read, ls[..|ls| - 1]), ls[|ls| - 1])
  }

  function ReadEntries(ls: seq<string>): Env {
    ReadWith(ReadEntry, ls)
  }

  /** The environment that a process started from the file gets. */
  function Contents(raw: string): Env {
    ReadEntries(Lines(raw))
  }

  /** PATH, if there is one, and the list of selectors. */
  function Preamble(path: Option<string>, selectors: seq<string>): Env {
    (if path.Some? then map["PATH" := path.value] else map[])[PASSTHROUGH_KEY := Join(selectors, ' ')]
  }

  lemma EntryReads(m: Env, k: string, v: string)
    requires IsName(k) && '\n' !in v
    ensures ReadEntry(m, EntryLine(k, v)) == m[k := v]
  {
    var line := EntryLine(k, v);
    QuoteIsLine(v);
    assert line == k + ['='] + Quote(v);
    assert line[|line| - 1] == Quote(v)[|Quote(v)| - 1] == '"';
    TrimmedStays(line);
    SplitOnceAt(k, '=', Quote(v));
  }

  lemma PlainReads(m: Env, line: string)
    requires IsPlain(line)
    ensures ReadEntry(m, line) == m
  {
    TrimIsTrimmed(line);
    TrimStartIsSuffix(line);
    TrimEndIsPrefix(TrimStart(line));
    FindNone(Trim(line), '=');
  }

  lemma EntriesPlus(ls: seq<string>, l: string)
    ensures ReadEntries(ls + [l]) == ReadEntry(ReadEntries(ls), l)
  {
    assert (ls + [l])[..|ls + [l]| - 1] == ls;
  }

  lemma LinesPlus(head: seq<string>, keys: seq<string>, k: string, values: Env)
    requires k in values && forall x :: x in keys ==> x in values
    ensures head + EntryLines(keys + [k], values) == head + EntryLines(keys, values) + [EntryLine(k, values[k])]
  {
    assert (keys + [k])[..|keys + [k]| - 1] == keys;
  }

  /** `read` takes a written entry as what it says. */
  ghost predicate Takes(read: Reader, k: string, v: string) {
    forall m :: read(m, EntryLine(k, v)) == m[k := v]
  }

  lemma OneEntryMore(read: Reader, ls: seq<string>, line: string, before: Env, m: Env, k: string, v: string)
    requires ReadWith(read, ls) == before + m && read(before + m, line) == (before + m)[k := v]
    ensures ReadWith(read, ls + [line]) == before + m[k := v]
  {
    assert (ls + [line])[..|ls|] == ls;
    assert (before + m)[k := v] == before + m[k := v];
  }

  lemma RestrictAll(values: Env, keys: seq<string>, rest: seq<string>, k: string)
    requires keys == rest + [k] && k in values
    ensures Restrict(values, keys) == Restrict(values, rest)[k := values[k]]
  {
    RestrictPlus(values, rest, k);
  }

  lemma {:induction false} EntryLinesHold(read: Reader, head: seq<string>, keys: seq<string>, values: Env)
    requires forall k :: k in keys ==> k in values && Takes(read, k, values[k])
    ensures ReadWith(read, head + EntryLines(keys, values)) == ReadWith(read, head) + Restrict(values, keys)
  {
    if keys == [] {
      assert head + EntryLines(keys, values) == head;
      assert Restrict(values, keys) == map[];
    } else {
      var k, rest := keys[|keys| - 1], keys[..|keys| - 1];
      EntryLinesHold(read, head, rest, values);
      assert Takes(read, k, values[k]);
      OneEntryMore(read, head + EntryLines(rest, values), EntryLine(k, values[k]),
                   ReadWith(read, head), Restrict(values, rest), k, values[k]);
      LinesPlus(head, rest, k, values);
      RestrictAll(values, keys, rest, k);
    }
  }

  lemma CommentsHoldNothing()
    ensures ReadEntries([NOTICE] + [PURPOSE]) == map[]
  {
    NoticePartsArePlain();
    PlainConcat(MANAGED, OWNER, ADVICE, RUNNING);
    PurposePartsArePlain();
    PlainConcat(CAPTURES, CAPTURED, KIND, USERS);
    CommentPair(NOTICE, PURPOSE);
  }

  lemma CommentPair(a: string, b: string)
    requires IsPlain(a) && IsPlain(b)
    ensures ReadEntries([a] + [b]) == map[]
  {
    EntriesPlus([], a);
    assert [] + [a] == [a];
    EntriesPlus([a], b);
    PlainReads(map[], a);
    PlainReads(map[], b);
  }

  lemma PathHolds(head: seq<string>, path: string)
    requires ReadEntries(head) == map[] && '\n' !in path
    ensures ReadEntries(head + [EntryLine("PATH", path)]) == map["PATH" := path]
  {
    PathIsOtherKey();
    EntriesPlus(head, EntryLine("PATH", path));
    EntryReads(map[], "PATH", path);
  }

  lemma PassthroughHolds(head: seq<string>, m: Env, selectors: seq<string>)
    requires ReadEntries(head) == m && forall s :: s in selectors ==> '\n' !in s
    ensures ReadEntries(head + [EntryLine(PASSTHROUGH_KEY, Join(selectors, ' '))]) ==
            m[PASSTHROUGH_KEY := Join(selectors, ' ')]
  {
    PassthroughIsOtherKey();
    JoinKeepsOut(selectors, '\n');
    EntriesPlus(head, EntryLine(PASSTHROUGH_KEY, Join(selectors, ' ')));
    EntryReads(m, PASSTHROUGH_KEY, Join(selectors, ' '));
  }

  lemma HeadHolds(path: Option<string>, selectors: seq<string>)
    requires path.Some? ==> '\n' !in path.value
    requires forall s :: s in selectors ==> '\n' !in s
    ensures ReadEntries(HeadLines(path, selectors)) == Preamble(path, selectors)
  {
    CommentsHoldNothing();
    var comments := [NOTICE] + [PURPOSE];
    if path.Some? {
      PathHolds(comments, path.value);
      PassthroughHolds(comments + [EntryLine("PATH", path.value)], map["PATH" := path.value], selectors);
    } else {
      PassthroughHolds(comments, map[], selectors);
      assert comments + [] == comments;
    }
  }

  /** The file of a capture holds exactly PATH, the selector list and every captured variable. */
  lemma FileHoldsCapture(c: Capture)
    requires WellFormed(c)
    ensures Contents(Render(c)) == Preamble(c.path, c.selectors) + c.values
  {
    var head, keys := HeadLines(c.path, c.selectors), SortedKeys(c.values.Keys);
    HeadReads(c.path, c.selectors);
    EntryLinesRead(head, keys, c.values);
    HeadHolds(c.path, c.selectors);
    forall k | k in keys ensures Takes(ReadEntry, k, c.values[k]) {
      forall m ensures ReadEntry(m, EntryLine(k, c.values[k])) == m[k := c.values[k]] {
        EntryReads(m, k, c.values[k]);
      }
    }
    EntryLinesHold(ReadEntry, head, keys, c.values);
    assert Restrict(c.values, keys) == c.values;
    LinesOfJoin(RenderLines(c));
  }

  // ----- histories

  function Others(m: Env): Env {
    map k | k in m && !IsProxyKey(k) :: m[k]
  }

  /** Call `i` is the last acceptable capture of the history. */
  ghost predicate LastAcceptable(caps: seq<Capture>, i: nat) {
    && i < |caps| && ValidMode(caps[i].values)
    && forall j :: i < j < |caps| ==> !ValidMode(caps[j].values)
  }

  lemma OthersOfMerge(values: Env, previous: Env)
    ensures Others(Merge(values, previous)) == Others(values)
  {
    MergeFrom(values, previous);
    MergeKeeps(values, previous);
  }

  lemma PreambleIsOther(path: Option<string>, selectors: seq<string>, m: Env)
    ensures Others(Preamble(path, selectors) + m) == Preamble(path, selectors) + Others(m)
  {
    PathIsOtherKey();
    PassthroughIsOtherKey();
  }

  lemma InstalledStep(caps: seq<Capture>, c: Capture)
    requires AllWellFormed(caps) && WellFormed(c)
    ensures Installed(caps + [c]) == After(Installed(caps), c)
    ensures ValidMode(c.values) <==> Preserved(Installed(caps), c.values).Ok?
    ensures !ValidMode(c.values) ==> Installed(caps + [c]) == Installed(caps)
  {
    assert (caps + [c])[..|caps + [c]| - 1] == caps;
    ReinstallFailsIff(caps, c);
  }

  lemma {:induction false} NothingLater(caps: seq<Capture>, more: seq<Capture>)
    requires AllWellFormed(caps) && AllWellFormed(more) && forall c :: c in more ==> !ValidMode(c.values)
    ensures Installed(caps + more) == Installed(caps)
  {
    if more == [] {
      assert caps + more == caps;
    } else {
      var n := |more| - 1;
      var c, before := more[n], caps + more[..n];
      assert caps + more == before + [c];
      NothingLater(caps, more[..n]);
      InstalledStep(before, c);
    }
  }

  /** The file after a capture that is acceptable. */
  lemma AcceptableHolds(file: Option<string>, c: Capture)
    requires WellFormed(c) && Preserved(file, c.values).Ok?
    ensures After(file, c).Some?
    ensures Others(Contents(After(file, c).value)) == Preamble(c.path, c.selectors) + Others(c.values)
  {
    var saved := SavedIn(file).value;
    if file.Some? {
      ReadIsWritable(file.value);
    }
    var merged := Merge(c.values, saved);
    MergeIsWellFormed(c, saved);
    FileHoldsCapture(c.(values := merged));
    PreambleIsOther(c.path, c.selectors, merged);
    OthersOfMerge(c.values, saved);
  }

  /**
   After any history the file holds, beside the proxy groups, exactly what the last acceptable
   capture had: its PATH, its selector list and every one of its other variables, and no more.
   */
  lemma HistoryHoldsLastCapture(caps: seq<Capture>, i: nat)
    requires AllWellFormed(caps) && LastAcceptable(caps, i)
    ensures Installed(caps).Some?
    ensures Others(Contents(Installed(caps).value)) ==
            Preamble(caps[i].path, caps[i].selectors) + Others(caps[i].values)
  {
    var c, before, more := caps[i], caps[..i], caps[i + 1..];
    assert caps == (before + [c]) + more;
    NothingLater(before + [c], more);
    InstalledStep(before, c);
    AcceptableHolds(Installed(before), c);
  }
}

/** The path subset of jq that the output layer evaluates. */
module JqPath {
  import opened Wrappers
  import opened Json
  import opened Text

  datatype Error =
    | NoLeadingDot
    | Unclosed
    | EmptySegment
    | UnsupportedSuffix
    | OnlySlices
    | BadBound
    | MissingField(name: string)
    | NotAnArray(name: string)

  const USIZE_MAX := 0xffff_ffff_ffff_ffff

  // ----- one segment

  /** The index just after the last `c`, or 0 when there is none. */
  function AfterLast(s: string, c: char): (i: nat)
    ensures i <= |s| && (i > 0 ==> s[i - 1] == c) && c !in s[i..] && (i == 0 <==> c !in s)
  {
    if s == "" then 0 else if s[|s| - 1] == c then |s|
    else
      var i := AfterLast(s[..|s| - 1], c);
      assert s == s[..|s| - 1] + [s[|s| - 1]];
      assert s[i..] == s[..|s| - 1][i..] + [s[|s| - 1]];
      i
  }

  function Bound(raw: string, default: nat): Result<nat, Error> {
    if Trim(raw) == "" then Ok(default)
    else
      var n := ParseUnsigned(Trim(raw), USIZE_MAX);
      if n.Some? then Ok(n.value) else Err(BadBound)
  }

  function ParseSlice(selector: string): Result<(nat, nat), Error> {
    match SplitOnce(selector, ':')
    case None => Err(OnlySlices)
    case Some((a, b)) =>
      var start, end := Bound(a, 0), Bound(b, USIZE_MAX);
      if start.Err? then Err(start.error)
      else if end.Err? then Err(end.error)
      else Ok((start.value, end.value))
  }

  /** A field name and, in brackets, the bounds of a slice. */
  datatype Segment = Segment(name: string, slice: Option<(nat, nat)>)

  function SegmentAt(s: string, open: nat, close: nat): Result<Segment, Error>
    requires open <= |s| && close <= |s| && (open < |s| == close ==> open + 1 < close)
  {
    if s == "" then Err(EmptySegment)
    else if open == |s| then Ok(Segment(s, None))
    else if close == 0 then Err(Unclosed)
    else if close != |s| then Err(UnsupportedSuffix)
    else
      var slice := ParseSlice(s[open + 1..close - 1]);
      if slice.Err? then Err(slice.error) else Ok(Segment(s[..open], Some(slice.value)))
  }

  function ParseSegment(s: string): Result<Segment, Error> {
    SegmentAt(s, Find(s, '['), AfterLast(s, ']'))
  }

  /** Both bounds are cut down to the array, so no slice is out of range. */
  function Slice(items: seq<Value>, start: nat, end: nat): (r: seq<Value>)
    ensures |r| == if start < end && start < |items| then (if end < |items| then end else |items|) - start else 0
    ensures forall i :: 0 <= i < |r| ==> r[i] == items[start + i]
  {
    var hi := if end < |items| then end else |items|;
    var lo := if start < hi then start else hi;
    items[lo..hi]
  }

  function ApplySegment(v: Value, s: string): Result<Value, Error> {
    match ParseSegment(s)
    case Err(e) => Err(e)
    case Ok(seg) =>
      if !v.Object? || seg.name !in v.fields then Err(MissingField(seg.name))
      else
        var field := v.fields[seg.name];
        if seg.slice.None? then Ok(field)
        else if !field.Array? then Err(NotAnArray(seg.name))
        else Ok(Array(Slice(field.items, seg.slice.value.0, seg.slice.value.1)))
  }

  // ----- paths

  function After(rest: string): string {
    var i := Find(rest, '.');
    if i < |rest| then rest[i + 1..] else ""
  }

  /** One step along a path: a value and a segment give a value or an error. */
  type Step = (Value, string) -> Result<Value, Error>

  /** Follows the segments of `rest`, which are separated by dots; a last dot is ignored. */
  function Walk(step: Step, v: Value, rest: string): Result<Value, Error>
    decreases |rest|
  {
    if rest == "" then Ok(v)
    else
      var next := step(v, rest[..Find(rest, '.')]);
      if next.Err? then next else Walk(step, next.value, After(rest))
  }

  function StripDots(s: string): string {
    if s != "" && s[0] == '.' then StripDots(s[1..]) else s
  }

  function Apply(v: Value, expr: string): Result<Value, Error> {
    var s := Trim(expr);
    if s == "" || s[0] != '.' then Err(NoLeadingDot)
    else if '[' in s && ']' !in s then Err(Unclosed)
    else Walk(ApplySegment, v, StripDots(s))
  }

  /** The loop of the source. */
  method ApplyJqSubset(v: Value, expr: string) returns (r: Result<Value, Error>)
    ensures r == Apply(v, expr)
  {
    var s := Trim(expr);
    if s == "" || s[0] != '.' { return Err(NoLeadingDot); }
    if '[' in s && ']' !in s { return Err(Unclosed); }
    var current, rest := v, StripDots(s);
    while rest != ""
      invariant Walk(ApplySegment, v, StripDots(s)) == Walk(ApplySegment, current, rest)
      decreases |rest|
    {
      var dot := Find(rest, '.');
      var next := ApplySegment(current, rest[..dot]);
      if next.Err? { return next; }
      current := next.value;
      rest := if dot < |rest| then rest[dot + 1..] else "";
    }
    r := Ok(current);
  }

  // ----- composition

  function Then(step: Step, m: Result<Value, Error>, rest: string): Result<Value, Error> {
    if m.Err? then m else Walk(step, m.value, rest)
  }

  lemma WalkFirst(step: Step, v: Value, seg: string, rest: string)
    requires '.' !in seg
    ensures Walk(step, v, seg + ['.'] + rest) == Then(step, step(v, seg), rest)
  {
    var whole := seg + ['.'] + rest;
    FindAfter(seg, '.', rest);
    assert whole[..|seg|] == seg && whole[|seg| + 1..] == rest;
  }

  lemma WalkLast(step: Step, v: Value, seg: string)
    requires '.' !in seg && seg != ""
    ensures Walk(step, v, seg) == step(v, seg)
  {
    FindNone(seg, '.');
    assert seg[..|seg|] == seg;
    assert Walk(step, v, seg) == Then(step, step(v, seg), "");
  }

  /** Walking a joined path is walking its two parts in turn. */
  lemma {:induction false} WalkComposes(step: Step, v: Value, p: string, q: string)
    requires p != "" && p[|p| - 1] != '.'
    ensures Walk(step, v, p + ['.'] + q) == Then(step, Walk(step, v, p), q)
    decreases |p|
  {
    if '.' !in p {
      WalkFirst(step, v, p, q);
      WalkLast(step, v, p);
    } else {
      var seg, rest := CutFirst(p, '.');
      assert rest != "";
      assert p + ['.'] + q == seg + ['.'] + (rest + ['.'] + q);
      WalkFirst(step, v, seg, rest);
      WalkFirst(step, v, seg, rest + ['.'] + q);
      if step(v, seg).Ok? {
        WalkComposes(step, step(v, seg).value, rest, q);
      }
    }
  }

  predicate Closed(s: string) {
    '[' in s ==> ']' in s
  }

  lemma SegmentIsClosed(s: string)
    requires ParseSegment(s).Ok?
    ensures Closed(s)
  {
    FindNone(s, '[');
  }

  /** A path that can be walked closes a bracket wherever it opens one. */
  lemma {:induction false} WalkedIsClosed(step: Step, v: Value, p: string)
    requires forall u, s :: step(u, s).Ok? ==> Closed(s)
    requires Walk(step, v, p).Ok?
    ensures Closed(p)
    decreases |p|
  {
    if '.' in p {
      var seg, rest := CutFirst(p, '.');
      WalkFirst(step, v, seg, rest);
      WalkedIsClosed(step, step(v, seg).value, rest);
    } else if p != "" {
      WalkLast(step, v, p);
    }
  }

  lemma ApplyStrips(v: Value, path: string)
    requires path != "" ==> path[0] != '.'
    ensures Trim("." + path) == "." + TrimEnd(path)
    ensures StripDots("." + TrimEnd(path)) == TrimEnd(path)
  {
    var t := TrimEnd(path);
    TrimEndAppend(".", path);
    TrimEndIsPrefix(path);
    assert ("." + t)[1..] == t;
  }

  /** Evaluating a dotted path is walking it, without the white space at its end. */
  lemma ApplyIsWalk(v: Value, path: string, r: Value)
    requires path != "" ==> path[0] != '.'
    ensures Apply(v, "." + path) == Ok(r) <==> Walk(ApplySegment, v, TrimEnd(path)) == Ok(r)
  {
    var t := TrimEnd(path);
    ApplyStrips(v, path);
    if Walk(ApplySegment, v, t) == Ok(r) && '[' in "." + t {
      forall u, s | ApplySegment(u, s).Ok? ensures Closed(s) {
        SegmentIsClosed(s);
      }
      WalkedIsClosed(ApplySegment, v, t);
    }
  }

  /**
   Path evaluation composes: `.p.q` gives `r` exactly when `.p` gives some `m` and `.q` gives
   `r` on `m`.
   */
  lemma PathsCompose(v: Value, p: string, q: string, r: Value)
    requires p != "" && p[0] != '.' && p[|p| - 1] != '.' && !IsWhitespace(p[|p| - 1])
    requires q != "" ==> q[0] != '.'
    ensures Apply(v, "." + (p + ['.'] + q)) == Ok(r) <==>
            exists m :: Apply(v, "." + p) == Ok(m) && Apply(m, "." + q) == Ok(r)
  {
    var t := TrimEnd(q);
    ApplyIsWalk(v, p + ['.'] + q, r);
    TrimEndAppend(p + ['.'], q);
    WalkComposes(ApplySegment, v, p, t);
    assert TrimEnd(p) == p;
    forall m
      ensures Apply(v, "." + p) == Ok(m) <==> Walk(ApplySegment, v, p) == Ok(m)
      ensures Apply(m, "." + q) == Ok(r) <==> Walk(ApplySegment, m, t) == Ok(r)
    {
      ApplyIsWalk(v, p, m);
      ApplyIsWalk(m, q, r);
    }
  }

  // ----- segments read back

  lemma DigitsBound(s: string, default: nat)
    requires s != "" && AllDigits(s) && NumberOf(s) <= USIZE_MAX
    ensures Bound(s, default) == Ok(NumberOf(s))
  {
    TrimmedStays(s);
  }

  lemma BracketsRead(s: string, name: string, inner: string)
    requires '[' !in name && s == name + ['['] + (inner + "]")
    ensures Find(s, '[') == |name| && AfterLast(s, ']') == |s| == |name| + |inner| + 2
    ensures s[..|name|] == name && s[|name| + 1..|s| - 1] == inner
  {
    FindAfter(name, '[', inner + "]");
    assert s[|s| - 1] == ']';
    assert s[|name| + 1..|s| - 1] == inner;
  }

  lemma SliceReads(a: string, b: string, start: nat, end: nat)
    requires ':' !in a && Bound(a, 0) == Ok(start) && Bound(b, USIZE_MAX) == Ok(end)
    ensures ParseSlice(a + [':'] + b) == Ok((start, end))
  {
    SplitOnceAt(a, ':', b);
  }

  lemma SegmentReads(s: string, open: nat, slice: (nat, nat))
    requires open + 1 < |s| && ParseSlice(s[open + 1..|s| - 1]) == Ok(slice)
    ensures SegmentAt(s, open, |s|) == Ok(Segment(s[..open], Some(slice)))
  {
  }

  /** A segment with brackets reads as its name and whatever its bounds read as. */
  lemma BracketedReads(s: string, name: string, selector: string, slice: (nat, nat))
    requires '[' !in name && s == name + ['['] + (selector + "]") && ParseSlice(selector) == Ok(slice)
    ensures ParseSegment(s) == Ok(Segment(name, Some(slice)))
  {
    BracketsRead(s, name, selector);
    SegmentReads(s, |name|, slice);
  }

  /** A bound as it is written; an open bound is left out. */
  function Written(b: Option<nat>): string {
    if b.None? then "" else Decimal(b.value)
  }

  function OrElse(b: Option<nat>, default: nat): nat {
    if b.None? then default else b.value
  }

  lemma WrittenBound(b: Option<nat>, default: nat)
    requires OrElse(b, 0) <= USIZE_MAX
    ensures Bound(Written(b), default) == Ok(OrElse(b, default))
    ensures forall c :: c in Written(b) ==> IsDigit(c)
  {
    if b.Some? {
      DecimalReads(b.value);
      DigitsBound(Decimal(b.value), default);
    }
  }

  lemma WrittenSlice(start: Option<nat>, end: Option<nat>)
    requires OrElse(start, 0) <= USIZE_MAX && OrElse(end, 0) <= USIZE_MAX
    ensures ParseSlice(Written(start) + [':'] + Written(end)) == Ok((OrElse(start, 0), OrElse(end, USIZE_MAX)))
  {
    WrittenBound(start, 0);
    WrittenBound(end, USIZE_MAX);
    SliceReads(Written(start), Written(end), OrElse(start, 0), OrElse(end, USIZE_MAX));
  }

  /** The written form of a slice segment is read as that name and those bounds. */
  lemma SegmentReadsBack(name: string, start: Option<nat>, end: Option<nat>, s: string)
    requires '[' !in name && OrElse(start, 0) <= USIZE_MAX && OrElse(end, 0) <= USIZE_MAX
    requires s == name + ['['] + (Written(start) + [':'] + Written(end) + "]")
    ensures ParseSegment(s) == Ok(Segment(name, Some((OrElse(start, 0), OrElse(end, USIZE_MAX)))))
  {
    WrittenSlice(start, end);
    BracketedReads(s, name, Written(start) + [':'] + Written(end), (OrElse(start, 0), OrElse(end, USIZE_MAX)));
  }

  // ----- what a single segment evaluates to

  lemma OneSegment(v: Value, s: string, r: Value)
    requires s != "" && '.' !in s && !IsWhitespace(s[|s| - 1])
    ensures Apply(v, "." + s) == Ok(r) <==> ApplySegment(v, s) == Ok(r)
  {
    ApplyIsWalk(v, s, r);
    WalkLast(ApplySegment, v, s);
    assert TrimEnd(s) == s;
  }

  lemma NamedReads(name: string)
    requires name != "" && '[' !in name
    ensures ParseSegment(name) == Ok(Segment(name, None))
  {
    FindNone(name, '[');
  }

  /** `.name` gives exactly that field of an object, and nothing on any other value. */
  lemma FieldEvaluates(v: Value, name: string, r: Value)
    requires name != "" && '.' !in name && '[' !in name && !IsWhitespace(name[|name| - 1])
    ensures Apply(v, "." + name) == Ok(r) <==> v.Object? && name in v.fields && v.fields[name] == r
  {
    OneSegment(v, name, r);
    NamedReads(name);
  }

  lemma WrittenSegment(name: string, start: Option<nat>, end: Option<nat>, s: string)
    requires '.' !in name && OrElse(start, 0) <= USIZE_MAX && OrElse(end, 0) <= USIZE_MAX
    requires s == name + ['['] + (Written(start) + [':'] + Written(end) + "]")
    ensures s != "" && '.' !in s && s[|s| - 1] == ']'
  {
    WrittenBound(start, 0);
    WrittenBound(end, 0);
    var inner := Written(start) + [':'] + Written(end) + "]";
    assert '.' !in Written(start) && '.' !in Written(end);
    assert '.' !in inner;
    assert s[|s| - 1] == inner[|inner| - 1] == ']';
  }

  lemma SliceOfField(v: Value, name: string, start: nat, end: nat, s: string, r: Value)
    requires ParseSegment(s) == Ok(Segment(name, Some((start, end))))
    ensures ApplySegment(v, s) == Ok(r) <==>
            && v.Object? && name in v.fields && v.fields[name].Array?
            && r == Array(Slice(v.fields[name].items, start, end))
  {
  }

  /** `.name[start:end]`, with either bound left open or not, gives exactly that slice of an array field. */
  lemma SliceEvaluates(v: Value, name: string, start: Option<nat>, end: Option<nat>, s: string, r: Value)
    requires '.' !in name && '[' !in name && OrElse(start, 0) <= USIZE_MAX && OrElse(end, 0) <= USIZE_MAX
    requires s == name + ['['] + (Written(start) + [':'] + Written(end) + "]")
    ensures Apply(v, "." + s) == Ok(r) <==>
            && v.Object? && name in v.fields && v.fields[name].Array?
            && r == Array(Slice(v.fields[name].items, OrElse(start, 0), OrElse(end, USIZE_MAX)))
  {
    WrittenSegment(name, start, end, s);
    OneSegment(v, s, r);
    SegmentReadsBack(name, start, end, s);
    SliceOfField(v, name, OrElse(start, 0), OrElse(end, USIZE_MAX), s, r);
  }

  /** On an array that fits in memory, an open end reaches to the last item, and `[:]` is the whole array. */
  lemma OpenSlice(items: seq<Value>, start: nat)
    requires start <= |items| <= USIZE_MAX
    ensures Slice(items, start, USIZE_MAX) == items[start..]
    ensures Slice(items, 0, USIZE_MAX) == items
  {
  }

  /** Further dots in front are ignored. */
  lemma LeadingDotsIgnored(v: Value, s: string)
    requires s != "" && s[0] == '.' && IsTrimmed(s)
    ensures Apply(v, "." + s) == Apply(v, s)
  {
    TrimmedStays(s);
    TrimmedStays("." + s);
    assert ("." + s)[1..] == s;
  }
}

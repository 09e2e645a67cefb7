/** The saved CLI environment: quoting, decoding and the file format. */
module RuntimeEnv {
  import opened Wrappers
  import opened Text
  import opened KeyOrder
  import opened ProxyKeys

  const PASSTHROUGH_KEY := "AWIKI_DAEMON_CLI_ENV_PASSTHROUGH"

  predicate IsProxyKey(k: string) {
    k in ADDRESS_KEYS || k in EXCLUSION_KEYS || k in MODE_KEYS
  }

  // ----- quoting

  predicate IsSpecial(c: char) {
    c == '\\' || c == '"' || c == '$' || c == '`'
  }

  function Replace(s: string, c: char, with': string): string {
    if s == "" then "" else (if s[0] == c then with' else [s[0]]) + Replace(s[1..], c, with')
  }

  /** The four replacements, in the order the source makes them. */
  function ReplaceAll(s: string): string {
    Replace(Replace(Replace(Replace(s, '\\', "\\\\"), '"', "\\\""), '$', "\\$"), '`', "\\`")
  }

  function Quote(v: string): string {
    "\"" + ReplaceAll(v) + "\""
  }

  function Escape(s: string): string {
    if s == "" then "" else (if IsSpecial(s[0]) then ['\\', s[0]] else [s[0]]) + Escape(s[1..])
  }

  lemma {:induction false} ReplaceConcat(s: string, t: string, c: char, with': string)
    ensures Replace(s + t, c, with') == Replace(s, c, with') + Replace(t, c, with')
  {
    if s == "" {
      assert s + t == t;
    } else {
      assert (s + t)[1..] == s[1..] + t;
      ReplaceConcat(s[1..], t, c, with');
    }
  }

  lemma ReplaceAllConcat(s: string, t: string)
    ensures ReplaceAll(s + t) == ReplaceAll(s) + ReplaceAll(t)
  {
    ReplaceConcat(s, t, '\\', "\\\\");
    var s1, t1 := Replace(s, '\\', "\\\\"), Replace(t, '\\', "\\\\");
    ReplaceConcat(s1, t1, '"', "\\\"");
    var s2, t2 := Replace(s1, '"', "\\\""), Replace(t1, '"', "\\\"");
    ReplaceConcat(s2, t2, '$', "\\$");
    ReplaceConcat(Replace(s2, '$', "\\$"), Replace(t2, '$', "\\$"), '`', "\\`");
  }

  lemma ReplaceAllChar(c: char)
    ensures ReplaceAll([c]) == Escape([c])
  {
    assert forall d: char, w: string :: Replace([c], d, w) == if c == d then w else [c];
    assert forall a: char, b: char, d: char, w: string ::
        Replace([a, b], d, w) == (if a == d then w else [a]) + (if b == d then w else [b]) by {
      forall a: char, b: char, d: char, w: string
        ensures Replace([a, b], d, w) == (if a == d then w else [a]) + (if b == d then w else [b])
      {
        ReplaceConcat([a], [b], d, w);
        assert [a] + [b] == [a, b];
      }
    }
  }

  /** The four sequential replacements are one pass that escapes each special character. */
  lemma {:induction false} ReplaceAllIsEscape(s: string)
    ensures ReplaceAll(s) == Escape(s)
  {
    if s != "" {
      assert s == [s[0]] + s[1..];
      ReplaceAllConcat([s[0]], s[1..]);
      ReplaceAllChar(s[0]);
      ReplaceAllIsEscape(s[1..]);
      assert [s[0]][1..] == "";
    }
  }

  // ----- decoding

  function Prepend(c: char, s: Option<string>): Option<string> {
    if s.None? then None else Some([c] + s.value)
  }

  function Onto(s: string, rest: Option<string>): (r: Option<string>)
    ensures s == "" ==> r == rest
    ensures rest == Some("") ==> r == Some(s)
  {
    if rest.None? then None
    else
      assert s == "" ==> s + rest.value == rest.value;
      assert rest.value == "" ==> s + rest.value == s;
      Some(s + rest.value)
  }

  lemma OntoPrepend(s: string, c: char, rest: Option<string>)
    ensures Onto(s, Prepend(c, rest)) == Onto(s + [c], rest)
  {
    if rest.Some? {
      assert s + ([c] + rest.value) == (s + [c]) + rest.value;
    }
  }

  predicate IsBareForbidden(c: char) {
    IsWhitespace(c) || c in ";&|<>()"
  }

  function DecodeBody(s: string, quoted: bool): Option<string>
    decreases |s|
  {
    if s == "" then Some("")
    else if s[0] == '\\' then
      if |s| > 1 && IsSpecial(s[1]) then Prepend(s[1], DecodeBody(s[2..], quoted)) else None
    else if IsSpecial(s[0]) || (!quoted && IsBareForbidden(s[0])) then None
    else Prepend(s[0], DecodeBody(s[1..], quoted))
  }

  function Decode(raw: string): Option<string> {
    if |raw| >= 2 && raw[0] == '\'' && raw[|raw| - 1] == '\'' then
      var inner := raw[1..|raw| - 1];
      if '\'' in inner then None else Some(inner)
    else if raw != "" && raw[0] == '"' then
      if |raw| >= 2 && raw[|raw| - 1] == '"' then DecodeBody(raw[1..|raw| - 1], true) else None
    else DecodeBody(raw, false)
  }

  /** The decoding loop of the source. */
  method DecodeSavedEnvValue(raw: string) returns (r: Option<string>)
    ensures r == Decode(raw)
  {
    if |raw| >= 2 && raw[0] == '\'' && raw[|raw| - 1] == '\'' {
      var inner := raw[1..|raw| - 1];
      return if '\'' in inner then None else Some(inner);
    }
    var quoted := raw != "" && raw[0] == '"';
    if quoted && !(|raw| >= 2 && raw[|raw| - 1] == '"') { return None; }
    var value := if quoted then raw[1..|raw| - 1] else raw;
    var decoded := "";
    var i := 0;
    assert value[i..] == value;
    while i < |value|
      invariant 0 <= i <= |value|
      invariant DecodeBody(value, quoted) == Onto(decoded, DecodeBody(value[i..], quoted))
    {
      var ch := value[i];
      ghost var here := value[i..];
      if ch == '\\' {
        if i + 1 == |value| || !IsSpecial(value[i + 1]) { return None; }
        assert here[2..] == value[i + 2..] && here[1] == value[i + 1];
        OntoPrepend(decoded, value[i + 1], DecodeBody(value[i + 2..], quoted));
        decoded := decoded + [value[i + 1]];
        i := i + 2;
      } else if IsSpecial(ch) || (!quoted && IsBareForbidden(ch)) {
        return None;
      } else {
        assert here[1..] == value[i + 1..];
        OntoPrepend(decoded, ch, DecodeBody(value[i + 1..], quoted));
        decoded := decoded + [ch];
        i := i + 1;
      }
    }
    r := Some(decoded);
  }

  lemma {:induction false} DecodeEscape(v: string)
    ensures DecodeBody(Escape(v), true) == Some(v)
  {
    if v != "" {
      var head := if IsSpecial(v[0]) then ['\\', v[0]] else [v[0]];
      var e := head + Escape(v[1..]);
      assert e[|head|..] == Escape(v[1..]) && e[|head| - 1] == v[0];
      DecodeEscape(v[1..]);
      assert [v[0]] + v[1..] == v;
    }
  }

  lemma {:induction false} DecodeBodyInverts(s: string, v: string)
    requires DecodeBody(s, true) == Some(v)
    ensures s == Escape(v)
    decreases |s|
  {
    if s != "" {
      var n := if s[0] == '\\' then 2 else 1;
      var rest := DecodeBody(s[n..], true);
      DecodeBodyInverts(s[n..], rest.value);
      assert v[1..] == rest.value;
    }
  }

  /** A double-quoted value decodes to `v` exactly when it is the quotation of `v`. */
  lemma DecodeInvertsQuote(raw: string, v: string)
    requires raw != "" && raw[0] == '"'
    ensures Decode(raw) == Some(v) <==> raw == Quote(v)
  {
    ReplaceAllIsEscape(v);
    if raw == Quote(v) {
      assert raw[1..|raw| - 1] == Escape(v);
      DecodeEscape(v);
    }
    if Decode(raw) == Some(v) {
      DecodeBodyInverts(raw[1..|raw| - 1], v);
      assert raw == "\"" + raw[1..|raw| - 1] + "\"";
    }
  }

  lemma {:induction false} EscapeChars(v: string)
    requires '\n' !in v
    ensures '\n' !in Escape(v)
  {
    if v != "" {
      EscapeChars(v[1..]);
    }
  }

  lemma QuoteIsLine(v: string)
    requires '\n' !in v
    ensures IsLine(Quote(v)) && Decode(Quote(v)) == Some(v)
  {
    ReplaceAllIsEscape(v);
    EscapeChars(v);
    DecodeInvertsQuote(Quote(v), v);
  }

  // ----- the file

  datatype Capture = Capture(path: Option<string>, selectors: seq<string>, values: Env)

  // The two comment lines are written in short parts, each of which can be seen to be plain by itself.
  const MANAGED := "# Managed by "
  const OWNER := "awiki-deamon. "
  const ADVICE := "Do not edit while "
  const RUNNING := "the daemon is running."
  const NOTICE := (MANAGED + OWNER) + (ADVICE + RUNNING)

  const CAPTURES := "# This file captures "
  const CAPTURED := "the user's CLI agent "
  const KIND := "environment for "
  const USERS := "daemon-launched runtimes."
  const PURPOSE := (CAPTURES + CAPTURED) + (KIND + USERS)

  function EntryLine(key: string, value: string): string {
    key + "=" + Quote(value)
  }

  function EntryLines(keys: seq<string>, values: Env): seq<string>
    requires forall k :: k in keys ==> k in values
  {
    if keys == [] then []
    else EntryLines(keys[..|keys| - 1], values) + [EntryLine(keys[|keys| - 1], values[keys[|keys| - 1]])]
  }

  /** The lines before the captured variables. */
  function HeadLines(path: Option<string>, selectors: seq<string>): seq<string> {
    [NOTICE] + [PURPOSE]
    + (if path.Some? then [EntryLine("PATH", path.value)] else [])
    + [EntryLine(PASSTHROUGH_KEY, Join(selectors, ' '))]
  }

  function RenderLines(c: Capture): seq<string> {
    HeadLines(c.path, c.selectors) + EntryLines(SortedKeys(c.values.Keys), c.values)
  }

  function Render(c: Capture): string {
    Join(RenderLines(c) + [""], '\n')
  }

  /** One line of the saved file; the error carries the key whose value cannot be decoded. */
  function ReadLine(saved: Env, line: string): Result<Env, string> {
    match SplitOnce(Trim(line), '=')
    case None => Ok(saved)
    case Some((key, value)) =>
      if !IsProxyKey(key) then Ok(saved)
      else if Decode(value).None? then Err(key)
      else Ok(saved[key := Decode(value).value])
  }

  function ReadLines(ls: seq<string>): Result<Env, string> {
    if ls == [] then Ok(map[])
    else
      var saved := ReadLines(ls[..|ls| - 1]);
      if saved.Err? then saved else ReadLine(saved.value, ls[|ls| - 1])
  }

  function ReadSaved(raw: string): Result<Env, string> {
    ReadLines(Lines(raw))
  }

  lemma {:induction false} ReadLinesErr(ls: seq<string>, n: nat)
    requires n <= |ls| && ReadLines(ls[..n]).Err?
    ensures ReadLines(ls) == ReadLines(ls[..n])
  {
    if n < |ls| {
      assert ls[..|ls| - 1][..n] == ls[..n];
      ReadLinesErr(ls[..|ls| - 1], n);
    } else {
      assert ls[..n] == ls;
    }
  }

  /** The reading loop of the source. */
  method ReadSavedProxyConfiguration(raw: string) returns (r: Result<Env, string>)
    ensures r == ReadSaved(raw)
  {
    var ls := Lines(raw);
    var saved: Env := map[];
    for i := 0 to |ls|
      invariant ReadLines(ls[..i]) == Ok(saved)
    {
      assert ls[..i + 1][..i] == ls[..i];
      var parts := SplitOnce(Trim(ls[i]), '=');
      if parts.None? { continue; }
      var (key, value) := parts.value;
      if key !in ADDRESS_KEYS && key !in EXCLUSION_KEYS && key != MODE_KEY { continue; }
      var decoded := DecodeSavedEnvValue(value);
      if decoded.None? {
        ReadLinesErr(ls, i + 1);
        return Err(key);
      }
      saved := saved[key := decoded.value];
    }
    assert ls[..|ls|] == ls;
    r := Ok(saved);
  }

  // ----- reading back what was rendered

  /** A variable name that survives the line format. */
  predicate IsName(k: string) {
    k != "" && !IsWhitespace(k[0]) && '=' !in k && '\n' !in k
  }

  predicate WellFormed(c: Capture) {
    && (c.path.Some? ==> '\n' !in c.path.value)
    && (forall s :: s in c.selectors ==> '\n' !in s)
    && (forall k :: k in c.values ==> IsName(k) && '\n' !in c.values[k])
  }

  lemma EntryLineReads(saved: Env, k: string, v: string)
    requires IsName(k) && '\n' !in v
    ensures IsLine(EntryLine(k, v))
    ensures ReadLine(saved, EntryLine(k, v)) == Ok(if IsProxyKey(k) then saved[k := v] else saved)
  {
    var line := EntryLine(k, v);
    QuoteIsLine(v);
    assert line == k + ['='] + Quote(v);
    assert line[|line| - 1] == Quote(v)[|Quote(v)| - 1] == '"';
    TrimmedStays(line);
    SplitOnceAt(k, '=', Quote(v));
  }

  function ProxyPart(m: Env): Env {
    map k | k in m && IsProxyKey(k) :: m[k]
  }

  function ProxyEntries(keys: seq<string>, values: Env): Env
    requires forall k :: k in keys ==> k in values
  {
    map k | k in keys && IsProxyKey(k) :: values[k]
  }

  lemma ReadLinesPlus(ls: seq<string>, l: string)
    ensures ReadLines(ls + [l]) == if ReadLines(ls).Err? then ReadLines(ls) else ReadLine(ReadLines(ls).value, l)
  {
    assert (ls + [l])[..|ls + [l]| - 1] == ls;
  }

  lemma ProxyEntriesPlus(keys: seq<string>, k: string, values: Env)
    requires k in values && forall x :: x in keys ==> x in values
    ensures ProxyEntries(keys + [k], values) ==
            if IsProxyKey(k) then ProxyEntries(keys, values)[k := values[k]] else ProxyEntries(keys, values)
  {
    assert forall x :: x in keys + [k] <==> x in keys || x == k;
  }

  /** Reading a file whose head holds no proxy key ends with the proxy entries of its tail. */
  lemma {:induction false} EntryLinesRead(head: seq<string>, keys: seq<string>, values: Env)
    requires forall k :: k in keys ==> k in values && IsName(k) && '\n' !in values[k]
    requires ReadLines(head) == Ok(map[])
    ensures ReadLines(head + EntryLines(keys, values)) == Ok(ProxyEntries(keys, values))
    ensures forall l :: l in EntryLines(keys, values) ==> IsLine(l)
  {
    if keys == [] {
      assert head + EntryLines(keys, values) == head;
      assert ProxyEntries(keys, values) == map[];
    } else {
      var n := |keys| - 1;
      var k, rest := keys[n], keys[..n];
      assert keys == rest + [k];
      EntryLinesRead(head, rest, values);
      assert head + EntryLines(keys, values) == head + EntryLines(rest, values) + [EntryLine(k, values[k])];
      ReadLinesPlus(head + EntryLines(rest, values), EntryLine(k, values[k]));
      EntryLineReads(ProxyEntries(rest, values), k, values[k]);
      ProxyEntriesPlus(rest, k, values);
    }
  }

  lemma CommentReads(saved: Env, line: string)
    requires '=' !in line
    ensures ReadLine(saved, line) == Ok(saved)
  {
    TrimIsTrimmed(line);
    FindNone(Trim(line), '=');
  }

  lemma {:induction false} JoinKeepsOut(parts: seq<string>, c: char)
    requires c != ' ' && forall p :: p in parts ==> c !in p
    ensures c !in Join(parts, ' ')
  {
    if |parts| > 1 {
      JoinKeepsOut(parts[1..], c);
    }
  }

  predicate IsPlain(s: string) {
    forall c :: c in s ==> ' ' <= c && c != '='
  }

  /** A line that reading passes over. */
  predicate Ignored(l: string) {
    IsLine(l) && ReadLine(map[], l) == Ok(map[])
  }

  lemma {:induction false} IgnoredRead(ls: seq<string>)
    requires forall l :: l in ls ==> Ignored(l)
    ensures ReadLines(ls) == Ok(map[])
  {
    if ls != [] {
      assert Ignored(ls[|ls| - 1]);
      IgnoredRead(ls[..|ls| - 1]);
    }
  }

  lemma PlainConcat(a: string, b: string, c: string, d: string)
    requires IsPlain(a) && IsPlain(b) && IsPlain(c) && IsPlain(d)
    ensures IsPlain((a + b) + (c + d))
  {
  }

  lemma NoticePartsArePlain()
    ensures IsPlain(MANAGED) && IsPlain(OWNER) && IsPlain(ADVICE) && IsPlain(RUNNING)
  {
  }

  lemma PurposePartsArePlain()
    ensures IsPlain(CAPTURES) && IsPlain(CAPTURED) && IsPlain(KIND) && IsPlain(USERS)
  {
  }

  lemma PlainIgnored(line: string)
    requires IsPlain(line)
    ensures Ignored(line)
  {
    CommentReads(map[], line);
    assert line != "" ==> line[|line| - 1] in line;
  }

  lemma CommentsIgnored()
    ensures Ignored(NOTICE) && Ignored(PURPOSE)
  {
    NoticePartsArePlain();
    PlainConcat(MANAGED, OWNER, ADVICE, RUNNING);
    PlainIgnored(NOTICE);
    PurposePartsArePlain();
    PlainConcat(CAPTURES, CAPTURED, KIND, USERS);
    PlainIgnored(PURPOSE);
  }

  lemma PathIsOtherKey()
    ensures IsName("PATH") && !IsProxyKey("PATH")
  {
    assert |"PATH"| == 4;
    assert "PATH" !in ADDRESS_KEYS;
    assert "PATH" !in EXCLUSION_KEYS;
    assert "PATH" !in MODE_KEYS;
  }

  lemma PassthroughIsOtherKey()
    ensures IsName(PASSTHROUGH_KEY) && !IsProxyKey(PASSTHROUGH_KEY)
  {
  }

  lemma OtherEntryIgnored(k: string, v: string)
    requires IsName(k) && !IsProxyKey(k) && '\n' !in v
    ensures Ignored(EntryLine(k, v))
  {
    EntryLineReads(map[], k, v);
  }

  lemma PathIgnored(path: string)
    requires '\n' !in path
    ensures Ignored(EntryLine("PATH", path))
  {
    PathIsOtherKey();
    OtherEntryIgnored("PATH", path);
  }

  lemma PassthroughIgnored(selectors: seq<string>)
    requires forall s :: s in selectors ==> '\n' !in s
    ensures Ignored(EntryLine(PASSTHROUGH_KEY, Join(selectors, ' ')))
  {
    PassthroughIsOtherKey();
    JoinKeepsOut(selectors, '\n');
    OtherEntryIgnored(PASSTHROUGH_KEY, Join(selectors, ' '));
  }

  lemma HeadReads(path: Option<string>, selectors: seq<string>)
    requires path.Some? ==> '\n' !in path.value
    requires forall s :: s in selectors ==> '\n' !in s
    ensures ReadLines(HeadLines(path, selectors)) == Ok(map[])
    ensures forall l :: l in HeadLines(path, selectors) ==> IsLine(l)
  {
    CommentsIgnored();
    if path.Some? {
      PathIgnored(path.value);
    }
    PassthroughIgnored(selectors);
    IgnoredRead(HeadLines(path, selectors));
  }

  /** Reading a rendered file gives back exactly the proxy entries that were rendered. */
  lemma ReadBackRendered(c: Capture)
    requires WellFormed(c)
    ensures ReadSaved(Render(c)) == Ok(ProxyPart(c.values))
  {
    var head, keys := HeadLines(c.path, c.selectors), SortedKeys(c.values.Keys);
    HeadReads(c.path, c.selectors);
    EntryLinesRead(head, keys, c.values);
    assert ProxyPart(c.values) == ProxyEntries(keys, c.values);
    LinesOfJoin(RenderLines(c));
  }

  // ----- what any readable file holds

  predicate Free(s: string) {
    '\n' !in s
  }

  lemma {:induction false} DecodeBodyFree(s: string, quoted: bool)
    requires Free(s) && DecodeBody(s, quoted).Some?
    ensures Free(DecodeBody(s, quoted).value)
    decreases |s|
  {
    if s != "" {
      if s[0] == '\\' {
        DecodeBodyFree(s[2..], quoted);
      } else {
        DecodeBodyFree(s[1..], quoted);
      }
    }
  }

  lemma DecodeFree(raw: string)
    requires Free(raw) && Decode(raw).Some?
    ensures Free(Decode(raw).value)
  {
    if |raw| >= 2 && raw[0] == '\'' && raw[|raw| - 1] == '\'' {
    } else if raw != "" && raw[0] == '"' {
      DecodeBodyFree(raw[1..|raw| - 1], true);
    } else {
      DecodeBodyFree(raw, false);
    }
  }

  lemma {:induction false} LinesFree(s: string)
    ensures forall l :: l in Lines(s) ==> Free(l)
    decreases |s|
  {
    var i := Find(s, '\n');
    FindNone(s, '\n');
    if i < |s| {
      LinesFree(s[i + 1..]);
    }
  }

  lemma AddressKeysAreNames()
    ensures forall k :: k in ADDRESS_KEYS ==> IsName(k)
  {
  }

  lemma OtherKeysAreNames()
    ensures forall k :: k in EXCLUSION_KEYS || k in MODE_KEYS ==> IsName(k)
  {
  }

  /** Entries that can be written: proxy keys with values on one line. */
  predicate Writable(values: Env) {
    forall k :: k in values ==> IsProxyKey(k) && IsName(k) && Free(values[k])
  }

  lemma TrimFree(line: string)
    requires Free(line)
    ensures Free(Trim(line))
  {
    TrimStartIsSuffix(line);
    TrimEndIsPrefix(TrimStart(line));
  }

  lemma ReadLineWritable(saved: Env, line: string)
    requires Writable(saved) && Free(line) && ReadLine(saved, line).Ok?
    ensures Writable(ReadLine(saved, line).value)
  {
    TrimFree(line);
    var split := SplitOnce(Trim(line), '=');
    if split.Some? && IsProxyKey(split.value.0) {
      DecodeFree(split.value.1);
      AddressKeysAreNames();
      OtherKeysAreNames();
    }
  }

  lemma {:induction false} ReadLinesWritable(ls: seq<string>)
    requires (forall l :: l in ls ==> Free(l)) && ReadLines(ls).Ok?
    ensures Writable(ReadLines(ls).value)
  {
    if ls != [] {
      var n := |ls| - 1;
      ReadLinesWritable(ls[..n]);
      ReadLineWritable(ReadLines(ls[..n]).value, ls[n]);
    }
  }

  /** Whatever a file holds, the entries read from it can be written and read back. */
  lemma ReadIsWritable(raw: string)
    requires ReadSaved(raw).Ok?
    ensures Writable(ReadSaved(raw).value)
  {
    LinesFree(raw);
    ReadLinesWritable(Lines(raw));
  }

  // ----- the other forms of a value

  /** A single-quoted value stands for itself, and may not hold a single quote. */
  lemma SingleQuotedDecodes(v: string)
    ensures Decode("'" + v + "'") == if '\'' in v then None else Some(v)
  {
    var raw := "'" + v + "'";
    assert raw[1..|raw| - 1] == v;
  }

  lemma {:induction false} BareBodyDecodes(raw: string)
    requires '\\' !in raw
    ensures DecodeBody(raw, false) ==
            if exists c :: c in raw && (IsSpecial(c) || IsWhitespace(c) || c in ";&|<>()") then None else Some(raw)
  {
    if raw != "" {
      assert raw == [raw[0]] + raw[1..];
      BareBodyDecodes(raw[1..]);
    }
  }

  /** A bare value without escapes stands for itself, and may hold no quote, white space or shell operator. */
  lemma BareDecodes(raw: string)
    requires '\\' !in raw && (raw != "" ==> raw[0] != '"' && raw[0] != '\'')
    ensures Decode(raw) ==
            if exists c :: c in raw && (IsSpecial(c) || IsWhitespace(c) || c in ";&|<>()") then None else Some(raw)
  {
    BareBodyDecodes(raw);
  }

  // ----- when a file cannot be read

  /** The line sets a proxy key to a value that cannot be decoded. */
  predicate Garbled(line: string) {
    var entry := SplitOnce(Trim(line), '=');
    entry.Some? && IsProxyKey(entry.value.0) && Decode(entry.value.1).None?
  }

  lemma LineFailsIff(saved: Env, line: string)
    ensures ReadLine(saved, line).Err? <==> Garbled(line)
  {
  }

  predicate AnyOf(p: string -> bool, ls: seq<string>) {
    ls != [] && (AnyOf(p, ls[..|ls| - 1]) || p(ls[|ls| - 1]))
  }

  lemma {:induction false} AnyOfIff(p: string -> bool, ls: seq<string>)
    ensures AnyOf(p, ls) <==> exists l :: l in ls && p(l)
  {
    if ls != [] {
      var n := |ls| - 1;
      AnyOfIff(p, ls[..n]);
      assert forall l :: l in ls <==> l in ls[..n] || l == ls[n];
    }
  }

  lemma {:induction false} LinesFailIff(ls: seq<string>)
    ensures ReadLines(ls).Err? <==> AnyOf(Garbled, ls)
  {
    if ls != [] {
      var n := |ls| - 1;
      LinesFailIff(ls[..n]);
      if ReadLines(ls[..n]).Ok? {
        LineFailsIff(ReadLines(ls[..n]).value, ls[n]);
      }
    }
  }

  /** A file cannot be read exactly when some line sets a proxy key to a value that cannot be decoded. */
  lemma ReadFailsIff(raw: string)
    ensures ReadSaved(raw).Err? <==> exists l :: l in Lines(raw) && Garbled(l)
  {
    LinesFailIff(Lines(raw));
    AnyOfIff(Garbled, Lines(raw));
  }
}

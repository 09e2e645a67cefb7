/** Which variables of the installing process are captured, and why the file format can hold them. */
module EnvCapture {
  import opened Wrappers
  import opened Text
  import opened ProxyKeys
  import opened RuntimeEnv

  datatype Selector = Exact(name: string) | Prefix(name: string)

  predicate IsNameChar(c: char) {
    'A' <= c <= 'Z' || 'a' <= c <= 'z' || '0' <= c <= '9' || c == '_'
  }

  predicate ValidName(s: string) {
    0 < |s| <= 128 && forall i :: 0 <= i < |s| ==> IsNameChar(s[i])
  }

  function ParseSelector(raw: string): Option<Selector> {
    var token := Trim(raw);
    if token == "" then None
    else if token[|token| - 1] == '*' then
      var prefix := Trim(token[..|token| - 1]);
      if ValidName(prefix) then Some(Prefix(prefix)) else None
    else if ValidName(token) then Some(Exact(token))
    else None
  }

  /** The selectors of a token list, each kept once, in order of first appearance. */
  function Selectors(tokens: seq<string>): seq<Selector> {
    if tokens == [] then []
    else
      var before := Selectors(tokens[..|tokens| - 1]);
      match ParseSelector(tokens[|tokens| - 1])
      case None => before
      case Some(sel) => if sel in before then before else before + [sel]
  }

  function Token(sel: Selector): string {
    match sel
    case Exact(name) => name
    case Prefix(name) => name + "*"
  }

  predicate Selects(sel: Selector, key: string) {
    match sel
    case Exact(name) => key == name
    case Prefix(name) => name <= key
  }

  predicate Supported(value: string) {
    '\n' !in value && '\r' !in value && '\0' !in value
  }

  function Tokens(sels: seq<Selector>): seq<string> {
    seq(|sels|, i requires 0 <= i < |sels| => Token(sels[i]))
  }

  function CaptureFrom(env: Env, path: Option<string>, tokens: seq<string>): Capture {
    var sels := Selectors(tokens);
    Capture(path, Tokens(sels),
            map k | k in env && k != PASSTHROUGH_KEY && k != "PATH"
                    && (exists i :: 0 <= i < |sels| && Selects(sels[i], k)) && Supported(env[k]) :: env[k])
  }

  lemma {:induction false} SelectorsValid(tokens: seq<string>)
    ensures forall i :: 0 <= i < |Selectors(tokens)| ==> ValidName(Selectors(tokens)[i].name)
    ensures forall i, j :: 0 <= i < j < |Selectors(tokens)| ==> Selectors(tokens)[i] != Selectors(tokens)[j]
  {
    if tokens != [] {
      SelectorsValid(tokens[..|tokens| - 1]);
    }
  }

  /**
   Every captured variable can be written and read back, whatever the selectors, as long as
   PATH and the variable names hold no line break (and, as the system ensures, no `=`).
   */
  lemma CapturedIsWellFormed(env: Env, path: Option<string>, tokens: seq<string>)
    requires path.Some? ==> '\n' !in path.value
    requires forall k :: k in env ==> '=' !in k && '\n' !in k
    ensures WellFormed(CaptureFrom(env, path, tokens))
  {
    var sels := Selectors(tokens);
    var c := CaptureFrom(env, path, tokens);
    SelectorsValid(tokens);
    forall s | s in c.selectors
      ensures '\n' !in s
    {
      var i :| 0 <= i < |sels| && s == Token(sels[i]);
      assert ValidName(sels[i].name);
    }
    forall k | k in c.values
      ensures IsName(k)
    {
      var i :| 0 <= i < |sels| && Selects(sels[i], k);
      assert ValidName(sels[i].name) && k[0] == sels[i].name[0];
    }
  }

  /** One token of a selector list selects the variable: by its name, or by a prefix before a star. */
  predicate TokenSelects(token: string, key: string) {
    var t := Trim(token);
    || (ValidName(t) && key == t)
    || (t != "" && t[|t| - 1] == '*' && ValidName(Trim(t[..|t| - 1])) && Trim(t[..|t| - 1]) <= key)
  }

  ghost predicate Selected(sels: seq<Selector>, key: string) {
    exists i :: 0 <= i < |sels| && Selects(sels[i], key)
  }

  lemma ParsedSelects(token: string, key: string)
    ensures TokenSelects(token, key) <==>
            ParseSelector(token).Some? && Selects(ParseSelector(token).value, key)
  {
    var t := Trim(token);
    if t != "" && t[|t| - 1] == '*' {
      assert !IsNameChar('*');
    }
  }

  lemma SelectedPlus(sels: seq<Selector>, sel: Selector, key: string)
    ensures Selected(sels + [sel], key) <==> Selected(sels, key) || Selects(sel, key)
  {
    if Selected(sels, key) {
      var i :| 0 <= i < |sels| && Selects(sels[i], key);
      assert (sels + [sel])[i] == sels[i];
    }
    if Selects(sel, key) {
      assert (sels + [sel])[|sels|] == sel;
    }
  }

  lemma {:induction false} SelectedIff(tokens: seq<string>, key: string)
    ensures Selected(Selectors(tokens), key) <==> exists t :: t in tokens && TokenSelects(t, key)
  {
    if tokens != [] {
      var n := |tokens| - 1;
      var before := Selectors(tokens[..n]);
      SelectedIff(tokens[..n], key);
      ParsedSelects(tokens[n], key);
      assert tokens == tokens[..n] + [tokens[n]];
      var sel := ParseSelector(tokens[n]);
      if sel.Some? {
        SelectedPlus(before, sel.value, key);
      }
    }
  }

  /**
   A variable is captured, with its value, exactly when some token of the selector lists selects
   it, its value holds no line break or NUL, and it is neither PATH nor the selector list itself.
   */
  lemma CapturesExactly(env: Env, path: Option<string>, tokens: seq<string>, k: string)
    ensures var c := CaptureFrom(env, path, tokens);
            && c.path == path
            && (k in c.values <==>
                && k in env && k != PASSTHROUGH_KEY && k != "PATH"
                && (exists t :: t in tokens && TokenSelects(t, k))
                && forall ch :: ch in env[k] ==> ch != '\n' && ch != '\r' && ch != '\0')
            && (k in c.values ==> c.values[k] == env[k])
  {
    SelectedIff(tokens, k);
  }

  lemma TokenParses(sel: Selector)
    requires ValidName(sel.name)
    ensures ParseSelector(Token(sel)) == Some(sel)
  {
    var t := Token(sel);
    assert forall c :: IsNameChar(c) ==> !IsWhitespace(c);
    TrimmedStays(t);
    TrimmedStays(sel.name);
    if sel.Prefix? {
      assert t[..|t| - 1] == sel.name;
    }
  }

  lemma SelectorsPlus(tokens: seq<string>, token: string, sel: Selector)
    requires ParseSelector(token) == Some(sel) && sel !in Selectors(tokens)
    ensures Selectors(tokens + [token]) == Selectors(tokens) + [sel]
  {
    assert (tokens + [token])[..|tokens|] == tokens;
  }

  ghost predicate GoodList(sels: seq<Selector>) {
    && (forall i :: 0 <= i < |sels| ==> ValidName(sels[i].name))
    && (forall i, j :: 0 <= i < j < |sels| ==> sels[i] != sels[j])
  }

  lemma GoodPrefix(sels: seq<Selector>)
    requires sels != [] && GoodList(sels)
    ensures var n := |sels| - 1;
            GoodList(sels[..n]) && ValidName(sels[n].name) && sels[n] !in sels[..n] && sels == sels[..n] + [sels[n]]
  {
  }

  lemma TokensPlus(sels: seq<Selector>, last: Selector)
    ensures Tokens(sels + [last]) == Tokens(sels) + [Token(last)]
  {
  }

  lemma {:induction false} TokensParse(sels: seq<Selector>)
    requires GoodList(sels)
    ensures Selectors(Tokens(sels)) == sels
  {
    if sels != [] {
      var before, last := sels[..|sels| - 1], sels[|sels| - 1];
      GoodPrefix(sels);
      TokensParse(before);
      TokenParses(last);
      SelectorsPlus(Tokens(before), Token(last), last);
      TokensPlus(before, last);
    }
  }

  /** The list that is saved reads back as the same selectors. */
  lemma SelectorsReadBack(env: Env, path: Option<string>, tokens: seq<string>)
    ensures Selectors(CaptureFrom(env, path, tokens).selectors) == Selectors(tokens)
  {
    SelectorsValid(tokens);
    TokensParse(Selectors(tokens));
  }
}

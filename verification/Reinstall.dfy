/** What the saved environment file holds after any sequence of reinstalls. */
module Reinstall {
  import opened Wrappers
  import opened ProxyKeys
  import opened RuntimeEnv

  // ----- merging a capture with what was saved

  /** A group the capture names replaces the saved group; a group it omits is kept whole. */
  function Inherit(values: Env, previous: Env, keys: seq<string>): Env {
    if Names(values, keys) then values else values + Restrict(previous, keys)
  }

  function InheritAll(values: Env, previous: Env, groups: seq<seq<string>>): Env {
    if groups == [] then values
    else Inherit(InheritAll(values, previous, groups[..|groups| - 1]), previous, groups[|groups| - 1])
  }

  const GROUPS := [ADDRESS_KEYS, EXCLUSION_KEYS, MODE_KEYS]

  function Merge(values: Env, previous: Env): Env {
    InheritAll(values, previous, GROUPS)
  }

  predicate ValidMode(values: Env) {
    MODE_KEY in values ==> values[MODE_KEY] == "auto" || values[MODE_KEY] == "inherit"
  }

  /** The inner loop of the source, on one group. */
  method InheritGroup(values: Env, previous: Env, keys: seq<string>) returns (out: Env)
    ensures out == Inherit(values, previous, keys)
  {
    out := values;
    if !(exists k | k in keys :: k in values) {
      for i := 0 to |keys|
        invariant out == values + Restrict(previous, keys[..i])
      {
        RestrictPlus(previous, keys[..i], keys[i]);
        assert keys[..i + 1] == keys[..i] + [keys[i]];
        if keys[i] in previous {
          out := out[keys[i] := previous[keys[i]]];
        }
      }
      assert keys[..|keys|] == keys;
    }
  }

  /** The loop over the groups. */
  method InheritGroups(values: Env, previous: Env) returns (out: Env)
    ensures out == Merge(values, previous)
  {
    out := values;
    for g := 0 to |GROUPS|
      invariant out == InheritAll(values, previous, GROUPS[..g])
    {
      out := InheritGroup(out, previous, GROUPS[g]);
      assert GROUPS[..g + 1][..g] == GROUPS[..g];
    }
    assert GROUPS[..|GROUPS|] == GROUPS;
  }

  /** `values` is updated group by group, then its mode is checked. */
  method PreserveProxyConfiguration(file: Option<string>, values: Env) returns (r: Result<Env, string>)
    ensures r == Preserved(file, values)
  {
    var previous: Env := map[];
    if file.Some? {
      var saved := ReadSavedProxyConfiguration(file.value);
      if saved.Err? { return saved; }
      previous := saved.value;
    }
    var out := InheritGroups(values, previous);
    if MODE_KEY in out && out[MODE_KEY] != "auto" && out[MODE_KEY] != "inherit" {
      return Err(MODE_KEY);
    }
    r := Ok(out);
  }

  function SavedIn(file: Option<string>): Result<Env, string> {
    if file.None? then Ok(map[]) else ReadSaved(file.value)
  }

  function Preserved(file: Option<string>, values: Env): Result<Env, string> {
    var previous := SavedIn(file);
    if previous.Err? then previous
    else
      var merged := Merge(values, previous.value);
      if ValidMode(merged) then Ok(merged) else Err(MODE_KEY)
  }

  /** The file after one reinstall: rewritten, or left alone when the reinstall fails. */
  function After(file: Option<string>, c: Capture): Option<string> {
    var merged := Preserved(file, c.values);
    if merged.Ok? then Some(Render(c.(values := merged.value))) else file
  }

  class EnvFile {
    var content: Option<string>

    constructor ()
      ensures content == None
    {
      content := None;
    }

    method CaptureAndWrite(c: Capture) returns (ok: bool)
      modifies this
      ensures content == After(old(content), c)
      ensures ok <==> Preserved(old(content), c.values).Ok?
    {
      var merged := PreserveProxyConfiguration(content, c.values);
      ok := merged.Ok?;
      if ok {
        content := Some(Render(c.(values := merged.value)));
      }
    }
  }

  // ----- groups

  lemma InheritOther(values: Env, previous: Env, keys: seq<string>, g: seq<string>)
    requires forall k :: k in keys ==> k !in g
    ensures Restrict(Inherit(values, previous, keys), g) == Restrict(values, g)
    ensures Names(Inherit(values, previous, keys), g) <==> Names(values, g)
  {
  }

  lemma InheritSame(values: Env, previous: Env, g: seq<string>)
    ensures Restrict(Inherit(values, previous, g), g) ==
            if Names(values, g) then Restrict(values, g) else Restrict(previous, g)
  {
  }

  lemma InheritThree(values: Env, previous: Env, a: seq<string>, b: seq<string>, c: seq<string>)
    ensures InheritAll(values, previous, [a, b, c]) ==
            Inherit(Inherit(Inherit(values, previous, a), previous, b), previous, c)
  {
    assert [a, b, c][..2] == [a, b] && [a, b][..1] == [a] && [a][..0] == [];
    assert InheritAll(values, previous, [a]) == Inherit(InheritAll(values, previous, []), previous, a);
    assert InheritAll(values, previous, [a, b]) == Inherit(InheritAll(values, previous, [a]), previous, b);
  }

  /** Of each group, the merge holds the capture's keys if it names any, else the saved ones. */
  function Newer(values: Env, previous: Env, g: seq<string>): Env {
    Restrict(if Names(values, g) then values else previous, g)
  }

  lemma MergeByGroup(values: Env, previous: Env)
    ensures var m := Merge(values, previous);
            && Restrict(m, ADDRESS_KEYS) == Newer(values, previous, ADDRESS_KEYS)
            && Restrict(m, EXCLUSION_KEYS) == Newer(values, previous, EXCLUSION_KEYS)
            && Restrict(m, MODE_KEYS) == Newer(values, previous, MODE_KEYS)
  {
    var m1 := Inherit(values, previous, ADDRESS_KEYS);
    var m2 := Inherit(m1, previous, EXCLUSION_KEYS);
    InheritThree(values, previous, ADDRESS_KEYS, EXCLUSION_KEYS, MODE_KEYS);
    ExclusionsApart();
    ModeApart();
    InheritSame(values, previous, ADDRESS_KEYS);
    InheritOther(values, previous, ADDRESS_KEYS, EXCLUSION_KEYS);
    InheritOther(values, previous, ADDRESS_KEYS, MODE_KEYS);
    InheritSame(m1, previous, EXCLUSION_KEYS);
    InheritOther(m1, previous, EXCLUSION_KEYS, ADDRESS_KEYS);
    InheritOther(m1, previous, EXCLUSION_KEYS, MODE_KEYS);
    InheritSame(m2, previous, MODE_KEYS);
    InheritOther(m2, previous, MODE_KEYS, ADDRESS_KEYS);
    InheritOther(m2, previous, MODE_KEYS, EXCLUSION_KEYS);
  }

  /** A captured value stays; any other comes from the saved group. */
  ghost predicate From(m: Env, values: Env, previous: Env) {
    forall k :: k in m ==>
      if k in values then m[k] == values[k] else k in previous && m[k] == previous[k] && IsProxyKey(k)
  }

  lemma InheritFrom(m: Env, values: Env, previous: Env, keys: seq<string>)
    requires From(m, values, previous) && values.Keys <= m.Keys && forall k :: k in keys ==> IsProxyKey(k)
    ensures From(Inherit(m, previous, keys), values, previous) && values.Keys <= Inherit(m, previous, keys).Keys
  {
    assert forall k :: k in keys && !Names(m, keys) ==> k !in m;
  }

  lemma MergeKeeps(values: Env, previous: Env)
    ensures values.Keys <= Merge(values, previous).Keys
  {
    InheritThree(values, previous, ADDRESS_KEYS, EXCLUSION_KEYS, MODE_KEYS);
  }

  lemma MergeFrom(values: Env, previous: Env)
    ensures From(Merge(values, previous), values, previous)
  {
    var m1 := Inherit(values, previous, ADDRESS_KEYS);
    InheritThree(values, previous, ADDRESS_KEYS, EXCLUSION_KEYS, MODE_KEYS);
    InheritFrom(values, values, previous, ADDRESS_KEYS);
    InheritFrom(m1, values, previous, EXCLUSION_KEYS);
    InheritFrom(Inherit(m1, previous, EXCLUSION_KEYS), values, previous, MODE_KEYS);
  }

  /** The three groups put together. */
  function Groups(a: Env, e: Env, m: Env): Env {
    a + e + m
  }

  lemma ProxyPartByGroup(m: Env)
    ensures ProxyPart(m) == Groups(Restrict(m, ADDRESS_KEYS), Restrict(m, EXCLUSION_KEYS), Restrict(m, MODE_KEYS))
  {
  }

  // ----- histories

  /** The file after reinstalling with each capture in turn, from no file. */
  function Installed(caps: seq<Capture>): Option<string> {
    if caps == [] then None else After(Installed(caps[..|caps| - 1]), caps[|caps| - 1])
  }

  /** The group as the last acceptable capture that named any of its keys gave it. */
  function LastNamed(caps: seq<Capture>, g: seq<string>): Env {
    if caps == [] then map[]
    else
      var c := caps[|caps| - 1];
      if ValidMode(c.values) && Names(c.values, g) then Restrict(c.values, g) else LastNamed(caps[..|caps| - 1], g)
  }

  function Saved(caps: seq<Capture>): Env {
    Groups(LastNamed(caps, ADDRESS_KEYS), LastNamed(caps, EXCLUSION_KEYS), LastNamed(caps, MODE_KEYS))
  }

  ghost predicate AllWellFormed(caps: seq<Capture>) {
    forall i :: 0 <= i < |caps| ==> WellFormed(caps[i])
  }

  lemma {:induction false} LastNamedBounds(caps: seq<Capture>, g: seq<string>)
    requires AllWellFormed(caps)
    ensures forall k :: k in LastNamed(caps, g) ==> k in g && '\n' !in LastNamed(caps, g)[k] && IsName(k)
    ensures ValidMode(LastNamed(caps, g))
  {
    if caps != [] {
      assert WellFormed(caps[|caps| - 1]);
      LastNamedBounds(caps[..|caps| - 1], g);
    }
  }

  ghost predicate Fits(m: Env, g: seq<string>) {
    && ValidMode(m)
    && forall k :: k in m ==> k in g && '\n' !in m[k] && IsName(k)
  }

  lemma ThreeApart(a: Env, e: Env, m: Env, ka: seq<string>, ke: seq<string>, km: seq<string>)
    requires (forall k :: k in a ==> k in ka) && (forall k :: k in e ==> k in ke) && (forall k :: k in m ==> k in km)
    requires forall k :: k in ke ==> k !in ka && k !in km
    requires forall k :: k in km ==> k !in ka
    ensures Restrict(Groups(a, e, m), ka) == a
    ensures Restrict(Groups(a, e, m), ke) == e
    ensures Restrict(Groups(a, e, m), km) == m
  {
  }

  lemma GroupsApart(a: Env, e: Env, m: Env)
    requires Fits(a, ADDRESS_KEYS) && Fits(e, EXCLUSION_KEYS) && Fits(m, MODE_KEYS)
    ensures Restrict(Groups(a, e, m), ADDRESS_KEYS) == a
    ensures Restrict(Groups(a, e, m), EXCLUSION_KEYS) == e
    ensures Restrict(Groups(a, e, m), MODE_KEYS) == m
    ensures ValidMode(Groups(a, e, m))
    ensures forall k :: k in Groups(a, e, m) ==> IsName(k) && '\n' !in Groups(a, e, m)[k]
  {
    ExclusionsApart();
    ModeApart();
    ThreeApart(a, e, m, ADDRESS_KEYS, EXCLUSION_KEYS, MODE_KEYS);
  }

  lemma SavedByGroup(caps: seq<Capture>)
    requires AllWellFormed(caps)
    ensures Restrict(Saved(caps), ADDRESS_KEYS) == LastNamed(caps, ADDRESS_KEYS)
    ensures Restrict(Saved(caps), EXCLUSION_KEYS) == LastNamed(caps, EXCLUSION_KEYS)
    ensures Restrict(Saved(caps), MODE_KEYS) == LastNamed(caps, MODE_KEYS)
    ensures ValidMode(Saved(caps))
    ensures forall k :: k in Saved(caps) ==> IsName(k) && '\n' !in Saved(caps)[k]
  {
    var a, e, m := LastNamed(caps, ADDRESS_KEYS), LastNamed(caps, EXCLUSION_KEYS), LastNamed(caps, MODE_KEYS);
    LastNamedBounds(caps, ADDRESS_KEYS);
    LastNamedBounds(caps, EXCLUSION_KEYS);
    LastNamedBounds(caps, MODE_KEYS);
    GroupsApart(a, e, m);
  }

  /** The mode a reinstall ends with: the captured one if there is one, else the saved one. */
  function ModeOf(values: Env, previous: Env): Env {
    if MODE_KEY in values then values else previous
  }

  lemma ModeOfMerge(values: Env, previous: Env)
    ensures ValidMode(Merge(values, previous)) <==> ValidMode(ModeOf(values, previous))
  {
    MergeByGroup(values, previous);
    var m, newer := Merge(values, previous), ModeOf(values, previous);
    assert Names(values, MODE_KEYS) <==> MODE_KEY in values;
    assert Restrict(m, MODE_KEYS) == Restrict(newer, MODE_KEYS);
    assert MODE_KEY in m <==> MODE_KEY in Restrict(m, MODE_KEYS);
    assert MODE_KEY in newer <==> MODE_KEY in Restrict(newer, MODE_KEYS);
    assert MODE_KEY in m ==> Restrict(m, MODE_KEYS)[MODE_KEY] == m[MODE_KEY];
    assert MODE_KEY in newer ==> Restrict(newer, MODE_KEYS)[MODE_KEY] == newer[MODE_KEY];
  }

  lemma MergeIsWellFormed(c: Capture, saved: Env)
    requires WellFormed(c) && Writable(saved)
    ensures WellFormed(c.(values := Merge(c.values, saved)))
  {
    MergeFrom(c.values, saved);
  }

  /**
   One reinstall over any file: it succeeds exactly when the file can be read and the mode, the
   captured one if there is one and else the saved one, is valid; then the file reads back as
   the newer of each group.
   */
  lemma ReinstallOver(file: Option<string>, c: Capture)
    requires WellFormed(c)
    ensures Preserved(file, c.values).Ok? <==> SavedIn(file).Ok? && ValidMode(ModeOf(c.values, SavedIn(file).value))
    ensures Preserved(file, c.values).Ok? ==>
              var saved := SavedIn(file).value;
              SavedIn(After(file, c)) ==
              Ok(Groups(Newer(c.values, saved, ADDRESS_KEYS), Newer(c.values, saved, EXCLUSION_KEYS),
                        Newer(c.values, saved, MODE_KEYS)))
    ensures Preserved(file, c.values).Err? ==> After(file, c) == file
  {
    if SavedIn(file).Ok? {
      var saved := SavedIn(file).value;
      if file.Some? {
        ReadIsWritable(file.value);
      }
      var merged := Merge(c.values, saved);
      ModeOfMerge(c.values, saved);
      MergeByGroup(c.values, saved);
      MergeIsWellFormed(c, saved);
      ProxyPartByGroup(merged);
      ReadBackRendered(c.(values := merged));
    }
  }

  /** One more reinstall, on a file that reads back as `Saved(caps)`. */
  lemma OneMore(caps: seq<Capture>, c: Capture, file: Option<string>)
    requires AllWellFormed(caps) && WellFormed(c) && SavedIn(file) == Ok(Saved(caps))
    ensures Preserved(file, c.values).Ok? <==> ValidMode(c.values)
    ensures ValidMode(c.values) ==> SavedIn(After(file, c)) == Ok(Saved(caps + [c]))
  {
    SavedByGroup(caps);
    ReinstallOver(file, c);
    if ValidMode(c.values) {
      NewerIsLast(caps, c, ADDRESS_KEYS);
      NewerIsLast(caps, c, EXCLUSION_KEYS);
      NewerIsLast(caps, c, MODE_KEYS);
    }
  }

  lemma NewerIsLast(caps: seq<Capture>, c: Capture, g: seq<string>)
    requires ValidMode(c.values) && Restrict(Saved(caps), g) == LastNamed(caps, g)
    ensures Newer(c.values, Saved(caps), g) == LastNamed(caps + [c], g)
  {
    assert (caps + [c])[..|caps + [c]| - 1] == caps;
  }

  /**
   After any reinstalls from no file, the file reads back, group by group, as the last
   acceptable capture that named the group; there is a file as soon as one was acceptable.
   */
  lemma {:induction false} ReinstallHistory(caps: seq<Capture>)
    requires AllWellFormed(caps)
    ensures SavedIn(Installed(caps)) == Ok(Saved(caps))
    ensures Installed(caps).Some? <==> exists i :: 0 <= i < |caps| && ValidMode(caps[i].values)
    ensures Restrict(Saved(caps), ADDRESS_KEYS) == LastNamed(caps, ADDRESS_KEYS)
    ensures Restrict(Saved(caps), EXCLUSION_KEYS) == LastNamed(caps, EXCLUSION_KEYS)
    ensures Restrict(Saved(caps), MODE_KEYS) == LastNamed(caps, MODE_KEYS)
  {
    SavedByGroup(caps);
    if caps != [] {
      var n := |caps| - 1;
      ReinstallHistory(caps[..n]);
      OneMore(caps[..n], caps[n], Installed(caps[..n]));
      assert caps == caps[..n] + [caps[n]];
    }
  }

  /** A reinstall fails exactly on an invalid mode, and then the file is left as it was. */
  lemma ReinstallFailsIff(caps: seq<Capture>, c: Capture)
    requires AllWellFormed(caps) && WellFormed(c)
    ensures Preserved(Installed(caps), c.values).Err? <==>
            MODE_KEY in c.values && c.values[MODE_KEY] != "auto" && c.values[MODE_KEY] != "inherit"
    ensures !ValidMode(c.values) ==> After(Installed(caps), c) == Installed(caps)
  {
    ReinstallHistory(caps);
    OneMore(caps, c, Installed(caps));
  }
}

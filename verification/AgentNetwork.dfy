/** Which proxy variables an agent process starts with. */
module AgentNetwork {
  import opened Wrappers
  import opened Text
  import opened KeyOrder
  import opened ProxyKeys
  import opened Exclusions

  type Address = string

  /**
   What `resolve` asks of the outside: the system proxy lookup, the local addresses a proxy
   value stands for, whether the addresses probed for the i-th address key answer, and the
   addresses of the local interfaces.
   */
  datatype World = World(
    system: Result<Env, string>,
    localAddresses: string -> Option<seq<Address>>,
    answers: nat -> bool,
    interfaces: seq<string>)

  // ----- protecting local callbacks

  const LOOPBACK := ["localhost", "127.0.0.1", "127.0.0.0/8", "::1", "[::1]"]

  function EntriesOf(values: Env, key: string): seq<string> {
    if key in values then Entries(values[key]) else []
  }

  function ExclusionList(values: Env, interfaces: seq<string>): seq<string> {
    AddNew(AddNew(AddNew(LOOPBACK, interfaces), EntriesOf(values, "NO_PROXY")), EntriesOf(values, "no_proxy"))
  }

  function Protect(values: Env, interfaces: seq<string>): Env {
    var joined := Join(ExclusionList(values, interfaces), ',');
    values["NO_PROXY" := joined]["no_proxy" := joined]
  }

  /** `protect_callbacks`, which updates the map it is given. */
  method ProtectCallbacks(values: Env, interfaces: seq<string>) returns (out: Env)
    ensures out == Protect(values, interfaces)
  {
    var exclusions := PushMissing(LOOPBACK, interfaces);
    if "NO_PROXY" in values {
      exclusions := PushMissing(exclusions, Entries(values["NO_PROXY"]));
    }
    if "no_proxy" in values {
      exclusions := PushMissing(exclusions, Entries(values["no_proxy"]));
    }
    out := values["NO_PROXY" := Join(exclusions, ',')];
    out := out["no_proxy" := Join(exclusions, ',')];
  }

  lemma LoopbackIsClean()
    ensures AllClean(LOOPBACK) && NoDuplicates(LOOPBACK)
  {
  }

  lemma ListFacts(values: Env, interfaces: seq<string>)
    requires AllClean(interfaces)
    ensures var l := ExclusionList(values, interfaces);
            && AllClean(l) && NoDuplicates(l)
            && AddNew(LOOPBACK, interfaces) <= l && NoDuplicates(AddNew(LOOPBACK, interfaces))
            && forall e :: e in l <==> || e in LOOPBACK || e in interfaces
                                       || e in EntriesOf(values, "NO_PROXY") || e in EntriesOf(values, "no_proxy")
  {
    LoopbackIsClean();
    var a, b := EntriesOf(values, "NO_PROXY"), EntriesOf(values, "no_proxy");
    if "NO_PROXY" in values { EntriesClean(values["NO_PROXY"]); }
    if "no_proxy" in values { EntriesClean(values["no_proxy"]); }
    var l0 := AddNew(LOOPBACK, interfaces);
    AddNewFacts(LOOPBACK, interfaces);
    AddNewFacts(l0, a);
    AddNewFacts(AddNew(l0, a), b);
  }

  /**
   After `protect_callbacks` both exclusion keys hold the same list, without duplicates, of
   exactly the loopback names, the interface addresses and the entries of both old lists.
   */
  lemma ProtectMerges(values: Env, interfaces: seq<string>)
    requires AllClean(interfaces)
    ensures var out := Protect(values, interfaces);
            && out["NO_PROXY"] == out["no_proxy"]
            && NoDuplicates(Entries(out["NO_PROXY"]))
            && (forall e :: e in Entries(out["NO_PROXY"]) <==>
                  || e in LOOPBACK || e in interfaces
                  || e in EntriesOf(values, "NO_PROXY") || e in EntriesOf(values, "no_proxy"))
            && (forall k :: k != "NO_PROXY" && k != "no_proxy" ==>
                  (k in out <==> k in values) && (k in values ==> out[k] == values[k]))
  {
    ListFacts(values, interfaces);
    EntriesOfJoin(ExclusionList(values, interfaces));
  }

  lemma ProtectedEntries(values: Env, interfaces: seq<string>)
    requires AllClean(interfaces)
    ensures var out, l := Protect(values, interfaces), ExclusionList(values, interfaces);
            EntriesOf(out, "NO_PROXY") == l && EntriesOf(out, "no_proxy") == l
  {
    ListFacts(values, interfaces);
    EntriesOfJoin(ExclusionList(values, interfaces));
  }

  lemma Remerged(base: seq<string>, l: seq<string>)
    requires base <= l && NoDuplicates(base) && NoDuplicates(l)
    ensures AddNew(AddNew(base, l), l) == l
  {
    AddNewPrefix(base, l);
    AddNewPrefix(l, l);
  }

  /** Applying `protect_callbacks` again changes nothing. */
  lemma ProtectIsIdempotent(values: Env, interfaces: seq<string>)
    requires AllClean(interfaces)
    ensures Protect(Protect(values, interfaces), interfaces) == Protect(values, interfaces)
  {
    var l := ExclusionList(values, interfaces);
    ListFacts(values, interfaces);
    ProtectedEntries(values, interfaces);
    Remerged(AddNew(LOOPBACK, interfaces), l);
    assert ExclusionList(Protect(values, interfaces), interfaces) == l;
  }

  // ----- choosing the addresses

  function Inherited(env: Env): Env {
    Restrict(env, ADDRESS_KEYS + EXCLUSION_KEYS)
  }

  predicate Explicit(env: Env) {
    Names(env, ADDRESS_KEYS)
  }

  function Mode(env: Env): string {
    if MODE_KEY in env then env[MODE_KEY] else "auto"
  }

  predicate Consults(env: Env) {
    !Explicit(env) && Mode(env) == "auto"
  }

  /** The system lookup is made and yields something. */
  predicate Automatic(env: Env, w: World) {
    Consults(env) && w.system.Ok? && w.system.value != map[]
  }

  function Extended(current: string, value: string): string {
    if current == "" then value else current + "," + value
  }

  /** Discovered addresses are inserted; discovered exclusions are appended to the inherited ones. */
  function Absorb(values: Env, found: Env): Env {
    map k | k in values.Keys + found.Keys ::
      if k !in found then values[k]
      else if k in EXCLUSION_KEYS then Extended(if k in values then values[k] else "", found[k])
      else found[k]
  }

  function Chosen(env: Env, w: World): Env {
    if Automatic(env, w) then Absorb(Inherited(env), w.system.value) else Inherited(env)
  }

  /** The addresses probed for the i-th key, if its value stands for local ones. */
  function Target(values: Env, w: World, i: nat): Option<seq<Address>>
    requires i < |ADDRESS_KEYS|
  {
    var k := ADDRESS_KEYS[i];
    if k in values && values[k] != "" then w.localAddresses(values[k]) else None
  }

  /** The i-th key is probed: its addresses are local and were not probed for an earlier key. */
  predicate Probed(values: Env, w: World, i: nat)
    requires i < |ADDRESS_KEYS|
  {
    Target(values, w, i).Some? && forall j :: 0 <= j < i ==> Target(values, w, j) != Target(values, w, i)
  }

  predicate Silent(values: Env, w: World) {
    exists i :: 0 <= i < |ADDRESS_KEYS| && Probed(values, w, i) && !w.answers(i)
  }

  function Settled(env: Env, w: World): Env {
    if Automatic(env, w) && Silent(Chosen(env, w), w) then Restrict(env, EXCLUSION_KEYS) else Chosen(env, w)
  }

  predicate AnyNonempty(values: Env) {
    exists k :: k in values && values[k] != ""
  }

  function Guarded(values: Env, interfaces: seq<string>): Env {
    if AnyNonempty(values) then Protect(values, interfaces) else values
  }

  function Resolve(env: Env, w: World): Env {
    Guarded(Settled(env, w), w.interfaces)
  }

  datatype Detail =
    | PlainRouting
    | SystemApplied
    | LookupFailed(reason: string)
    | UnknownMode
    | AutomaticSilent
    | ExplicitSilent

  function DetailOf(env: Env, w: World): Detail {
    if Silent(Chosen(env, w), w) then if Automatic(env, w) then AutomaticSilent else ExplicitSilent
    else if Automatic(env, w) then SystemApplied
    else if Consults(env) then if w.system.Err? then LookupFailed(w.system.error) else PlainRouting
    else if Mode(env) != "auto" && Mode(env) != "inherit" then UnknownMode
    else PlainRouting
  }

  method Inherit(env: Env) returns (values: Env)
    ensures values == Inherited(env)
  {
    var keys := ADDRESS_KEYS + EXCLUSION_KEYS;
    values := map[];
    for i := 0 to |keys|
      invariant values == Restrict(env, keys[..i])
    {
      assert keys[..i + 1] == keys[..i] + [keys[i]];
      RestrictPlus(env, keys[..i], keys[i]);
      if keys[i] in env {
        values := values[keys[i] := env[keys[i]]];
      }
    }
    assert keys[..|keys|] == keys;
  }

  lemma AbsorbPlus(values: Env, found: Env, keys: seq<string>, k: string)
    requires k in found && k !in keys
    ensures var before := Absorb(values, Restrict(found, keys));
            Absorb(values, Restrict(found, keys + [k])) ==
            before[k := if k in EXCLUSION_KEYS then Extended(if k in before then before[k] else "", found[k])
                         else found[k]]
  {
    assert forall x :: x in keys + [k] <==> x in keys || x == k;
  }

  /** The loop over the discovered variables, in key order. */
  method Take(values: Env, found: Env) returns (out: Env)
    ensures out == Absorb(values, found)
  {
    var keys := SortedKeys(found.Keys);
    out := values;
    for i := 0 to |keys|
      invariant out == Absorb(values, Restrict(found, keys[..i]))
    {
      var k := keys[i];
      AbsorbPlus(values, found, keys[..i], k);
      assert keys[..i + 1] == keys[..i] + [k];
      if k in EXCLUSION_KEYS {
        out := out[k := Extended(if k in out then out[k] else "", found[k])];
      } else {
        out := out[k := found[k]];
      }
    }
    assert keys[..|keys|] == keys;
    assert Restrict(found, keys) == found;
  }

  /** The probing loop: distinct local targets, in key order, until one does not answer. */
  method Probe(values: Env, w: World) returns (silent: bool)
    ensures silent == Silent(values, w)
  {
    var checked: set<seq<Address>> := {};
    for i := 0 to |ADDRESS_KEYS|
      invariant forall t :: t in checked <==> exists j :: 0 <= j < i && Target(values, w, j) == Some(t)
      invariant forall j :: 0 <= j < i && Probed(values, w, j) ==> w.answers(j)
    {
      var target := Target(values, w, i);
      if target.Some? && target.value !in checked {
        checked := checked + {target.value};
        if !w.answers(i) {
          assert Probed(values, w, i);
          return true;
        }
      }
    }
    silent := false;
  }

  /** The part of `resolve` before the probes. */
  method Choose(env: Env, w: World) returns (values: Env, automatic: bool, detail: Detail)
    ensures values == Chosen(env, w) && automatic == Automatic(env, w)
    ensures !Silent(values, w) ==> detail == DetailOf(env, w)
  {
    values := Inherit(env);
    var explicit := exists k | k in ADDRESS_KEYS :: k in env;
    var mode := if MODE_KEY in env then env[MODE_KEY] else "auto";
    detail := PlainRouting;
    automatic := false;
    if !explicit && mode == "auto" {
      if w.system.Err? {
        detail := LookupFailed(w.system.error);
      } else if w.system.value != map[] {
        values := Take(values, w.system.value);
        automatic := true;
        detail := SystemApplied;
      }
    } else if mode != "auto" && mode != "inherit" {
      detail := UnknownMode;
    }
  }

  /** The probes, and the retreat when an automatic local proxy does not answer. */
  method Verify(env: Env, w: World) returns (values: Env, detail: Detail)
    ensures values == Settled(env, w)
    ensures detail == DetailOf(env, w)
  {
    var automatic;
    values, automatic, detail := Choose(env, w);
    var silent := Probe(values, w);
    if silent && automatic {
      values := map k | k in env && k in EXCLUSION_KEYS :: env[k];
      detail := AutomaticSilent;
    } else if silent {
      detail := ExplicitSilent;
    }
  }

  method Guard(values: Env, interfaces: seq<string>) returns (out: Env)
    ensures out == Guarded(values, interfaces)
  {
    out := values;
    if exists k | k in values :: values[k] != "" {
      out := ProtectCallbacks(values, interfaces);
    }
  }

  method ResolveNetwork(env: Env, w: World) returns (values: Env, detail: Detail)
    ensures values == Resolve(env, w)
    ensures detail == DetailOf(env, w)
  {
    values, detail := Verify(env, w);
    values := Guard(values, w.interfaces);
  }

  // ----- what the result guarantees

  lemma ExclusionNames()
    ensures forall k :: k in EXCLUSION_KEYS <==> k == "NO_PROXY" || k == "no_proxy"
  {
  }

  lemma ProtectKeepsAddresses(values: Env, interfaces: seq<string>)
    ensures Restrict(Protect(values, interfaces), ADDRESS_KEYS) == Restrict(values, ADDRESS_KEYS)
  {
    ExclusionNames();
    ExclusionsApart();
    var joined := Join(ExclusionList(values, interfaces), ',');
    assert "NO_PROXY" !in ADDRESS_KEYS && "no_proxy" !in ADDRESS_KEYS;
    assert forall k :: k in ADDRESS_KEYS ==> k != "NO_PROXY" && k != "no_proxy";
  }

  lemma AbsorbAddresses(env: Env, found: Env)
    requires !Explicit(env)
    ensures Restrict(Absorb(Inherited(env), found), ADDRESS_KEYS) == Restrict(found, ADDRESS_KEYS)
  {
    ExclusionsApart();
  }

  // ----- the probes, from the outside world alone

  /** The i-th key has a nonempty value whose local addresses belong to no earlier such key. */
  predicate FirstLocal(values: Env, w: World, i: nat)
    requires i < |ADDRESS_KEYS|
  {
    && ADDRESS_KEYS[i] in values && values[ADDRESS_KEYS[i]] != ""
    && w.localAddresses(values[ADDRESS_KEYS[i]]).Some?
    && forall j :: 0 <= j < i && ADDRESS_KEYS[j] in values && values[ADDRESS_KEYS[j]] != "" ==>
         w.localAddresses(values[ADDRESS_KEYS[j]]) != w.localAddresses(values[ADDRESS_KEYS[i]])
  }

  /** Every local proxy among `values` answers its probe. */
  predicate AllAnswer(values: Env, w: World) {
    forall i :: 0 <= i < |ADDRESS_KEYS| && FirstLocal(values, w, i) ==> w.answers(i)
  }

  predicate NoAddress(env: Env) {
    forall k :: k in ADDRESS_KEYS ==> k !in env
  }

  /** Nothing is inherited, the mode is `auto`, and the lookup finds something. */
  predicate Found(env: Env, w: World) {
    NoAddress(env) && (MODE_KEY in env ==> env[MODE_KEY] == "auto") && w.system.Ok? && w.system.value != map[]
  }

  /** The discovered variables are found and every local proxy among them answers. */
  predicate Kept(env: Env, w: World) {
    Found(env, w) && AllAnswer(w.system.value, w)
  }

  lemma ProbedIff(values: Env, w: World, i: nat)
    requires i < |ADDRESS_KEYS|
    ensures Probed(values, w, i) <==> FirstLocal(values, w, i)
  {
    if Target(values, w, i).Some? {
      forall j | 0 <= j < i
        ensures Target(values, w, j) == Target(values, w, i) <==>
                && ADDRESS_KEYS[j] in values && values[ADDRESS_KEYS[j]] != ""
                && w.localAddresses(values[ADDRESS_KEYS[j]]) == w.localAddresses(values[ADDRESS_KEYS[i]])
      {
      }
    }
  }

  lemma SilentIff(values: Env, w: World)
    ensures Silent(values, w) <==> !AllAnswer(values, w)
  {
    forall i | 0 <= i < |ADDRESS_KEYS| ensures Probed(values, w, i) <==> FirstLocal(values, w, i) {
      ProbedIff(values, w, i);
    }
  }

  /** The probes look at the address keys only. */
  lemma SameAnswers(values: Env, values': Env, w: World)
    requires Restrict(values, ADDRESS_KEYS) == Restrict(values', ADDRESS_KEYS)
    ensures AllAnswer(values, w) <==> AllAnswer(values', w)
  {
    forall k | k in ADDRESS_KEYS
      ensures k in values <==> k in values'
      ensures k in values ==> values[k] == values'[k]
    {
      assert k in Restrict(values, ADDRESS_KEYS) <==> k in values;
      assert k in Restrict(values', ADDRESS_KEYS) <==> k in values';
      if k in values {
        assert Restrict(values, ADDRESS_KEYS)[k] == values[k] && Restrict(values', ADDRESS_KEYS)[k] == values'[k];
      }
    }
    forall i | 0 <= i < |ADDRESS_KEYS| ensures FirstLocal(values, w, i) <==> FirstLocal(values', w, i) {
      assert forall j :: 0 <= j <= i ==> ADDRESS_KEYS[j] in ADDRESS_KEYS;
    }
  }

  lemma FoundIff(env: Env, w: World)
    ensures Automatic(env, w) <==> Found(env, w)
    ensures Explicit(env) <==> !NoAddress(env)
  {
  }

  lemma ChosenAddresses(env: Env, w: World)
    ensures Restrict(Chosen(env, w), ADDRESS_KEYS) ==
            Restrict(if Found(env, w) then w.system.value else env, ADDRESS_KEYS)
  {
    FoundIff(env, w);
    if Found(env, w) {
      AbsorbAddresses(env, w.system.value);
    }
  }

  lemma ChosenAnswers(env: Env, w: World)
    ensures Silent(Chosen(env, w), w) <==> !AllAnswer(if Found(env, w) then w.system.value else env, w)
    ensures Kept(env, w) <==> Automatic(env, w) && !Silent(Chosen(env, w), w)
  {
    FoundIff(env, w);
    ChosenAddresses(env, w);
    SilentIff(Chosen(env, w), w);
    SameAnswers(Chosen(env, w), if Found(env, w) then w.system.value else env, w);
  }

  lemma SettledAddresses(env: Env, w: World)
    ensures Restrict(Settled(env, w), ADDRESS_KEYS) ==
            if !NoAddress(env) then Restrict(env, ADDRESS_KEYS)
            else if Kept(env, w) then Restrict(w.system.value, ADDRESS_KEYS)
            else map[]
  {
    FoundIff(env, w);
    ChosenAnswers(env, w);
    ChosenAddresses(env, w);
    ExclusionsApart();
  }

  /**
   The addresses an agent gets are the whole inherited group when any address is inherited,
   else the whole discovered group when the mode is `auto`, the lookup finds something and every
   local proxy it finds answers, and else none.
   */
  lemma AddressesAllOrNothing(env: Env, w: World)
    ensures Restrict(Resolve(env, w), ADDRESS_KEYS) ==
            if !NoAddress(env) then Restrict(env, ADDRESS_KEYS)
            else if Kept(env, w) then Restrict(w.system.value, ADDRESS_KEYS)
            else map[]
  {
    SettledAddresses(env, w);
    ProtectKeepsAddresses(Settled(env, w), w.interfaces);
  }

  lemma NoAddressAnswers(env: Env, w: World)
    requires NoAddress(env)
    ensures AllAnswer(env, w)
  {
    assert forall i :: 0 <= i < |ADDRESS_KEYS| ==> ADDRESS_KEYS[i] in ADDRESS_KEYS;
  }

  /** What the explanation says, from the environment and the outside world alone. */
  lemma DetailIff(env: Env, w: World)
    ensures DetailOf(env, w) == SystemApplied <==> Kept(env, w)
    ensures DetailOf(env, w) == AutomaticSilent <==> Found(env, w) && !AllAnswer(w.system.value, w)
    ensures DetailOf(env, w) == ExplicitSilent <==> !NoAddress(env) && !AllAnswer(env, w)
    ensures DetailOf(env, w).LookupFailed? <==>
            NoAddress(env) && (MODE_KEY in env ==> env[MODE_KEY] == "auto") && w.system.Err?
    ensures DetailOf(env, w).LookupFailed? ==> w.system == Err(DetailOf(env, w).reason)
    ensures DetailOf(env, w) == UnknownMode <==>
            MODE_KEY in env && env[MODE_KEY] != "auto" && env[MODE_KEY] != "inherit" && AllAnswer(env, w)
  {
    FoundIff(env, w);
    ChosenAnswers(env, w);
    if NoAddress(env) {
      NoAddressAnswers(env, w);
    }
  }

  /** With an explicit address, or in any mode but `auto`, the system lookup has no influence. */
  lemma LookupUnused(env: Env, w: World, other: Result<Env, string>)
    requires Explicit(env) || Mode(env) != "auto"
    ensures Resolve(env, w.(system := other)) == Resolve(env, w)
    ensures DetailOf(env, w.(system := other)) == DetailOf(env, w)
  {
    SameProbes(Inherited(env), w, w.(system := other));
  }

  lemma SameProbes(values: Env, w: World, w': World)
    requires w'.localAddresses == w.localAddresses && w'.answers == w.answers
    ensures Silent(values, w') <==> Silent(values, w)
  {
    assert forall i :: 0 <= i < |ADDRESS_KEYS| ==> Target(values, w', i) == Target(values, w, i);
    assert forall i :: 0 <= i < |ADDRESS_KEYS| ==> (Probed(values, w', i) <==> Probed(values, w, i));
  }

  lemma ExtendedEntries(current: string, value: string)
    ensures Entries(Extended(current, value)) == Entries(current) + Entries(value)
  {
    if current == "" {
      assert Split("", ',') == [""];
    } else {
      EntriesConcat(current, value);
    }
  }

  /** The entries one exclusion key holds before the callbacks are protected. */
  lemma SettledEntries(env: Env, w: World, k: string)
    requires k in EXCLUSION_KEYS
    ensures EntriesOf(Settled(env, w), k) ==
            EntriesOf(env, k) +
            (if Kept(env, w) then EntriesOf(w.system.value, k) else [])
  {
    ChosenAnswers(env, w);
    if Kept(env, w) && k in w.system.value {
      assert Split("", ',') == [""];
      ExtendedEntries(if k in env then env[k] else "", w.system.value[k]);
    }
  }

  /**
   Whenever a resolved value is nonempty, both exclusion keys end equal and duplicate-free,
   holding exactly the loopback names, the interface addresses, every entry of both inherited
   lists and, when automatic addresses are kept, every discovered exclusion.
   */
  lemma ExclusionsAreAdditive(env: Env, w: World)
    requires AllClean(w.interfaces) && exists k :: k in Settled(env, w) && Settled(env, w)[k] != ""
    ensures var out := Resolve(env, w);
            && "NO_PROXY" in out && "no_proxy" in out && out["NO_PROXY"] == out["no_proxy"]
            && NoDuplicates(Entries(out["NO_PROXY"]))
            && forall e :: e in Entries(out["NO_PROXY"]) <==>
                 || e in LOOPBACK || e in w.interfaces
                 || e in EntriesOf(env, "NO_PROXY") || e in EntriesOf(env, "no_proxy")
                 || (Kept(env, w)
                     && (e in EntriesOf(w.system.value, "NO_PROXY") || e in EntriesOf(w.system.value, "no_proxy")))
  {
    ExclusionNames();
    SettledEntries(env, w, "NO_PROXY");
    SettledEntries(env, w, "no_proxy");
    ProtectMerges(Settled(env, w), w.interfaces);
  }

  /** Where every settled value is empty, nothing is protected and nothing is added. */
  lemma NothingToProtect(env: Env, w: World)
    requires forall k :: k in Settled(env, w) ==> Settled(env, w)[k] == ""
    ensures Resolve(env, w) == Settled(env, w)
  {
  }
}

/** Reading the nested dictionary text of the system proxy settings. */
module SystemProxy {
  import opened Wrappers
  import opened Text

  type Fields = map<string, string>

  // ----- one line

  function FindSeparator(s: string): (i: nat)
    ensures i <= |s| && (i < |s| ==> i + 3 <= |s| && s[i..i + 3] == " : ")
  {
    if |s| < 3 then |s|
    else if s[..3] == " : " then 0
    else
      var i := FindSeparator(s[1..]);
      assert i < |s[1..]| ==> s[1..][i..i + 3] == s[i + 1..i + 4];
      1 + i
  }

  /** Around the first ` : `. */
  function Entry(line: string): Option<(string, string)> {
    var i := FindSeparator(line);
    if i == |line| then None else Some((line[..i], line[i + 3..]))
  }

  predicate Opens(line: string) {
    line != "" && line[|line| - 1] == '{'
  }

  predicate Closes(line: string) {
    line == "}"
  }

  const LIST_KEY := "ExceptionsList"

  datatype Scan = Scan(depth: nat, inExceptions: bool, fields: Fields, exceptions: seq<string>)

  const START := Scan(0, false, map[], [])

  /** What a line says, at the depth where it stands. */
  function Note(st: Scan, line: string): Scan {
    var e := Entry(line);
    if e.None? then st
    else if st.depth == 1 then
      if e.value.0 == LIST_KEY then st.(inExceptions := true)
      else st.(fields := st.fields[e.value.0 := e.value.1])
    else if st.depth == 2 && st.inExceptions then st.(exceptions := st.exceptions + [e.value.1])
    else st
  }

  /** How a line moves the depth. */
  function Nest(st: Scan, line: string): Scan {
    var deeper := if Opens(line) then st.(depth := st.depth + 1) else st;
    if !Closes(line) then deeper
    else
      var depth := if deeper.depth == 0 then 0 else deeper.depth - 1;
      deeper.(depth := depth, inExceptions := deeper.inExceptions && depth != 1)
  }

  function Step(st: Scan, line: string): Scan {
    Nest(Note(st, line), line)
  }

  function ScanFrom(st: Scan, ls: seq<string>): Scan
    decreases ls
  {
    if ls == [] then st else ScanFrom(Step(st, ls[0]), ls[1..])
  }

  function TrimmedLines(raw: string): seq<string> {
    var ls := Lines(raw);
    seq(|ls|, i requires 0 <= i < |ls| => Trim(ls[i]))
  }

  /** The line loop of the source. */
  method ScanText(raw: string) returns (st: Scan)
    ensures st == ScanFrom(START, TrimmedLines(raw))
  {
    var ls := TrimmedLines(raw);
    var depth: nat := 0;
    var fields, exceptions, inExceptions := map[], [], false;
    for i := 0 to |ls|
      invariant ScanFrom(START, ls) == ScanFrom(Scan(depth, inExceptions, fields, exceptions), ls[i..])
    {
      var line := ls[i];
      ghost var before := Scan(depth, inExceptions, fields, exceptions);
      assert ls[i..][1..] == ls[i + 1..];
      var e := Entry(line);
      if depth == 1 {
        if e.Some? {
          if e.value.0 == LIST_KEY {
            inExceptions := true;
          } else {
            fields := fields[e.value.0 := e.value.1];
          }
        }
      } else if depth == 2 && inExceptions {
        if e.Some? {
          exceptions := exceptions + [e.value.1];
        }
      }
      if Opens(line) {
        depth := depth + 1;
      }
      if line == "}" {
        depth := if depth == 0 then 0 else depth - 1;
        if depth == 1 {
          inExceptions := false;
        }
      }
      assert Scan(depth, inExceptions, fields, exceptions) == Step(before, line);
    }
    assert ls[|ls|..] == [];
    st := Scan(depth, inExceptions, fields, exceptions);
  }

  // ----- well-nested text

  datatype Item = Scalar(line: string) | Block(header: string, items: seq<Item>)

  ghost predicate WellNested(items: seq<Item>) {
    forall i :: 0 <= i < |items| ==>
      match items[i]
      case Scalar(line) => !Opens(line) && !Closes(line)
      case Block(header, inner) => Opens(header) && WellNested(inner)
  }

  function Flatten(items: seq<Item>): seq<string> {
    if items == [] then []
    else
      (match items[0]
       case Scalar(line) => [line]
       case Block(header, inner) => [header] + Flatten(inner) + ["}"])
      + Flatten(items[1..])
  }

  lemma {:induction false} ScanConcat(st: Scan, a: seq<string>, b: seq<string>)
    ensures ScanFrom(st, a + b) == ScanFrom(ScanFrom(st, a), b)
    decreases a
  {
    if a == [] {
      assert a + b == b;
    } else {
      assert (a + b)[1..] == a[1..] + b;
      ScanConcat(Step(st, a[0]), a[1..], b);
    }
  }

  lemma ScanOne(st: Scan, line: string)
    ensures ScanFrom(st, [line]) == Step(st, line)
  {
    assert [line][1..] == [];
    assert ScanFrom(Step(st, line), []) == Step(st, line);
  }

  /** A block: its header, its contents one level deeper, its closing line. */
  lemma ScanBlock(st: Scan, header: string, inner: seq<string>)
    ensures ScanFrom(st, [header] + inner + ["}"]) == Step(ScanFrom(Step(st, header), inner), "}")
  {
    ScanConcat(st, [header] + inner, ["}"]);
    ScanConcat(st, [header], inner);
    ScanOne(st, header);
    ScanOne(ScanFrom(Step(st, header), inner), "}");
  }

  lemma ClosingLine(st: Scan)
    ensures Step(st, "}") == Nest(st, "}")
  {
    assert Entry("}") == None;
  }

  /** Lines are looked at only at depth 1, and at depth 2 inside the exceptions. */
  predicate Visible(st: Scan) {
    st.depth == 1 || (st.depth == 2 && st.inExceptions)
  }

  lemma {:induction false} HiddenText(st: Scan, items: seq<Item>)
    requires WellNested(items) && st.depth >= 2 && !Visible(st)
    ensures ScanFrom(st, Flatten(items)) == st
    decreases items
  {
    if items != [] {
      match items[0] {
        case Scalar(line) =>
          ScanConcat(st, [line], Flatten(items[1..]));
          ScanOne(st, line);
        case Block(header, inner) =>
          ScanConcat(st, [header] + Flatten(inner) + ["}"], Flatten(items[1..]));
          HiddenText(st.(depth := st.depth + 1), inner);
          BlockReturns(st, header, Flatten(inner));
      }
      HiddenText(st, items[1..]);
    }
  }

  /** A block whose contents are not looked at only says what its header says. */
  lemma BlockReturns(st: Scan, header: string, inner: seq<string>)
    requires Opens(header) && st.depth >= 2
    requires var below := Note(st, header).(depth := st.depth + 1); ScanFrom(below, inner) == below
    ensures ScanFrom(st, [header] + inner + ["}"]) == Note(st, header)
  {
    var below := Note(st, header).(depth := st.depth + 1);
    assert !Closes(header);
    assert Step(st, header) == below;
    ScanBlock(st, header, inner);
    ClosingLine(below);
  }

  // ----- the settings a text stands for

  function LineOf(item: Item): string {
    match item
    case Scalar(line) => line
    case Block(header, _) => header
  }

  /** The values directly in an exceptions list. */
  function Elements(items: seq<Item>): seq<string> {
    if items == [] then []
    else
      var e := Entry(LineOf(items[0]));
      (if e.Some? then [e.value.1] else []) + Elements(items[1..])
  }

  datatype Settings = Settings(pending: bool, fields: Fields, exceptions: seq<string>)

  /** An entry directly in the dictionary; an `ExceptionsList` entry makes the next scope the list. */
  function Direct(s: Settings, line: string): Settings {
    var e := Entry(line);
    if e.None? then s
    else if e.value.0 == LIST_KEY then s.(pending := true)
    else s.(fields := s.fields[e.value.0 := e.value.1])
  }

  /** Reading the direct entries of a dictionary and the direct elements of its exceptions list. */
  function Dictionary(s: Settings, items: seq<Item>): Settings
    decreases items
  {
    if items == [] then s
    else
      var s1 := Direct(s, LineOf(items[0]));
      var s2 :=
        if items[0].Scalar? then s1
        else s1.(pending := false, exceptions := s1.exceptions + if s1.pending then Elements(items[0].items) else []);
      Dictionary(s2, items[1..])
  }

  /** Reading every dictionary of a text; what stands outside them says nothing. */
  function Whole(s: Settings, items: seq<Item>): Settings
    decreases items
  {
    if items == [] then s
    else Whole(if items[0].Scalar? then s else Dictionary(s, items[0].items), items[1..])
  }

  function At(depth: nat, s: Settings): Scan {
    Scan(depth, s.pending, s.fields, s.exceptions)
  }

  lemma ElementsSplit(before: seq<string>, items: seq<Item>)
    requires items != []
    ensures var e := Entry(LineOf(items[0]));
            before + Elements(items) == (if e.Some? then before + [e.value.1] else before) + Elements(items[1..])
  {
  }

  lemma {:induction false} ListText(st: Scan, items: seq<Item>)
    requires WellNested(items) && st.depth == 2 && st.inExceptions
    ensures ScanFrom(st, Flatten(items)) == st.(exceptions := st.exceptions + Elements(items))
    decreases items
  {
    if items == [] {
      assert st.exceptions + [] == st.exceptions;
    } else {
      var line := LineOf(items[0]);
      var noted := Note(st, line);
      match items[0] {
        case Scalar(_) =>
          ScanConcat(st, [line], Flatten(items[1..]));
          ScanOne(st, line);
        case Block(_, inner) =>
          ScanConcat(st, [line] + Flatten(inner) + ["}"], Flatten(items[1..]));
          HiddenText(noted.(depth := 3), inner);
          BlockReturns(st, line, Flatten(inner));
      }
      ListText(noted, items[1..]);
      ElementsSplit(st.exceptions, items);
    }
  }

  lemma {:induction false} DictionaryText(s: Settings, items: seq<Item>)
    requires WellNested(items)
    ensures ScanFrom(At(1, s), Flatten(items)) == At(1, Dictionary(s, items))
    decreases items
  {
    if items != [] {
      var line := LineOf(items[0]);
      var s1 := Direct(s, line);
      match items[0] {
        case Scalar(_) =>
          ScanConcat(At(1, s), [line], Flatten(items[1..]));
          ScanOne(At(1, s), line);
          DictionaryText(s1, items[1..]);
        case Block(_, inner) =>
          ScanConcat(At(1, s), [line] + Flatten(inner) + ["}"], Flatten(items[1..]));
          ScanBlock(At(1, s), line, Flatten(inner));
          assert Step(At(1, s), line) == At(2, s1);
          var listed := if s1.pending then Elements(inner) else [];
          if s1.pending {
            ListText(At(2, s1), inner);
          } else {
            HiddenText(At(2, s1), inner);
            assert s1.exceptions + [] == s1.exceptions;
          }
          var s2 := s1.(pending := false, exceptions := s1.exceptions + listed);
          ClosingLine(At(2, s1.(exceptions := s1.exceptions + listed)));
          DictionaryText(s2, items[1..]);
      }
    }
  }

  /** Scanning well-nested text reads exactly its settings. */
  lemma {:induction false} TextReads(s: Settings, items: seq<Item>)
    requires WellNested(items)
    ensures ScanFrom(At(0, s), Flatten(items)) == At(0, Whole(s, items))
    decreases items
  {
    if items != [] {
      var line := LineOf(items[0]);
      match items[0] {
        case Scalar(_) =>
          ScanConcat(At(0, s), [line], Flatten(items[1..]));
          ScanOne(At(0, s), line);
          TextReads(s, items[1..]);
        case Block(_, inner) =>
          ScanConcat(At(0, s), [line] + Flatten(inner) + ["}"], Flatten(items[1..]));
          ScanBlock(At(0, s), line, Flatten(inner));
          assert Step(At(0, s), line) == At(1, s);
          DictionaryText(s, inner);
          ClosingLine(At(1, Dictionary(s, inner)));
          TextReads(Dictionary(s, inner), items[1..]);
      }
    }
  }

  // ----- from settings to proxy variables

  const PAC := "PAC/WPAD proxy discovery is not supported"
  const SIMPLE_HOSTS := "system proxy excludes simple hostnames"
  const BAD_EXCLUSION := "system proxy exclusion cannot be represented"
  const NO_HOST := "enabled system proxy is missing its host"
  const BAD_HOST := "enabled system proxy has an invalid host"
  const BAD_PORT := "enabled system proxy has an invalid port"
  const BAD_ADDRESS := "enabled system proxy has an invalid address"

  /** The address parsers of the platform: IPv6 literals, and proxy URLs with the port they must carry. */
  datatype Net = Net(isIpv6: string -> bool, accepts: (string, nat) -> bool)

  datatype Kind = Kind(name: string, scheme: string, upper: string, lower: string)

  const KINDS := [
    Kind("HTTP", "http", "HTTP_PROXY", "http_proxy"),
    Kind("HTTPS", "http", "HTTPS_PROXY", "https_proxy"),
    Kind("SOCKS", "socks5h", "ALL_PROXY", "all_proxy")
  ]

  predicate On(fields: Fields, key: string) {
    key in fields && fields[key] == "1"
  }

  predicate Enabled(fields: Fields, kind: Kind) {
    On(fields, kind.name + "Enable")
  }

  function StripStart(s: string, c: char): string {
    if s != "" && s[0] == c then StripStart(s[1..], c) else s
  }

  function StripEnd(s: string, c: char): string {
    if s != "" && s[|s| - 1] == c then StripEnd(s[..|s| - 1], c) else s
  }

  predicate IsHost(host: string) {
    host != "" && forall i :: 0 <= i < |host| ==> !IsWhitespace(host[i]) && host[i] !in "/@?#"
  }

  function AddressOf(fields: Fields, kind: Kind, net: Net): Result<string, string> {
    if kind.name + "Proxy" !in fields then Err(NO_HOST)
    else
      var host := StripEnd(StripStart(fields[kind.name + "Proxy"], '['), ']');
      var port := if kind.name + "Port" in fields then ParseUnsigned(fields[kind.name + "Port"], 65535) else None;
      if !IsHost(host) then Err(BAD_HOST)
      else if port.None? || port.value == 0 then Err(BAD_PORT)
      else
        var written := if net.isIpv6(host) then "[" + host + "]" else host;
        var value := kind.scheme + "://" + written + ":" + Decimal(port.value);
        if net.accepts(value, port.value) then Ok(value) else Err(BAD_ADDRESS)
  }

  lemma StripsNothing(host: string)
    requires IsHost(host) && host[0] != '[' && host[|host| - 1] != ']'
    ensures StripEnd(StripStart(host, '['), ']') == host
  {
  }

  lemma StripsBrackets(host: string)
    requires IsHost(host) && host[0] != '[' && host[|host| - 1] != ']'
    ensures StripEnd(StripStart("[" + host + "]", '['), ']') == host
  {
    var raw := "[" + host + "]";
    assert raw[1..] == host + "]";
    assert StripStart(raw, '[') == host + "]";
    assert (host + "]")[..|host|] == host;
  }

  lemma PortReads(port: nat)
    requires 1 <= port <= 65535
    ensures ParseUnsigned(Decimal(port), 65535) == Some(port)
  {
    DecimalReads(port);
  }

  /** A host, plain or in brackets, and a valid port give the address of that kind; IPv6 is written in brackets. */
  lemma AddressReads(fields: Fields, kind: Kind, net: Net, host: string, port: nat)
    requires IsHost(host) && host[0] != '[' && host[|host| - 1] != ']' && 1 <= port <= 65535
    requires kind.name + "Proxy" in fields && fields[kind.name + "Proxy"] in {host, "[" + host + "]"}
    requires kind.name + "Port" in fields && fields[kind.name + "Port"] == Decimal(port)
    ensures var written := if net.isIpv6(host) then "[" + host + "]" else host;
            var address := kind.scheme + "://" + written + ":" + Decimal(port);
            AddressOf(fields, kind, net) == if net.accepts(address, port) then Ok(address) else Err(BAD_ADDRESS)
  {
    StripsNothing(host);
    StripsBrackets(host);
    PortReads(port);
  }

  /** The exclusions a lookup carries over: a leading `*.` becomes a dot, anything else stays. */
  lemma ConvertedIff(e: string)
    ensures Converted("*." + e) == "." + e
    ensures !("*." <= e) ==> Converted(e) == e
  {
  }

  /** The addresses of the enabled kinds, under both spellings; one bad kind spoils them all. */
  function Collect(kinds: seq<Kind>, fields: Fields, net: Net): Result<map<string, string>, string> {
    if kinds == [] then Ok(map[])
    else
      var before := Collect(kinds[..|kinds| - 1], fields, net);
      var kind := kinds[|kinds| - 1];
      if before.Err? || !Enabled(fields, kind) then before
      else
        match AddressOf(fields, kind, net)
        case Err(e) => Err(e)
        case Ok(value) => Ok(before.value[kind.upper := value][kind.lower := value])
  }

  function Converted(e: string): string {
    if "*." <= e then e[1..] else e
  }

  predicate Representable(e: string) {
    e == "*" || ('*' !in e && '?' !in e)
  }

  function ConvertAll(es: seq<string>): seq<string> {
    seq(|es|, i requires 0 <= i < |es| => Converted(es[i]))
  }

  function Build(fields: Fields, exceptions: seq<string>, net: Net): Result<map<string, string>, string> {
    if On(fields, "ProxyAutoConfigEnable") || On(fields, "ProxyAutoDiscoveryEnable") then Err(PAC)
    else if forall i :: 0 <= i < |KINDS| ==> !Enabled(fields, KINDS[i]) then Ok(map[])
    else if On(fields, "ExcludeSimpleHostnames") then Err(SIMPLE_HOSTS)
    else
      var listed := ConvertAll(exceptions);
      var addresses := Collect(KINDS, fields, net);
      if exists i :: 0 <= i < |listed| && !Representable(listed[i]) then Err(BAD_EXCLUSION)
      else if addresses.Err? then addresses
      else if addresses.value != map[] && listed != [] then Ok(addresses.value["NO_PROXY" := Join(listed, ',')])
      else addresses
  }

  function Parse(raw: string, net: Net): Result<map<string, string>, string> {
    var st := ScanFrom(START, TrimmedLines(raw));
    Build(st.fields, st.exceptions, net)
  }

  predicate Owns(kind: Kind, k: string) {
    k == kind.upper || k == kind.lower
  }

  /** No two kinds share a variable name. */
  ghost predicate Separate(kinds: seq<Kind>) {
    forall i, j, k :: 0 <= i < j < |kinds| && Owns(kinds[i], k) ==> !Owns(kinds[j], k)
  }

  ghost predicate Carries(m: map<string, string>, fields: Fields, kind: Kind, net: Net) {
    && kind.upper in m && kind.lower in m && m[kind.lower] == m[kind.upper]
    && AddressOf(fields, kind, net) == Ok(m[kind.upper])
  }

  ghost predicate Justified(kinds: seq<Kind>, fields: Fields, k: string) {
    exists i :: 0 <= i < |kinds| && Enabled(fields, kinds[i]) && Owns(kinds[i], k)
  }

  lemma CarriesOn(m: map<string, string>, fields: Fields, kind: Kind, net: Net, other: Kind, value: string)
    requires Carries(m, fields, kind, net) && forall k :: Owns(kind, k) ==> !Owns(other, k)
    ensures Carries(m[other.upper := value][other.lower := value], fields, kind, net)
  {
    assert Owns(kind, kind.upper) && Owns(kind, kind.lower);
  }

  lemma {:induction false} CollectCarries(kinds: seq<Kind>, fields: Fields, net: Net, i: nat)
    requires Separate(kinds) && Collect(kinds, fields, net).Ok? && i < |kinds| && Enabled(fields, kinds[i])
    ensures Carries(Collect(kinds, fields, net).value, fields, kinds[i], net)
  {
    var n := |kinds| - 1;
    var before := Collect(kinds[..n], fields, net);
    if i < n {
      CollectCarries(kinds[..n], fields, net, i);
      if Enabled(fields, kinds[n]) {
        CarriesOn(before.value, fields, kinds[i], net, kinds[n], AddressOf(fields, kinds[n], net).value);
      }
    }
  }

  lemma {:induction false} CollectJustified(kinds: seq<Kind>, fields: Fields, net: Net, k: string)
    requires Collect(kinds, fields, net).Ok? && k in Collect(kinds, fields, net).value
    ensures Justified(kinds, fields, k)
  {
    var n := |kinds| - 1;
    var before := Collect(kinds[..n], fields, net);
    if k in before.value {
      CollectJustified(kinds[..n], fields, net, k);
      var i :| 0 <= i < n && Enabled(fields, kinds[..n][i]) && Owns(kinds[..n][i], k);
      assert kinds[i] == kinds[..n][i];
    } else {
      assert Enabled(fields, kinds[n]) && Owns(kinds[n], k);
    }
  }

  lemma KindsAreSeparate()
    ensures Separate(KINDS)
    ensures forall i :: 0 <= i < |KINDS| ==> !Owns(KINDS[i], "NO_PROXY")
  {
  }

  /** The addresses alone: each enabled kind under both spellings, no disabled kind. */
  lemma AddressesComplete(fields: Fields, net: Net, i: nat)
    requires Collect(KINDS, fields, net).Ok? && i < |KINDS|
    ensures var m := Collect(KINDS, fields, net).value;
            && (Enabled(fields, KINDS[i]) ==> Carries(m, fields, KINDS[i], net))
            && (!Enabled(fields, KINDS[i]) ==> KINDS[i].upper !in m && KINDS[i].lower !in m)
            && "NO_PROXY" !in m
  {
    var m := Collect(KINDS, fields, net).value;
    KindsAreSeparate();
    if Enabled(fields, KINDS[i]) {
      CollectCarries(KINDS, fields, net, i);
    } else {
      forall k | Owns(KINDS[i], k)
        ensures k !in m
      {
        if k in m {
          CollectJustified(KINDS, fields, net, k);
        }
      }
      assert Owns(KINDS[i], KINDS[i].upper) && Owns(KINDS[i], KINDS[i].lower);
    }
    if "NO_PROXY" in m {
      CollectJustified(KINDS, fields, net, "NO_PROXY");
    }
  }

  /**
   A successful lookup names every enabled kind under both spellings with its own address, no
   disabled kind, and the exclusions exactly when there are some.
   */
  lemma LookupIsComplete(fields: Fields, exceptions: seq<string>, net: Net, i: nat)
    requires Build(fields, exceptions, net).Ok? && i < |KINDS|
    ensures var m := Build(fields, exceptions, net).value;
            && (Enabled(fields, KINDS[i]) ==> Carries(m, fields, KINDS[i], net))
            && (!Enabled(fields, KINDS[i]) ==> KINDS[i].upper !in m && KINDS[i].lower !in m)
            && ("NO_PROXY" in m ==> m["NO_PROXY"] == Join(ConvertAll(exceptions), ','))
            && (Enabled(fields, KINDS[i]) ==> ("NO_PROXY" in m <==> exceptions != []))
  {
    KindsAreSeparate();
    assert Owns(KINDS[i], KINDS[i].upper) && Owns(KINDS[i], KINDS[i].lower);
    if exists j :: 0 <= j < |KINDS| && Enabled(fields, KINDS[j]) {
      AddressesComplete(fields, net, i);
    }
  }

  // ----- what cannot matter

  /** An exceptions list with the contents of its nested scopes removed. */
  function PruneList(items: seq<Item>): seq<Item> {
    if items == [] then []
    else [if items[0].Scalar? then items[0] else Block(items[0].header, [])] + PruneList(items[1..])
  }

  /** A dictionary with the contents of every nested scope but its exceptions list removed. */
  function PruneDictionary(pending: bool, items: seq<Item>): seq<Item>
    decreases items
  {
    if items == [] then []
    else
      var named := pending || (Entry(LineOf(items[0])).Some? && Entry(LineOf(items[0])).value.0 == LIST_KEY);
      if items[0].Scalar? then [items[0]] + PruneDictionary(named, items[1..])
      else
        [Block(items[0].header, if named then PruneList(items[0].items) else [])] + PruneDictionary(false, items[1..])
  }

  /** What is left of a text: its dictionaries, pruned. */
  function Pruned(pending: bool, items: seq<Item>): seq<Item>
    decreases items
  {
    if items == [] then []
    else if items[0].Scalar? then Pruned(pending, items[1..])
    else
      var after := Dictionary(Settings(pending, map[], []), items[0].items).pending;
      [Block(items[0].header, PruneDictionary(pending, items[0].items))] + Pruned(after, items[1..])
  }

  lemma {:induction false} PruneListKeeps(items: seq<Item>)
    ensures Elements(PruneList(items)) == Elements(items)
  {
    if items != [] {
      PruneListKeeps(items[1..]);
      assert PruneList(items)[1..] == PruneList(items[1..]);
    }
  }

  lemma {:induction false} PruneDictionaryKeeps(s: Settings, items: seq<Item>)
    ensures Dictionary(s, PruneDictionary(s.pending, items)) == Dictionary(s, items)
    decreases items
  {
    if items != [] {
      var s1 := Direct(s, LineOf(items[0]));
      var rest := PruneDictionary(if items[0].Scalar? then s1.pending else false, items[1..]);
      assert PruneDictionary(s.pending, items)[1..] == rest;
      if items[0].Scalar? {
        PruneDictionaryKeeps(s1, items[1..]);
      } else {
        PruneListKeeps(items[0].items);
        PruneDictionaryKeeps(
          s1.(pending := false, exceptions := s1.exceptions + if s1.pending then Elements(items[0].items) else []),
          items[1..]);
      }
    }
  }

  lemma {:induction false} PendingOnly(s: Settings, t: Settings, items: seq<Item>)
    requires s.pending == t.pending
    ensures Dictionary(s, items).pending == Dictionary(t, items).pending
    decreases items
  {
    if items != [] {
      var s1, t1 := Direct(s, LineOf(items[0])), Direct(t, LineOf(items[0]));
      if items[0].Scalar? {
        PendingOnly(s1, t1, items[1..]);
      } else {
        var more := if s1.pending then Elements(items[0].items) else [];
        PendingOnly(s1.(pending := false, exceptions := s1.exceptions + more),
                    t1.(pending := false, exceptions := t1.exceptions + more), items[1..]);
      }
    }
  }

  lemma {:induction false} PrunedKeeps(s: Settings, items: seq<Item>)
    ensures Whole(s, Pruned(s.pending, items)) == Whole(s, items)
    decreases items
  {
    if items != [] {
      if items[0].Scalar? {
        PrunedKeeps(s, items[1..]);
      } else {
        var s1 := Dictionary(s, items[0].items);
        PendingOnly(s, Settings(s.pending, map[], []), items[0].items);
        assert Pruned(s.pending, items)[1..] == Pruned(s1.pending, items[1..]);
        PruneDictionaryKeeps(s, items[0].items);
        PrunedKeeps(s1, items[1..]);
      }
    }
  }

  /**
   Two well-nested texts that agree once the contents of every scope other than the outer
   dictionaries and their exceptions lists are removed give the same result.
   */
  lemma NestedScopesDoNotMatter(raw: string, items: seq<Item>, raw': string, items': seq<Item>, net: Net)
    requires WellNested(items) && TrimmedLines(raw) == Flatten(items)
    requires WellNested(items') && TrimmedLines(raw') == Flatten(items')
    requires Pruned(false, items) == Pruned(false, items')
    ensures Parse(raw, net) == Parse(raw', net)
  {
    var s := Settings(false, map[], []);
    TextReads(s, items);
    TextReads(s, items');
    PrunedKeeps(s, items);
    PrunedKeeps(s, items');
  }

  // ----- when a lookup fails, and what it names

  /** The setting is present and is `1`. */
  predicate Set(fields: Fields, key: string) {
    key in fields && fields[key] == "1"
  }

  /** An exclusion that the variable can express: the star alone, or no star or question mark after a leading `*.`. */
  predicate Expressible(e: string) {
    var rest := if "*." <= e then e[2..] else e;
    e == "*" || forall c :: c in rest ==> c != '*' && c != '?'
  }

  lemma ExpressibleIff(e: string)
    ensures Representable(Converted(e)) <==> Expressible(e)
  {
    if "*." <= e {
      assert Converted(e) == "." + e[2..];
      assert |Converted(e)| >= 1 && Converted(e)[0] == '.';
    }
  }

  lemma {:induction false} CollectFailsIff(kinds: seq<Kind>, fields: Fields, net: Net)
    ensures Collect(kinds, fields, net).Err? <==>
            exists i :: 0 <= i < |kinds| && Enabled(fields, kinds[i]) && AddressOf(fields, kinds[i], net).Err?
  {
    if kinds != [] {
      var n := |kinds| - 1;
      CollectFailsIff(kinds[..n], fields, net);
      assert forall i :: 0 <= i < n ==> kinds[..n][i] == kinds[i];
    }
  }

  lemma ListedIff(exceptions: seq<string>)
    ensures (exists i :: 0 <= i < |exceptions| && !Representable(ConvertAll(exceptions)[i])) <==>
            exists e :: e in exceptions && !Expressible(e)
  {
    forall i | 0 <= i < |exceptions|
      ensures Representable(ConvertAll(exceptions)[i]) <==> Expressible(exceptions[i])
    {
      ExpressibleIff(exceptions[i]);
    }
    if e :| e in exceptions && !Expressible(e) {
      var i :| 0 <= i < |exceptions| && exceptions[i] == e;
      assert !Representable(ConvertAll(exceptions)[i]);
    }
  }

  predicate AnySet(fields: Fields) {
    Set(fields, "HTTPEnable") || Set(fields, "HTTPSEnable") || Set(fields, "SOCKSEnable")
  }

  lemma EnabledIff(fields: Fields)
    ensures Enabled(fields, KINDS[0]) <==> Set(fields, "HTTPEnable")
    ensures Enabled(fields, KINDS[1]) <==> Set(fields, "HTTPSEnable")
    ensures Enabled(fields, KINDS[2]) <==> Set(fields, "SOCKSEnable")
  {
    assert "HTTP" + "Enable" == "HTTPEnable";
    assert "HTTPS" + "Enable" == "HTTPSEnable";
    assert "SOCKS" + "Enable" == "SOCKSEnable";
  }

  lemma AnyIff(fields: Fields)
    ensures AnySet(fields) <==> exists i :: 0 <= i < |KINDS| && Enabled(fields, KINDS[i])
  {
    EnabledIff(fields);
    if i :| 0 <= i < |KINDS| && Enabled(fields, KINDS[i]) {
      assert i == 0 || i == 1 || i == 2;
    }
  }

  /**
   A lookup fails exactly when a discovery protocol is on, or some kind is enabled and simple host
   names are excluded, an exclusion cannot be expressed, or an enabled kind has no valid address.
   With no kind enabled it finds nothing.
   */
  lemma LookupFailsIff(fields: Fields, exceptions: seq<string>, net: Net)
    ensures Build(fields, exceptions, net).Err? <==>
            || Set(fields, "ProxyAutoConfigEnable") || Set(fields, "ProxyAutoDiscoveryEnable")
            || (AnySet(fields) && (|| Set(fields, "ExcludeSimpleHostnames")
                                   || (exists e :: e in exceptions && !Expressible(e))
                                   || Collect(KINDS, fields, net).Err?))
    ensures Build(fields, exceptions, net).Ok? && !AnySet(fields) ==> Build(fields, exceptions, net).value == map[]
  {
    AnyIff(fields);
    ListedIff(exceptions);
  }

  /** Each variable is named exactly when its own kind is set. */
  lemma LookupNames(fields: Fields, exceptions: seq<string>, net: Net)
    requires Build(fields, exceptions, net).Ok?
    ensures var m := Build(fields, exceptions, net).value;
            && ("HTTP_PROXY" in m <==> Set(fields, "HTTPEnable"))
            && ("http_proxy" in m <==> Set(fields, "HTTPEnable"))
            && ("HTTPS_PROXY" in m <==> Set(fields, "HTTPSEnable"))
            && ("https_proxy" in m <==> Set(fields, "HTTPSEnable"))
            && ("ALL_PROXY" in m <==> Set(fields, "SOCKSEnable"))
            && ("all_proxy" in m <==> Set(fields, "SOCKSEnable"))
  {
    EnabledIff(fields);
    LookupIsComplete(fields, exceptions, net, 0);
    LookupIsComplete(fields, exceptions, net, 1);
    LookupIsComplete(fields, exceptions, net, 2);
  }

  lemma {:induction false} SeparatorAfter(k: string, v: string)
    requires ':' !in k
    ensures FindSeparator(k + " : " + v) == |k|
  {
    var s := k + " : " + v;
    if k == "" {
      assert s[..3] == " : ";
    } else {
      assert s[1..] == k[1..] + " : " + v;
      assert s[..3] != " : " by {
        if |k| == 1 { assert s[1] == ' '; } else { assert s[1] == k[1]; }
      }
      SeparatorAfter(k[1..], v);
    }
  }

  /** A line `key : value` is read as that key and that value, whatever the value holds. */
  lemma EntryReads(k: string, v: string)
    requires ':' !in k
    ensures Entry(k + " : " + v) == Some((k, v))
  {
    var s := k + " : " + v;
    SeparatorAfter(k, v);
    assert s[..|k|] == k && s[|k| + 3..] == v;
  }
}

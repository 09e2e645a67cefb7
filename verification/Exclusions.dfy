/** Proxy exclusion lists: comma-separated entries, merged without duplicates. */
module Exclusions {
  import opened Text

  /** An entry that a comma-separated list can hold. */
  predicate IsClean(e: string) {
    e != "" && IsTrimmed(e) && ',' !in e
  }

  predicate AllClean(es: seq<string>) {
    forall i :: 0 <= i < |es| ==> IsClean(es[i])
  }

  predicate NoDuplicates(es: seq<string>) {
    forall i, j :: 0 <= i < j < |es| ==> es[i] != es[j]
  }

  function Kept(parts: seq<string>): seq<string> {
    if parts == [] then []
    else (if Trim(parts[0]) == "" then [] else [Trim(parts[0])]) + Kept(parts[1..])
  }

  /** The trimmed, nonempty pieces of a comma-separated value. */
  function Entries(v: string): seq<string> {
    Kept(Split(v, ','))
  }

  lemma {:induction false} KeptConcat(a: seq<string>, b: seq<string>)
    ensures Kept(a + b) == Kept(a) + Kept(b)
  {
    if a == [] {
      assert a + b == b;
    } else {
      assert (a + b)[1..] == a[1..] + b;
      KeptConcat(a[1..], b);
    }
  }

  /** Appending with a comma appends the entries. */
  lemma EntriesConcat(s: string, t: string)
    ensures Entries(s + "," + t) == Entries(s) + Entries(t)
  {
    SplitConcat(s, ',', t);
    KeptConcat(Split(s, ','), Split(t, ','));
  }

  lemma {:induction false} KeptClean(parts: seq<string>)
    requires forall i :: 0 <= i < |parts| ==> ',' !in parts[i]
    ensures AllClean(Kept(parts))
  {
    if parts != [] {
      TrimIsTrimmed(parts[0]);
      KeptClean(parts[1..]);
    }
  }

  lemma {:induction false} SplitParts(s: string, c: char)
    ensures forall i :: 0 <= i < |Split(s, c)| ==> c !in Split(s, c)[i]
    decreases |s|
  {
    FindNone(s, c);
    if Find(s, c) < |s| {
      SplitParts(s[Find(s, c) + 1..], c);
    }
  }

  lemma EntriesClean(v: string)
    ensures AllClean(Entries(v))
  {
    SplitParts(v, ',');
    KeptClean(Split(v, ','));
  }

  lemma {:induction false} KeptStays(es: seq<string>)
    requires AllClean(es)
    ensures Kept(es) == es
  {
    if es != [] {
      assert IsClean(es[0]);
      TrimmedStays(es[0]);
      KeptStays(es[1..]);
    }
  }

  /** Joining clean entries and reading them again gives them back. */
  lemma EntriesOfJoin(es: seq<string>)
    requires AllClean(es)
    ensures Entries(Join(es, ',')) == es
  {
    if es == [] {
      assert Split("", ',') == [""];
    } else {
      forall p | p in es ensures ',' !in p {
        var i :| 0 <= i < |es| && es[i] == p;
        assert IsClean(es[i]);
      }
      SplitJoin(es, ',');
      KeptStays(es);
    }
  }

  // ----- merging

  /** `xs` followed by the elements of `ys` it does not hold yet, each once. */
  function AddNew(xs: seq<string>, ys: seq<string>): seq<string> {
    if ys == [] then xs
    else
      var zs := AddNew(xs, ys[..|ys| - 1]);
      if ys[|ys| - 1] in zs then zs else zs + [ys[|ys| - 1]]
  }

  lemma {:induction false} AddNewFacts(xs: seq<string>, ys: seq<string>)
    requires NoDuplicates(xs)
    ensures var zs := AddNew(xs, ys);
            && xs <= zs && NoDuplicates(zs)
            && (forall e :: e in zs <==> e in xs || e in ys)
            && (AllClean(xs) && AllClean(ys) ==> AllClean(zs))
  {
    if ys != [] {
      var n := |ys| - 1;
      AddNewFacts(xs, ys[..n]);
      assert ys == ys[..n] + [ys[n]];
      assert forall e :: e in ys <==> e in ys[..n] || e == ys[n];
    }
  }

  /** Merging a list into one of its own prefixes rebuilds the list. */
  lemma {:induction false} AddNewPrefix(xs: seq<string>, ys: seq<string>)
    requires NoDuplicates(ys)
    requires xs <= ys || ys <= xs
    requires NoDuplicates(xs)
    ensures AddNew(xs, ys) == if xs <= ys then ys else xs
  {
    if ys != [] {
      var n := |ys| - 1;
      AddNewPrefix(xs, ys[..n]);
      if |xs| <= n {
        assert ys[..n] + [ys[n]] == ys;
        assert ys[n] !in ys[..n];
      } else {
        assert ys[n] == xs[n];
      }
    }
  }

  /** The loop that pushes what is missing. */
  method PushMissing(xs: seq<string>, ys: seq<string>) returns (zs: seq<string>)
    ensures zs == AddNew(xs, ys)
  {
    zs := xs;
    for i := 0 to |ys|
      invariant zs == AddNew(xs, ys[..i])
    {
      assert ys[..i + 1][..i] == ys[..i];
      if ys[i] !in zs {
        zs := zs + [ys[i]];
      }
    }
    assert ys[..|ys|] == ys;
  }
}

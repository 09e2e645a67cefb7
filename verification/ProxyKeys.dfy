/** The groups of proxy variables, and maps restricted to a group. */
module ProxyKeys {
  const MODE_KEY := "AWIKI_DAEMON_AGENT_PROXY_MODE"
  const ADDRESS_KEYS := ["HTTP_PROXY", "HTTPS_PROXY", "ALL_PROXY", "http_proxy", "https_proxy", "all_proxy"]
  const EXCLUSION_KEYS := ["NO_PROXY", "no_proxy"]
  const MODE_KEYS := [MODE_KEY]

  type Env = map<string, string>

  function Restrict(m: Env, keys: seq<string>): Env {
    map k | k in m && k in keys :: m[k]
  }

  predicate Names(m: Env, keys: seq<string>) {
    exists k | k in keys :: k in m
  }

  lemma RestrictPlus(m: Env, keys: seq<string>, k: string)
    ensures Restrict(m, keys + [k]) == if k in m then Restrict(m, keys)[k := m[k]] else Restrict(m, keys)
  {
    assert forall x :: x in keys + [k] <==> x in keys || x == k;
  }

  lemma ExclusionsApart()
    ensures forall k :: k in EXCLUSION_KEYS ==> k !in ADDRESS_KEYS && k !in MODE_KEYS
  {
  }

  lemma ModeApart()
    ensures MODE_KEY !in ADDRESS_KEYS && MODE_KEY !in EXCLUSION_KEYS
  {
  }
}

/** What every other module needs. */
module Prelude {
  datatype Option<+T> = None | Some(value: T)

  /** The largest integer that every peer and JSON decoder represents exactly. */
  const MAX_SAFE_INTEGER := 9_007_199_254_740_991

  function At<V>(m: map<string, V>, key: string): Option<V> {
    if key in m then Some(m[key]) else None
  }

  lemma SameMaps<V>(a: map<string, V>, b: map<string, V>)
    requires forall key :: At(a, key) == At(b, key)
    ensures a == b
  {
    forall key ensures key in a <==> key in b && (key in a ==> a[key] == b[key]) {
      assert At(a, key) == At(b, key);
    }
  }

  lemma OneMore<T>(s: seq<T>, i: nat)
    requires i < |s|
    ensures s[..i + 1] == s[..i] + [s[i]]
  {
  }

  lemma AllTaken<T>(s: seq<T>)
    ensures s[..|s|] == s
  {
  }
}

/** How many threads stand where, and how one thread's move changes that. */
module Counting {
  ghost function On<K, T>(m: map<K, T>, p: T -> bool): set<K> {
    set k | k in m && p(m[k])
  }

  lemma CountMove<K, T>(m: map<K, T>, k: K, v: T, p: T -> bool)
    requires k in m
    ensures |On(m[k := v], p)| == |On(m, p)| + (if p(v) then 1 else 0) - (if p(m[k]) then 1 else 0)
  {
    var was, now := On(m, p), On(m[k := v], p);
    var rest := was - {k};
    assert was == if p(m[k]) then rest + {k} else rest;
    assert now == if p(v) then rest + {k} else rest;
  }

  lemma NoneCounted<K, T>(m: map<K, T>, k: K, p: T -> bool)
    requires |On(m, p)| == 0 && k in m
    ensures !p(m[k])
  {
    assert On(m, p) == {};
    assert k !in On(m, p);
  }
}

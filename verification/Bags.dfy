/** The bag of contents of a map: what `include *.conf` hands to nginx once names are forgotten. */
module Bags {

  /** How many keys hold `c`. */
  ghost function Count<K>(m: map<K, string>, c: string): nat {
    |set k | k in m && m[k] == c|
  }

  ghost predicate SameBag<K, L>(m: map<K, string>, n: map<L, string>) {
    forall c :: Count(m, c) == Count(n, c)
  }

  lemma CountInsert<K>(m: map<K, string>, k: K, d: string, c: string)
    requires k !in m
    ensures Count(m[k := d], c) == Count(m, c) + if c == d then 1 else 0
  {
    var n := m[k := d];
    var before := set x | x in m && m[x] == c;
    var after := set x | x in n && n[x] == c;
    assert after == if c == d then before + {k} else before;
  }

  /** The name under which a content is added does not matter. */
  lemma SameInsert<K>(m: map<K, string>, k: K, l: K, c: string)
    requires k !in m && l !in m
    ensures SameBag(m[k := c], m[l := c])
  {
    var a, b := m[k := c], m[l := c];
    forall d ensures Count(a, d) == Count(b, d) {
      CountInsert(m, k, c, d);
      CountInsert(m, l, c, d);
    }
  }
}

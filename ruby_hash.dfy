/**
  Ruby's `Hash` as the JSON and plist parsers hand it over, and as Nokogiri
  keeps an element's attributes: an insertion-ordered list of key/value
  entries. `Lookup` answers `h[k]`; `Store` performs `h[k] = v`, which
  overwrites an existing entry where it stands and appends a new one at the end.
*/
module RubyHash {
  import opened Common

  type Hash<V> = seq<(string, V)>

  /** The keys in insertion order, as `Hash#keys` lists them. */
  function Keys<V>(h: Hash<V>): (ks: seq<string>)
    ensures |ks| == |h|
    ensures forall i :: 0 <= i < |h| ==> ks[i] == h[i].0
  {
    if h == [] then [] else [h[0].0] + Keys(h[1..])
  }

  /** The position of the first entry with key `k`, or `|h|` when there is none. */
  function FirstIndex<V>(h: Hash<V>, k: string): (i: nat)
    ensures i <= |h|
    ensures i < |h| ==> h[i].0 == k
    ensures forall j :: 0 <= j < i ==> h[j].0 != k
  {
    if h == [] then 0
    else if h[0].0 == k then 0
    else 1 + FirstIndex(h[1..], k)
  }

  /**
    `h[k]`: the value of the first entry with key `k`, `None` (Ruby's nil) if
    there is none.
  */
  function Lookup<V>(h: Hash<V>, k: string): (r: Option<V>)
    ensures r.Some? <==> k in Keys(h)
  {
    if h == [] then None
    else if h[0].0 == k then Some(h[0].1)
    else Lookup(h[1..], k)
  }

  /** The value `h[k]` finds is the one in the first entry with key `k`. */
  lemma {:induction false} LookupReadsFirstEntry<V>(h: Hash<V>, k: string)
    ensures Lookup(h, k) == if FirstIndex(h, k) < |h| then Some(h[FirstIndex(h, k)].1) else None
  {
    if h != [] && h[0].0 != k {
      LookupReadsFirstEntry(h[1..], k);
    }
  }

  /**
    `h[k] = v`: afterwards `k` maps to `v`, every other key maps to what it
    did before, and the key order is unchanged except that a new key comes last.
  */
  function Store<V>(h: Hash<V>, k: string, v: V): (r: Hash<V>)
    ensures forall j :: Lookup(r, j) == if j == k then Some(v) else Lookup(h, j)
    ensures Keys(r) == if k in Keys(h) then Keys(h) else Keys(h) + [k]
  {
    if h == [] then [(k, v)]
    else if h[0].0 == k then [(k, v)] + h[1..]
    else
      [h[0]] + Store(h[1..], k, v)
  }

  /** A second store to the same key replaces the first one's value and nothing else. */
  lemma {:induction false} StoreOverwrite<V>(h: Hash<V>, k: string, x: V, y: V)
    ensures Store(Store(h, k, x), k, y) == Store(h, k, y)
  {
    if h != [] && h[0].0 != k {
      StoreOverwrite(h[1..], k, x, y);
      assert Store(h, k, x)[1..] == Store(h[1..], k, x);
    }
  }
}

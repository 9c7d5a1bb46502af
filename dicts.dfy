/** Python dictionaries, which keep their keys in insertion order. */
module Dicts {
  import opened Tables

  /** The entries of a dict, in insertion order. */
  type Dict<V> = seq<(string, V)>

  function Keys<V>(d: Dict<V>): (ks: seq<string>)
    ensures |ks| == |d|
    ensures forall i :: 0 <= i < |d| ==> ks[i] == d[i].0
  {
    seq(|d|, i requires 0 <= i < |d| => d[i].0)
  }

  /** What every dict satisfies; a sequence of pairs must be told. */
  ghost predicate UniqueKeys<V>(d: Dict<V>) {
    Distinct(Keys(d))
  }

  /** `d[k] = v`: a present key keeps its place and takes the new value; a new key goes last. */
  function Put<V>(d: Dict<V>, k: string, v: V): Dict<V>
  {
    if k in Keys(d) then d[IndexOf(Keys(d), k) := (k, v)] else d + [(k, v)]
  }

  /** `d[k]` for a present key. */
  function Get<V>(d: Dict<V>, k: string): V
    requires k in Keys(d)
  {
    d[IndexOf(Keys(d), k)].1
  }

  /** Assigning a key that is not yet present appends it. */
  lemma PutNew<V>(d: Dict<V>, k: string, v: V)
    requires UniqueKeys(d) && k !in Keys(d)
    ensures Put(d, k, v) == d + [(k, v)]
    ensures UniqueKeys(Put(d, k, v))
    ensures Keys(Put(d, k, v)) == Keys(d) + [k]
  {
    var r := d + [(k, v)];
    assert Keys(r) == Keys(d) + [k];
    forall i, j | 0 <= i < j < |r| ensures Keys(r)[i] != Keys(r)[j] {
      if j == |d| {
        assert Keys(d)[i] in Keys(d);
      }
    }
  }

  /** In a dict with unique keys, `d[k]` finds the entry at every position. */
  lemma GetAt<V>(d: Dict<V>, i: nat)
    requires UniqueKeys(d) && i < |d|
    ensures d[i].0 in Keys(d) && IndexOf(Keys(d), d[i].0) == i && Get(d, d[i].0) == d[i].1
  {
    assert Keys(d)[i] == d[i].0;
    var k := IndexOf(Keys(d), d[i].0);
    assert Keys(d)[k] == Keys(d)[i];
    assert k == i;
  }

  /** Assignment keeps the keys unique: a present key keeps the key list, a new key
      extends it. */
  lemma PutKeepsUnique<V>(d: Dict<V>, k: string, v: V)
    requires UniqueKeys(d)
    ensures UniqueKeys(Put(d, k, v))
    ensures k in Keys(d) ==> Keys(Put(d, k, v)) == Keys(d)
    ensures k !in Keys(d) ==> Keys(Put(d, k, v)) == Keys(d) + [k]
  {
    if k in Keys(d) {
      var i := IndexOf(Keys(d), k);
      assert Keys(Put(d, k, v)) == Keys(d);
    } else {
      PutNew(d, k, v);
    }
  }

  /** `dict(pairs)`: each pair assigned in turn. */
  function FromPairs<V>(pairs: seq<(string, V)>): Dict<V>
  {
    if pairs == [] then []
    else
      var n := |pairs| - 1;
      Put(FromPairs(pairs[..n]), pairs[n].0, pairs[n].1)
  }

  /** Pairs with distinct keys become a dict holding exactly those pairs, in order. */
  lemma {:induction false} FromPairsIdentity<V>(pairs: seq<(string, V)>)
    requires UniqueKeys(pairs)
    ensures FromPairs(pairs) == pairs
  {
    if pairs != [] {
      var n := |pairs| - 1;
      var prefix, last := pairs[..n], pairs[n];
      PrefixKeepsUnique(pairs, n);
      FromPairsIdentity(prefix);
      assert last.0 !in Keys(prefix) by {
        forall i | 0 <= i < n ensures Keys(prefix)[i] != last.0 {
          assert Keys(prefix)[i] == Keys(pairs)[i];
          assert Keys(pairs)[n] == last.0;
        }
      }
      PutNew(prefix, last.0, last.1);
      calc {
        FromPairs(pairs);
        Put(FromPairs(prefix), last.0, last.1);
        prefix + [last];
        pairs;
      }
    }
  }

  /** The first `n` entries of a dict with unique keys have unique keys. */
  lemma PrefixKeepsUnique<V>(d: Dict<V>, n: nat)
    requires UniqueKeys(d) && n <= |d|
    ensures UniqueKeys(d[..n])
  {
    assert Keys(d[..n]) == Keys(d)[..n];
  }
}

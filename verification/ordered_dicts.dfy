/** `collections.OrderedDict` with string keys: an association list whose
    keys keep the order of their first insertion. */
module OrderedDicts {
  import opened Options

  type ODict<V> = seq<(string, V)>

  function Keys<V>(d: ODict<V>): (r: seq<string>)
    ensures |r| == |d|
    ensures forall i :: 0 <= i < |d| ==> r[i] == d[i].0
  {
    if |d| == 0 then [] else [d[0].0] + Keys(d[1..])
  }

  /** `d.get(k)`. */
  function Get<V>(d: ODict<V>, k: string): Option<V> {
    if |d| == 0 then None
    else if d[0].0 == k then Some(d[0].1)
    else Get(d[1..], k)
  }

  /** No key occurs twice, as in any Python dict. */
  predicate DistinctKeys<V>(d: ODict<V>) {
    forall i, j :: 0 <= i < j < |d| ==> d[i].0 != d[j].0
  }

  /** `d[k] = v`: an existing key keeps its position and takes the new
      value, a new key goes to the end. */
  function Put<V>(d: ODict<V>, k: string, v: V): (r: ODict<V>)
    ensures Get(r, k) == Some(v)
    ensures forall j :: j != k ==> Get(r, j) == Get(d, j)
    ensures k in Keys(d) ==> Keys(r) == Keys(d)
    ensures k !in Keys(d) ==> Keys(r) == Keys(d) + [k]
  {
    if |d| == 0 then [(k, v)]
    else if d[0].0 == k then [(k, v)] + d[1..]
    else
      assert Keys(d) == [d[0].0] + Keys(d[1..]);
      [d[0]] + Put(d[1..], k, v)
  }

  /** `d[k] = v` keeps the keys distinct. */
  lemma PutKeepsDistinct<V>(d: ODict<V>, k: string, v: V)
    ensures DistinctKeys(d) ==> DistinctKeys(Put(d, k, v))
  {
    var r := Put(d, k, v);
    forall i, j | DistinctKeys(d) && 0 <= i < j < |r| ensures r[i].0 != r[j].0 {
      assert r[i].0 == Keys(r)[i] && r[j].0 == Keys(r)[j];
      if k in Keys(d) {
        assert Keys(d)[i] == d[i].0 && Keys(d)[j] == d[j].0;
      } else if j < |d| {
        assert Keys(r)[i] == Keys(d)[i] == d[i].0;
        assert Keys(r)[j] == Keys(d)[j] == d[j].0;
      } else {
        assert Keys(r)[j] == k;
        assert Keys(r)[i] == Keys(d)[i];
      }
    }
  }

  /** Inserting a key that is not present appends the pair. */
  lemma {:induction false} PutNew<V>(d: ODict<V>, k: string, v: V)
    requires k !in Keys(d)
    ensures Put(d, k, v) == d + [(k, v)]
  {
    if |d| > 0 {
      var ks := Keys(d);
      assert ks[0] == d[0].0;
      assert Keys(d[1..]) == ks[1..];
      assert k != d[0].0;
      assert k !in Keys(d[1..]);
      PutNew(d[1..], k, v);
      calc {
        Put(d, k, v);
        [d[0]] + Put(d[1..], k, v);
        [d[0]] + (d[1..] + [(k, v)]);
        { assert d == [d[0]] + d[1..]; }
        d + [(k, v)];
      }
    }
  }
}

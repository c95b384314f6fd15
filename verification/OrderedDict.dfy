/** A dictionary that remembers the order its keys were first entered in. */
module OrderedDict {
  import opened Seqs

  datatype Dict<K(==), V> = Dict(order: seq<K>, at: map<K, V>)

  function Empty<K, V>(): Dict<K, V> {
    Dict([], map[])
  }

  ghost predicate Valid<K(!new), V>(d: Dict<K, V>) {
    && Distinct(d.order)
    && (forall k :: k in d.order <==> k in d.at)
  }

  /** A key entered again keeps its place. */
  function Put<K, V>(d: Dict<K, V>, k: K, v: V): Dict<K, V> {
    Dict(if k in d.at then d.order else d.order + [k], d.at[k := v])
  }

  function Drop<K, V>(d: Dict<K, V>, k: K): Dict<K, V> {
    Dict(Without(d.order, k), d.at - {k})
  }

  /** Dropping a key takes out that one entry, if it is there. */
  lemma DropValid<K(!new), V>(d: Dict<K, V>, k: K)
    requires Valid(d)
    ensures Valid(Drop(d, k))
    ensures |Drop(d, k).order| == if k in d.at then |d.order| - 1 else |d.order|
  {
    WithoutMembers(d.order, k);
    WithoutDistinct(d.order, k);
  }

  /** And leaves the rest in order, wherever it stood. */
  lemma DropKeepsOrder<K(!new), V>(d: Dict<K, V>, i: nat)
    requires Valid(d) && i < |d.order|
    ensures Drop(d, d.order[i]).order == d.order[..i] + d.order[i + 1..]
    ensures Drop(d, d.order[i]).at == d.at - {d.order[i]}
  {
    WithoutAt(d.order, i);
  }

  lemma PutValid<K(!new), V>(d: Dict<K, V>, k: K, v: V)
    requires Valid(d)
    ensures Valid(Put(d, k, v))
  {}
}

/** Python dictionaries as insertion-ordered association lists: lookup, `d[k] = v`,
    a filtering comprehension, and the `{**a, **b}` merge. Keys are strings throughout. */
module Dicts {
  import opened Wrappers
  import opened Lists

  type Dict<V> = seq<(string, V)>

  /** `d.keys()`, in insertion order. */
  function Keys<V>(d: Dict<V>): (ks: seq<string>)
    ensures |ks| == |d| && forall i :: 0 <= i < |d| ==> ks[i] == d[i].0
  {
    if d == [] then [] else [d[0].0] + Keys(d[1..])
  }

  /** No key occurs twice: every dictionary Python builds has this shape. */
  ghost predicate UniqueKeys<V>(d: Dict<V>) {
    forall i, j :: 0 <= i < j < |d| ==> d[i].0 != d[j].0
  }

  /** `d.get(k)`: the value stored under `k`, if any. */
  function Get<V>(d: Dict<V>, k: string): (r: Option<V>)
    ensures r.Some? <==> k in Keys(d)
  {
    if d == [] then None
    else if d[0].0 == k then Some(d[0].1)
    else Get(d[1..], k)
  }

  /** In a dictionary without repeated keys, the entry at position `i` is what lookup finds. */
  lemma {:induction false} GetAt<V>(d: Dict<V>, i: nat)
    requires UniqueKeys(d) && i < |d|
    ensures Get(d, d[i].0) == Some(d[i].1)
  {
    if i > 0 {
      GetAt(d[1..], i - 1);
    }
  }

  /** `d[k] = v`: an existing key keeps its position, a new key goes last. */
  function Set<V>(d: Dict<V>, k: string, v: V): (r: Dict<V>)
    ensures Keys(r) == if k in Keys(d) then Keys(d) else Keys(d) + [k]
  {
    if d == [] then [(k, v)]
    else if d[0].0 == k then [(k, v)] + d[1..]
    else [d[0]] + Set(d[1..], k, v)
  }

  /** After `d[k] = v`, looking up `k` gives `v` and every other key gives what it gave before. */
  lemma {:induction false} SetGet<V>(d: Dict<V>, k: string, v: V, j: string)
    ensures Get(Set(d, k, v), j) == if j == k then Some(v) else Get(d, j)
  {
    if d != [] && d[0].0 != k {
      SetGet(d[1..], k, v, j);
    }
  }

  /** `d[k] = v` never introduces a repeated key. */
  lemma SetUnique<V>(d: Dict<V>, k: string, v: V)
    requires UniqueKeys(d)
    ensures UniqueKeys(Set(d, k, v))
  {
    var r := Set(d, k, v);
    assert Keys(r) == if k in Keys(d) then Keys(d) else Keys(d) + [k];
    forall i, j | 0 <= i < j < |r| ensures r[i].0 != r[j].0 {
      assert Keys(r)[i] == r[i].0 && Keys(r)[j] == r[j].0;
    }
  }

  /** `{x: y for x, y in d.items() if x != k}`: every entry except the one under `k`, in order. */
  function Remove<V>(d: Dict<V>, k: string): (r: Dict<V>)
    ensures Keys(r) == Filter(Keys(d), (x: string) => x != k)
  {
    if d == [] then []
    else if d[0].0 == k then Remove(d[1..], k)
    else [d[0]] + Remove(d[1..], k)
  }

  /** Lookup after removing `k`: nothing under `k`, everything else as before. */
  lemma {:induction false} RemoveGet<V>(d: Dict<V>, k: string, j: string)
    ensures Get(Remove(d, k), j) == if j == k then None else Get(d, j)
  {
    if d != [] {
      RemoveGet(d[1..], k, j);
    }
  }

  /** `{**a, **b}`: the keys of `a` first and in their order, followed by the keys of `b` that
      `a` lacks. */
  function Merge<V>(a: Dict<V>, b: Dict<V>): (r: Dict<V>)
    ensures |r| >= |a| && Keys(r)[..|a|] == Keys(a)
    ensures forall k :: k in Keys(r) <==> k in Keys(a) || k in Keys(b)
    decreases |b|
  {
    if b == [] then a else Merge(Set(a, b[0].0, b[0].1), b[1..])
  }

  /** Lookup in `{**a, **b}`: a key of `b` takes `b`'s value, any other key keeps `a`'s. */
  lemma {:induction false} MergeGet<V>(a: Dict<V>, b: Dict<V>, k: string)
    requires UniqueKeys(b)
    ensures Get(Merge(a, b), k) == if k in Keys(b) then Get(b, k) else Get(a, k)
    decreases |b|
  {
    if b != [] {
      var b' := b[1..];
      assert UniqueKeys(b') && Keys(b) == [b[0].0] + Keys(b');
      MergeGet(Set(a, b[0].0, b[0].1), b', k);
      SetGet(a, b[0].0, b[0].1, k);
    }
  }

  /** Merging into a dictionary without repeated keys gives one without repeated keys. */
  lemma {:induction false} MergeUnique<V>(a: Dict<V>, b: Dict<V>)
    requires UniqueKeys(a)
    ensures UniqueKeys(Merge(a, b))
    decreases |b|
  {
    if b != [] {
      SetUnique(a, b[0].0, b[0].1);
      MergeUnique(Set(a, b[0].0, b[0].1), b[1..]);
    }
  }
}

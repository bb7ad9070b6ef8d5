/** A Python `dict` with string keys: a sequence of (key, value) entries in
    insertion order. Assigning to a key that is present overwrites its value in
    place; assigning to a new key appends it at the end. */
module Dicts {
  import opened Values

  type Dict<V> = seq<(string, V)>

  /** No key occurs twice — every dict the connector builds has this property. */
  predicate UniqueKeys<V>(d: Dict<V>)
  {
    forall i, j :: 0 <= i < j < |d| ==> d[i].0 != d[j].0
  }

  function Keys<V>(d: Dict<V>): set<string>
  {
    set i | 0 <= i < |d| :: d[i].0
  }

  /** The keys in iteration order. */
  function KeySeq<V>(d: Dict<V>): (ks: seq<string>)
    ensures |ks| == |d|
    ensures forall i :: 0 <= i < |d| ==> ks[i] == d[i].0
  {
    seq(|d|, i requires 0 <= i < |d| => d[i].0)
  }

  /** The position of the first entry with key `k` at or after `from`. */
  function FindFrom<V>(d: Dict<V>, k: string, from: nat): (r: Option<nat>)
    requires from <= |d|
    ensures r.Some? ==> from <= r.value < |d| && d[r.value].0 == k
    ensures r.Some? ==> forall j :: from <= j < r.value ==> d[j].0 != k
    ensures r.None? ==> forall j :: from <= j < |d| ==> d[j].0 != k
    decreases |d| - from
  {
    if from == |d| then None
    else if d[from].0 == k then Some(from)
    else FindFrom(d, k, from + 1)
  }

  /** The position of key `k`, if it is present. */
  function Find<V>(d: Dict<V>, k: string): (r: Option<nat>)
    ensures r.Some? ==> r.value < |d| && d[r.value].0 == k
    ensures r.Some? ==> forall j :: 0 <= j < r.value ==> d[j].0 != k
    ensures r.None? <==> k !in Keys(d)
  {
    FindFrom(d, k, 0)
  }

  /** The first position holding `k` is where `Find` stops. */
  lemma FindFirst<V>(d: Dict<V>, k: string, i: nat)
    requires i < |d| && d[i].0 == k
    requires forall j :: 0 <= j < i ==> d[j].0 != k
    ensures Find(d, k) == Some(i)
  {
    assert k in Keys(d);
  }

  /** Assigning to a key not yet present appends the entry. */
  lemma SetFresh<V>(d: Dict<V>, k: string, v: V)
    requires k !in KeySeq(d)
    ensures Set(d, k, v) == d + [(k, v)]
  {
    KeysAreKeySeq(d, k);
  }

  /** Two dicts with the same keys at the same positions find every key at the same place. */
  lemma FindSameKeys<V, W>(d: Dict<V>, e: Dict<W>, k: string)
    requires KeySeq(d) == KeySeq(e)
    ensures Find(d, k) == Find(e, k)
  {
    assert |d| == |e|;
    assert forall i :: 0 <= i < |d| ==> d[i].0 == KeySeq(d)[i] == KeySeq(e)[i] == e[i].0;
  }

  /** A key is present exactly when it occurs in the key sequence. */
  lemma KeysAreKeySeq<V>(d: Dict<V>, k: string)
    ensures k in Keys(d) <==> k in KeySeq(d)
  {
    if k in KeySeq(d) {
      var i :| 0 <= i < |d| && KeySeq(d)[i] == k;
      assert d[i].0 == k;
    }
  }

  /** `d.get(k)`: the value stored under `k`, or `None` when `k` is absent. */
  function Get<V>(d: Dict<V>, k: string): (r: Option<V>)
    ensures r.Some? <==> k in Keys(d)
    ensures r.Some? ==> exists i :: 0 <= i < |d| && d[i] == (k, r.value)
  {
    match Find(d, k)
    case Some(i) => Some(d[i].1)
    case None => None
  }

  /** In a dict with unique keys, the value at a position is what `Get` returns for its key. */
  lemma GetAt<V>(d: Dict<V>, i: nat)
    requires UniqueKeys(d) && i < |d|
    ensures Get(d, d[i].0) == Some(d[i].1)
  {
    assert d[i].0 in Keys(d);
  }

  /** Python's `d[k] = v`. */
  function Set<V>(d: Dict<V>, k: string, v: V): Dict<V>
  {
    match Find(d, k)
    case Some(i) => d[i := (k, v)]
    case None => d + [(k, v)]
  }

  /** After `d[k] = v`, `k` holds `v` and every other key holds what it held before. */
  lemma SetGet<V>(d: Dict<V>, k: string, v: V)
    ensures Get(Set(d, k, v), k) == Some(v)
    ensures forall j {:trigger Get(Set(d, k, v), j)} :: j != k ==> Get(Set(d, k, v), j) == Get(d, j)
  {
    var r := Set(d, k, v);
    match Find(d, k)
    case Some(i) =>
      assert KeySeq(r) == KeySeq(d);
      forall j ensures Find(r, j) == Find(d, j) {
        FindSameKeys(r, d, j);
      }
    case None =>
      assert r[|d|].0 == k;
      forall j | j != k ensures Find(r, j) == Find(d, j) {
        var fd := Find(d, j);
        if fd.Some? {
          assert r[fd.value].0 == j;
        } else {
          assert forall p :: 0 <= p < |d| ==> r[p].0 == d[p].0;
        }
      }
  }

  /** `d[k] = v` keeps the keys and their order, appending `k` when it is new,
      and never introduces a duplicate key. */
  lemma SetKeys<V>(d: Dict<V>, k: string, v: V)
    ensures Keys(Set(d, k, v)) == Keys(d) + {k}
    ensures KeySeq(Set(d, k, v)) == if k in Keys(d) then KeySeq(d) else KeySeq(d) + [k]
    ensures UniqueKeys(d) ==> UniqueKeys(Set(d, k, v))
  {
    var r := Set(d, k, v);
    match Find(d, k)
    case Some(i) =>
      assert KeySeq(r) == KeySeq(d);
      assert Keys(r) == Keys(d) by {
        forall x | x in Keys(d) ensures x in Keys(r) {
          var p :| 0 <= p < |d| && d[p].0 == x;
          assert r[p].0 == x;
        }
      }
    case None =>
      assert KeySeq(r) == KeySeq(d) + [k];
      assert r[|d|].0 == k;
      assert Keys(r) == Keys(d) + {k} by {
        forall x | x in Keys(d) ensures x in Keys(r) {
          var p :| 0 <= p < |d| && d[p].0 == x;
          assert r[p].0 == x;
        }
      }
  }
}

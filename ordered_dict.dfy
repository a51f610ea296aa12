/**
 * A Python `dict` with string keys: a map together with the order in
 * which its keys were first inserted (iteration over `keys()`/`values()`
 * follows that order, and so does `json.dump`).
 */
module OrderedDicts {

  datatype ODict<V> = ODict(order: seq<string>, entries: map<string, V>) {

    ghost predicate Valid() {
      && (forall i, j :: 0 <= i < j < |order| ==> order[i] != order[j])
      && (forall k :: k in entries <==> k in order)
    }

    predicate Has(k: string) {
      k in entries
    }
  }

  function Empty<V>(): (d: ODict<V>)
    ensures d.Valid() && d.entries == map[]
  {
    ODict([], map[])
  }

  /** `d[k] = v`: overwrite in place when `k` is present, otherwise append
      `k` at the end of the key order. */
  function Put<V>(d: ODict<V>, k: string, v: V): (r: ODict<V>)
    requires d.Valid()
    ensures r.Valid()
    ensures r.entries == d.entries[k := v]
    ensures r.order == if k in d.entries then d.order else d.order + [k]
  {
    if k in d.entries then ODict(d.order, d.entries[k := v])
    else ODict(d.order + [k], d.entries[k := v])
  }

  /** Storing the value a key already holds changes nothing. */
  lemma PutSameValue<V>(d: ODict<V>, k: string)
    requires d.Valid() && k in d.entries
    ensures Put(d, k, d.entries[k]) == d
  {
    assert d.entries[k := d.entries[k]] == d.entries;
  }

  /** Storing twice under one key keeps the key's place and the second value. */
  lemma PutTwice<V>(d: ODict<V>, k: string, v: V, w: V)
    requires d.Valid()
    ensures Put(Put(d, k, v), k, w) == Put(d, k, w)
  {
    assert d.entries[k := v][k := w] == d.entries[k := w];
  }
}

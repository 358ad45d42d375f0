// A JavaScript `Map` with string keys, as the production-line builder uses it: entries kept
// in insertion order, `set` on an existing key replacing the value in place.
module OrderedMaps {
  import opened Wrappers

  datatype Entry<V> = Entry(k: string, v: V)

  /** No key occurs twice. */
  predicate DistinctKeys<V>(m: seq<Entry<V>>) {
    forall i, j :: 0 <= i < j < |m| ==> m[i].k != m[j].k
  }

  /** The position of the first entry with key `k`. */
  function Find<V>(m: seq<Entry<V>>, k: string): (r: Option<nat>)
    ensures r.Some? ==> r.value < |m| && m[r.value].k == k
    ensures r.Some? ==> forall i :: 0 <= i < r.value ==> m[i].k != k
    ensures r.None? <==> forall i :: 0 <= i < |m| ==> m[i].k != k
  {
    if |m| == 0 then None
    else if m[0].k == k then Some(0)
    else
      match Find(m[1..], k)
      case None => None
      case Some(i) => Some(i + 1)
  }

  /** `map.has(k)` */
  predicate Has<V>(m: seq<Entry<V>>, k: string) {
    Find(m, k).Some?
  }

  /** `map.get(k)` */
  function Get<V>(m: seq<Entry<V>>, k: string): (r: Option<V>)
    ensures r.Some? <==> Has(m, k)
  {
    match Find(m, k)
    case None => None
    case Some(i) => Some(m[i].v)
  }

  /** `map.set(k, v)`: the value of an existing key is replaced where it stands; a new key goes last. */
  function Put<V>(m: seq<Entry<V>>, k: string, v: V): (r: seq<Entry<V>>)
    ensures |r| == if Has(m, k) then |m| else |m| + 1
    ensures forall i :: 0 <= i < |m| ==> r[i].k == m[i].k
    ensures !Has(m, k) ==> r[|m|] == Entry(k, v)
  {
    match Find(m, k)
    case None => m + [Entry(k, v)]
    case Some(i) => m[i := Entry(k, v)]
  }

  /** After `set`, `get` of that key gives the new value and every other key is untouched. */
  lemma PutGet<V>(m: seq<Entry<V>>, k: string, v: V, k2: string)
    ensures Get(Put(m, k, v), k2) == if k2 == k then Some(v) else Get(m, k2)
  {
    var r := Put(m, k, v);
    if Find(m, k2).Some? {
      var j := Find(m, k2).value;
      if k2 == k {
        assert r[j] == Entry(k, v);
      } else {
        assert Find(r, k2) == Some(j) by {
          FindAt(r, k2, j);
        }
      }
    } else if k2 == k {
      assert Find(r, k2) == Some(|m|) by {
        FindAt(r, k2, |m|);
      }
    } else {
      assert Find(r, k2).None?;
    }
  }

  /** After `set`, the map has exactly the old keys and the new one. */
  lemma PutHas<V>(m: seq<Entry<V>>, k: string, v: V, k2: string)
    ensures Has(Put(m, k, v), k2) <==> k2 == k || Has(m, k2)
  {
    PutGet(m, k, v, k2);
  }

  lemma FindAt<V>(m: seq<Entry<V>>, k: string, j: nat)
    requires j < |m| && m[j].k == k && forall i :: 0 <= i < j ==> m[i].k != k
    ensures Find(m, k) == Some(j)
  {
  }

  /** `set` keeps the keys distinct. */
  lemma PutDistinct<V>(m: seq<Entry<V>>, k: string, v: V)
    requires DistinctKeys(m)
    ensures DistinctKeys(Put(m, k, v))
  {
    var r := Put(m, k, v);
    forall i, j | 0 <= i < j < |r|
      ensures r[i].k != r[j].k
    {
      if j == |m| {
        assert r[j].k == k && !Has(m, k);
        assert m[i].k != k;
      } else {
        assert r[i].k == m[i].k && r[j].k == m[j].k;
      }
    }
  }

  /** `set` keeps a property every entry has, if the new entry has it too. */
  lemma PutKeeps<V>(m: seq<Entry<V>>, k: string, v: V, p: Entry<V> -> bool)
    requires forall i :: 0 <= i < |m| ==> p(m[i])
    requires p(Entry(k, v))
    ensures forall i :: 0 <= i < |Put(m, k, v)| ==> p(Put(m, k, v)[i])
  {
  }

  /** With distinct keys, the entry at position `i` is the one `get` finds. */
  lemma GetAt<V>(m: seq<Entry<V>>, i: nat)
    requires DistinctKeys(m) && i < |m|
    ensures Get(m, m[i].k) == Some(m[i].v)
  {
    FindAt(m, m[i].k, i);
  }

  /** `get` finds an entry exactly when some position holds its key. */
  lemma HasAt<V>(m: seq<Entry<V>>, k: string)
    ensures Has(m, k) <==> exists i :: 0 <= i < |m| && m[i].k == k
  {
    if Has(m, k) {
      assert m[Find(m, k).value].k == k;
    }
  }

  /** `Array.from(map.values())` */
  function Values<V>(m: seq<Entry<V>>): (r: seq<V>)
    ensures |r| == |m| && forall i :: 0 <= i < |m| ==> r[i] == m[i].v
  {
    if |m| == 0 then [] else [m[0].v] + Values(m[1..])
  }

  /** The keys, in insertion order. */
  function KeySeq<V>(m: seq<Entry<V>>): (r: seq<string>)
    ensures |r| == |m| && forall i :: 0 <= i < |m| ==> r[i] == m[i].k
  {
    if |m| == 0 then [] else [m[0].k] + KeySeq(m[1..])
  }

  /** `Has` is membership in the keys. */
  lemma HasIffKey<V>(m: seq<Entry<V>>, k: string)
    ensures Has(m, k) <==> k in KeySeq(m)
  {
    if Has(m, k) {
      assert KeySeq(m)[Find(m, k).value] == k;
    }
  }
}

/** What canonicalisation guarantees of its result, and that it is a fixpoint. */
module StableJsonProps {
  import opened Wrappers
  import opened Strings
  import opened JsValues
  import opened StableJson

  /**
   * A value in canonical form: no bigint, symbol or function anywhere; every object has its
   * keys in canonical order and no undefined or `__proto__` field; and so on at every nesting level.
   */
  predicate IsStable(v: JsValue) {
    match v
    case JBigInt(_) => false
    case JSymbol(_) => false
    case JFunction => false
    case JArray(es) => forall i :: 0 <= i < |es| ==> IsStable(es[i])
    case JObject(fs) =>
      && CanonicalSorted(fs)
      && forall i :: 0 <= i < |fs| ==> Kept(fs[i]) && IsStable(fs[i].value)
    case _ => true
  }

  lemma {:induction false} InsertIndexSorted(fs: seq<Field>, f: Field)
    requires IsArrayIndex(f.key)
    requires CanonicalSorted(fs)
    requires forall i :: 0 <= i < |fs| ==> fs[i].key != f.key
    ensures CanonicalSorted(InsertIndexField(fs, f))
    decreases |fs|
  {
    if |fs| == 0 || !IsArrayIndex(fs[0].key) || DigitsValue(fs[0].key) > DigitsValue(f.key) {
      var r := [f] + fs;
      assert InsertIndexField(fs, f) == r;
      forall i, j | 0 <= i < j < |r| ensures CanonicalLess(r[i].key, r[j].key) {
        if i == 0 && j > 1 {
          assert CanonicalLess(fs[0].key, fs[j - 1].key);
        }
      }
    } else {
      if DigitsValue(fs[0].key) == DigitsValue(f.key) {
        ArrayIndexInjective(fs[0].key, f.key);
      }
      InsertIndexSorted(fs[1..], f);
      var rest := InsertIndexField(fs[1..], f);
      var r := [fs[0]] + rest;
      assert InsertIndexField(fs, f) == r;
      forall i, j | 0 <= i < j < |r| ensures CanonicalLess(r[i].key, r[j].key) {
        if i == 0 {
          assert r[j] in multiset(rest);
          assert r[j] in multiset(fs[1..]) + multiset{f};
          if r[j] != f {
            assert r[j] in fs[1..];
            var k :| 0 <= k < |fs[1..]| && fs[1..][k] == r[j];
            assert CanonicalLess(fs[0].key, fs[k + 1].key);
          }
        }
      }
    }
  }

  /** Non-index keys already in `out` never exceed a key still to be inserted. */
  predicate KeysBelow(out: seq<Field>, todo: seq<Field>) {
    forall g, j :: g in out && 0 <= j < |todo| && !IsArrayIndex(g.key) ==> !StrLess(todo[j].key, g.key)
  }

  lemma ObjectSetMembers(out: seq<Field>, k: string, v: JsValue)
    ensures forall g :: g in ObjectSet(out, k, v) ==> g in out || g == Field(k, v)
  {
    match KeyIndex(out, k)
    case Some(i) =>
      assert ObjectSet(out, k, v) == out[..i] + [Field(k, v)] + out[i + 1..];
    case None =>
      if IsArrayIndex(k) {
        var r := InsertIndexField(out, Field(k, v));
        assert forall g :: g in r ==> g in multiset(out) + multiset{Field(k, v)};
      }
  }

  lemma ObjectSetSorted(out: seq<Field>, k: string, v: JsValue)
    requires CanonicalSorted(out)
    requires forall g :: g in out && !IsArrayIndex(g.key) ==> !StrLess(k, g.key)
    ensures CanonicalSorted(ObjectSet(out, k, v))
  {
    var r := ObjectSet(out, k, v);
    match KeyIndex(out, k)
    case Some(i) =>
      assert r == out[..i] + [Field(k, v)] + out[i + 1..];
      forall a, b | 0 <= a < b < |r| ensures CanonicalLess(r[a].key, r[b].key) {
        assert r[a].key == out[a].key && r[b].key == out[b].key;
      }
    case None =>
      if IsArrayIndex(k) {
        InsertIndexSorted(out, Field(k, v));
      } else {
        assert r == out + [Field(k, v)];
        forall a, b | 0 <= a < b < |r| ensures CanonicalLess(r[a].key, r[b].key) {
          if b < |out| {
            assert r[a] == out[a] && r[b] == out[b];
          } else {
            assert r[a] == out[a] && r[b] == Field(k, v);
            if !IsArrayIndex(out[a].key) {
              assert out[a] in out;
              StrLessTotal(out[a].key, k);
            }
          }
        }
      }
  }

  /** Inserting fields in code-unit order yields an object whose keys are in canonical order. */
  lemma {:induction false} AssembleSorted(todo: seq<Field>, out: seq<Field>)
    requires CanonicalSorted(out)
    requires SortedLex(todo)
    requires KeysBelow(out, todo)
    ensures CanonicalSorted(Assemble(todo, out))
    ensures forall f :: f in Assemble(todo, out) ==> f in out || (f in todo && Kept(f))
    decreases |todo|
  {
    if |todo| > 0 {
      var f := todo[0];
      assert KeysBelow(out, todo[1..]);
      if Kept(f) {
        var out' := ObjectSet(out, f.key, f.value);
        ObjectSetMembers(out, f.key, f.value);
        ObjectSetSorted(out, f.key, f.value);
        assert KeysBelow(out', todo[1..]) by {
          forall g, j | g in out' && 0 <= j < |todo[1..]| && !IsArrayIndex(g.key)
            ensures !StrLess(todo[1..][j].key, g.key)
          {
            assert todo[1..][j] == todo[j + 1];
            if g == f {
              assert !StrLess(todo[j + 1].key, todo[0].key);
            }
          }
        }
        AssembleSorted(todo[1..], out');
      } else {
        AssembleSorted(todo[1..], out);
      }
    }
  }

  lemma ObjectSetNewKey(out: seq<Field>, k: string, v: JsValue)
    requires forall g :: g in out ==> g.key != k
    ensures forall g :: g in ObjectSet(out, k, v) <==> g in out || g == Field(k, v)
  {
    if IsArrayIndex(k) {
      var r := InsertIndexField(out, Field(k, v));
      assert forall g :: g in r <==> g in multiset(out) + multiset{Field(k, v)};
    }
  }

  /** With distinct keys not yet in `out`, assembling keeps exactly the defined fields. */
  lemma {:induction false} AssembleFields(todo: seq<Field>, out: seq<Field>)
    requires UniqueKeys(todo)
    requires forall f, g :: f in todo && g in out ==> f.key != g.key
    ensures forall f :: f in Assemble(todo, out) <==> f in out || (f in todo && Kept(f))
    decreases |todo|
  {
    if |todo| > 0 {
      var f := todo[0];
      var rest := todo[1..];
      assert todo == [f] + rest;
      assert UniqueKeys(rest);
      assert forall g :: g in rest ==> g.key != f.key by {
        forall g | g in rest ensures g.key != f.key {
          var j :| 0 <= j < |rest| && rest[j] == g;
          assert todo[j + 1] == g;
        }
      }
      if Kept(f) {
        var out' := ObjectSet(out, f.key, f.value);
        ObjectSetNewKey(out, f.key, f.value);
        assert forall h, g :: h in rest && g in out' ==> h.key != g.key;
        AssembleFields(rest, out');
        assert Assemble(todo, out) == Assemble(rest, out');
      } else {
        AssembleFields(rest, out);
        assert Assemble(todo, out) == Assemble(rest, out);
      }
    }
  }

  /** Fields whose keys strictly increase in code-unit order. */
  predicate StrictlyLex(fs: seq<Field>) {
    forall i, j :: 0 <= i < j < |fs| ==> StrLess(fs[i].key, fs[j].key)
  }

  /** A field below every key of a strictly sorted list can go in front of it. */
  lemma ConsStrict(h: Field, rest: seq<Field>)
    requires StrictlyLex(rest)
    requires forall g :: g in rest ==> StrLess(h.key, g.key)
    ensures StrictlyLex([h] + rest)
  {
    var r := [h] + rest;
    forall i, j | 0 <= i < j < |r| ensures StrLess(r[i].key, r[j].key) {
      if i == 0 {
        assert r[j] in rest;
      } else {
        assert r[i] == rest[i - 1] && r[j] == rest[j - 1];
      }
    }
  }

  lemma InsertByKeyMembers(f: Field, sorted: seq<Field>)
    requires SortedLex(sorted)
    ensures forall g :: g in InsertByKey(f, sorted) ==> g == f || g in sorted
  {
    var r := InsertByKey(f, sorted);
    forall g | g in r ensures g == f || g in sorted {
      assert g in multiset(r);
    }
  }

  lemma {:induction false} InsertByKeyStrict(f: Field, sorted: seq<Field>)
    requires SortedLex(sorted) && StrictlyLex(sorted)
    requires forall g :: g in sorted ==> g.key != f.key
    ensures StrictlyLex(InsertByKey(f, sorted))
    decreases |sorted|
  {
    if |sorted| == 0 {
      assert InsertByKey(f, sorted) == [f];
    } else if !StrLess(sorted[0].key, f.key) {
      assert InsertByKey(f, sorted) == [f] + sorted;
      assert sorted[0] in sorted;
      StrLessTotal(f.key, sorted[0].key);
      forall g | g in sorted ensures StrLess(f.key, g.key) {
        var q :| 0 <= q < |sorted| && sorted[q] == g;
        if q > 0 {
          StrLessTransitive(f.key, sorted[0].key, g.key);
        }
      }
      ConsStrict(f, sorted);
    } else {
      var tail := sorted[1..];
      assert forall g :: g in tail ==> g in sorted;
      InsertByKeyStrict(f, tail);
      var rest := InsertByKey(f, tail);
      assert InsertByKey(f, sorted) == [sorted[0]] + rest;
      InsertByKeyMembers(f, tail);
      forall g | g in rest ensures StrLess(sorted[0].key, g.key) {
        if g != f {
          var q :| 0 <= q < |tail| && tail[q] == g;
          assert sorted[q + 1] == g;
        }
      }
      ConsStrict(sorted[0], rest);
    }
  }

  /** Sorting fields with distinct keys gives strictly increasing keys. */
  lemma {:induction false} SortByKeyStrict(fs: seq<Field>)
    requires UniqueKeys(fs)
    ensures StrictlyLex(SortByKey(fs))
    decreases |fs|
  {
    if |fs| > 0 {
      assert fs == [fs[0]] + fs[1..];
      SortByKeyStrict(fs[1..]);
      forall g | g in SortByKey(fs[1..]) ensures g.key != fs[0].key {
        assert g in multiset(fs[1..]);
        var j :| 0 <= j < |fs[1..]| && fs[1..][j] == g;
        assert fs[j + 1] == g;
      }
      InsertByKeyStrict(fs[0], SortByKey(fs[1..]));
    }
  }

  /** Every field of a stabilised object comes from stabilising a field of the original. */
  lemma StabilizedObjectFields(fs: seq<Field>)
    ensures forall f :: f in Stabilize(JObject(fs)).fields ==>
      Kept(f) && exists i :: 0 <= i < |fs| && f == Field(fs[i].key, Stabilize(fs[i].value))
  {
    var sf := StabilizeFields(fs);
    var sorted := SortByKey(sf);
    var out := Assemble(sorted, []);
    assert Stabilize(JObject(fs)).fields == out;
    AssembleSorted(sorted, []);
    forall f | f in out
      ensures Kept(f) && exists i :: 0 <= i < |fs| && f == Field(fs[i].key, Stabilize(fs[i].value))
    {
      assert f in sorted;
      assert f in multiset(sf);
      var i :| 0 <= i < |sf| && sf[i] == f;
    }
  }

  /** No property named `__proto__` survives: the assignment that would create it goes to the prototype setter. */
  lemma ProtoKeyDropped(fs: seq<Field>, v: JsValue)
    ensures Field(ProtoKey, v) !in Stabilize(JObject(fs)).fields
  {
    StabilizedObjectFields(fs);
  }

  /** The result of `stabilize` is in canonical form at every nesting level. */
  lemma {:induction false} StabilizeIsStable(v: JsValue)
    ensures IsStable(Stabilize(v))
  {
    match v
    case JArray(es) =>
      forall i | 0 <= i < |es| {
        StabilizeIsStable(es[i]);
      }
    case JObject(fs) =>
      forall i | 0 <= i < |fs| {
        StabilizeIsStable(fs[i].value);
      }
      AssembleSorted(SortByKey(StabilizeFields(fs)), []);
      StabilizedObjectFields(fs);
      var out := Stabilize(v).fields;
      forall k | 0 <= k < |out| ensures Kept(out[k]) && IsStable(out[k].value) {
        assert out[k] in out;
      }
    case _ =>
  }

  /** A value already in canonical form is left exactly as it is. */
  lemma {:induction false} StableIsFixpoint(v: JsValue)
    requires IsStable(v)
    ensures Stabilize(v) == v
  {
    match v
    case JArray(es) =>
      forall i | 0 <= i < |es| ensures Stabilize(es[i]) == es[i] {
        StableIsFixpoint(es[i]);
      }
      assert StabilizeAll(es) == es;
    case JObject(fs) =>
      forall i | 0 <= i < |fs| ensures Stabilize(fs[i].value) == fs[i].value {
        StableIsFixpoint(fs[i].value);
      }
      assert StabilizeFields(fs) == fs;
      CanonicalLessIsStrictOrder();
      assert UniqueKeys(fs);
      var sorted := SortByKey(fs);
      SortByKeyStrict(fs);
      assert UniqueKeys(sorted) by {
        StrLessIsStrictOrder();
      }
      assert forall f :: f in sorted <==> f in fs by {
        assert forall f :: f in sorted <==> f in multiset(fs);
      }
      AssembleSorted(sorted, []);
      AssembleFields(sorted, []);
      var out := Assemble(sorted, []);
      assert forall f :: f in out <==> f in fs;
      StrictlySortedUnique(out, fs, (a, b) => CanonicalLess(a, b));
    case _ =>
  }

  /** Stabilising twice is the same as stabilising once. */
  lemma StabilizeIdempotent(v: JsValue)
    ensures Stabilize(Stabilize(v)) == Stabilize(v)
  {
    StabilizeIsStable(v);
    StableIsFixpoint(Stabilize(v));
  }

  lemma StabilizeFieldsSameMembers(f1: seq<Field>, f2: seq<Field>)
    requires forall f :: f in f1 <==> f in f2
    ensures forall g :: g in StabilizeFields(f1) <==> g in StabilizeFields(f2)
  {
    var s1 := StabilizeFields(f1);
    var s2 := StabilizeFields(f2);
    forall g | g in s1 ensures g in s2 {
      var i :| 0 <= i < |s1| && s1[i] == g;
      assert f1[i] in f2;
      var j :| 0 <= j < |f2| && f2[j] == f1[i];
      assert s2[j] == g;
    }
    forall g | g in s2 ensures g in s1 {
      var j :| 0 <= j < |s2| && s2[j] == g;
      assert f2[j] in f1;
      var i :| 0 <= i < |f1| && f1[i] == f2[j];
      assert s1[i] == g;
    }
  }

  lemma SortedFieldsUnique(s1: seq<Field>, s2: seq<Field>)
    requires UniqueKeys(s1) && UniqueKeys(s2)
    requires forall g :: g in s1 <==> g in s2
    ensures SortByKey(s1) == SortByKey(s2)
  {
    var o1 := SortByKey(s1);
    var o2 := SortByKey(s2);
    SortByKeyStrict(s1);
    SortByKeyStrict(s2);
    assert forall f :: f in o1 <==> f in o2 by {
      forall f ensures f in o1 <==> f in o2 {
        calc {
          f in o1;
          f in multiset(o1);
          f in multiset(s1);
          f in s1;
          f in s2;
          f in multiset(s2);
          f in multiset(o2);
          f in o2;
        }
      }
    }
    StrLessIsStrictOrder();
    assert StrictlySortedBy(o1, (a, b) => StrLess(a, b));
    assert StrictlySortedBy(o2, (a, b) => StrLess(a, b));
    StrictlySortedUnique(o1, o2, (a, b) => StrLess(a, b));
  }

  /**
   * Two objects holding the same key/value pairs, in whatever insertion order, stabilise
   * to the same value.
   */
  lemma StabilizeOrderIndependent(f1: seq<Field>, f2: seq<Field>)
    requires UniqueKeys(f1) && UniqueKeys(f2)
    requires forall f :: f in f1 <==> f in f2
    ensures Stabilize(JObject(f1)) == Stabilize(JObject(f2))
  {
    StabilizeFieldsSameMembers(f1, f2);
    SortedFieldsUnique(StabilizeFields(f1), StabilizeFields(f2));
  }

  /** `JSON.stringify` never throws on a canonical value. */
  lemma {:induction false} StableNeverThrows(v: JsValue)
    requires IsStable(v)
    ensures Stringify(v) != TypeError
  {
    match v
    case JArray(es) =>
      StableElemsNeverThrow(es);
    case JObject(fs) =>
      StableFieldsNeverThrow(fs);
    case _ =>
  }

  lemma {:induction false} StableElemsNeverThrow(es: seq<JsValue>)
    requires forall i :: 0 <= i < |es| ==> IsStable(es[i])
    ensures StringifyElems(es).Some?
    decreases es, 0
  {
    if |es| > 0 {
      StableNeverThrows(es[0]);
      StableElemsNeverThrow(es[1..]);
    }
  }

  lemma {:induction false} StableFieldsNeverThrow(fs: seq<Field>)
    requires forall i :: 0 <= i < |fs| ==> IsStable(fs[i].value)
    ensures StringifyFields(fs).Some?
    decreases fs, 0
  {
    if |fs| > 0 {
      StableNeverThrows(fs[0].value);
      StableFieldsNeverThrow(fs[1..]);
    }
  }

  /** The canonical text of any defined value is a string: no TypeError, never `undefined`. */
  lemma StableJsonStringifyIsText(v: JsValue)
    requires v != JUndefined
    ensures StableJsonStringify(v).Text?
  {
    StabilizeIsStable(v);
    StableNeverThrows(Stabilize(v));
  }

  /**
   * `stableJsonStringify`: canonicalising the value first changes nothing, a defined value
   * always gives text, and `undefined` gives no text.
   */
  lemma StableJsonStringifySpec(v: JsValue)
    ensures StableJsonStringify(Stabilize(v)) == StableJsonStringify(v)
    ensures v != JUndefined ==> StableJsonStringify(v).Text?
    ensures v == JUndefined ==> StableJsonStringify(v) == Omitted
  {
    StabilizeIdempotent(v);
    if v != JUndefined {
      StableJsonStringifyIsText(v);
    }
  }

  /** Objects holding the same properties in different insertion orders have the same canonical text. */
  lemma StableJsonStringifyOrderIndependent(f1: seq<Field>, f2: seq<Field>)
    requires UniqueKeys(f1) && UniqueKeys(f2)
    requires forall f :: f in f1 <==> f in f2
    ensures StableJsonStringify(JObject(f1)) == StableJsonStringify(JObject(f2))
  {
    StabilizeOrderIndependent(f1, f2);
  }
}

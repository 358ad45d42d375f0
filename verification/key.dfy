// Item-key fingerprints (src/jei/indexing/key.ts): every concrete item instance is named by
// the string `id::meta::canonical-nbt`, and the planner keys its maps on that string.
module Key {
  import opened Wrappers
  import opened Strings
  import opened JsValues
  import opened StableJson
  import opened StableJsonProps
  import opened PackTypes

  /** The text `${meta ?? ''}` puts between the separators. */
  function MetaText(meta: Option<Meta>): string {
    match meta
    case None => ""
    case Some(MetaNum(n)) => NumberText(n)
    case Some(MetaStr(s)) => s
  }

  /** `nbt ?? null` */
  function NbtOrNull(nbt: JsValue): (r: JsValue)
    ensures r != JUndefined
    ensures (nbt.JUndefined? || nbt.JNull?) ==> r == JNull
    ensures !(nbt.JUndefined? || nbt.JNull?) ==> r == nbt
  {
    if nbt.JUndefined? || nbt.JNull? then JNull else nbt
  }

  /** The canonical JSON text of a defined value; `stableJsonStringify` gives a string for it. */
  function CanonicalText(v: JsValue): string
    requires v != JUndefined
  {
    StableJsonStringifyIsText(v);
    StableJsonStringify(v).text
  }

  /** `itemKeyHashFromParts(id, meta, nbt)` */
  function ItemKeyHashFromParts(id: string, meta: Option<Meta>, nbt: JsValue): (r: string)
    ensures StartsWith(r, id + "::" + MetaText(meta) + "::")
  {
    id + "::" + MetaText(meta) + "::" + CanonicalText(NbtOrNull(nbt))
  }

  /** `itemKeyHash(key)` */
  function ItemKeyHash(k: ItemKey): (r: string)
    ensures StartsWith(r, k.id + "::" + MetaText(k.meta) + "::")
  {
    ItemKeyHashFromParts(k.id, k.meta, k.nbt)
  }

  /** `isExactItemKey(key)`: the key pins a variant (meta or nbt present). */
  predicate IsExactItemKey(k: ItemKey) {
    k.meta.Some? || k.nbt != JUndefined
  }

  /** `stackItemToItemKey(stack)`: the stack's id, with meta and nbt copied only when defined. */
  function StackItemToItemKey(s: Stack): (k: ItemKey)
    requires s.ItemStack?
    ensures k.id == s.id
    ensures s.meta.Some? ==> k.meta == s.meta
    ensures s.nbt != JUndefined ==> k.nbt == s.nbt
    ensures IsExactItemKey(k) <==> s.meta.Some? || s.nbt != JUndefined
  {
    ItemKey(s.id, s.meta, s.nbt)
  }

  /** An absent meta and the meta `""` give the same fingerprint. */
  lemma HashAbsentMetaIsEmpty(id: string, nbt: JsValue)
    ensures ItemKeyHashFromParts(id, None, nbt) == ItemKeyHashFromParts(id, Some(MetaStr("")), nbt)
  {
  }

  /** An absent nbt and the nbt `null` give the same fingerprint. */
  lemma HashAbsentNbtIsNull(id: string, meta: Option<Meta>)
    ensures ItemKeyHashFromParts(id, meta, JUndefined) == ItemKeyHashFromParts(id, meta, JNull)
  {
  }

  /** The fingerprint depends on the nbt only through its canonical form. */
  lemma HashDependsOnCanonicalNbt(id: string, meta: Option<Meta>, n1: JsValue, n2: JsValue)
    requires n1 != JUndefined && n2 != JUndefined
    requires Stabilize(n1) == Stabilize(n2)
    ensures ItemKeyHashFromParts(id, meta, n1) == ItemKeyHashFromParts(id, meta, n2)
  {
    if n1.JNull? {
      assert Stabilize(n2) == JNull;
    }
    if n2.JNull? {
      assert Stabilize(n1) == JNull;
    }
  }

  /**
   * Two keys with the same id and meta whose nbt objects hold the same properties in
   * different insertion orders get the same fingerprint.
   */
  lemma HashNbtOrderIndependent(id: string, meta: Option<Meta>, f1: seq<Field>, f2: seq<Field>)
    requires UniqueKeys(f1) && UniqueKeys(f2)
    requires forall f :: f in f1 <==> f in f2
    ensures ItemKeyHash(ItemKey(id, meta, JObject(f1))) == ItemKeyHash(ItemKey(id, meta, JObject(f2)))
  {
    StabilizeOrderIndependent(f1, f2);
    HashDependsOnCanonicalNbt(id, meta, JObject(f1), JObject(f2));
  }

  /** With `:`-free meta texts, equal strings around the first `::` have equal parts. */
  lemma {:induction false} SplitAtSeparator(m1: string, m2: string, t1: string, t2: string)
    requires forall i :: 0 <= i < |m1| ==> m1[i] != ':'
    requires forall i :: 0 <= i < |m2| ==> m2[i] != ':'
    requires m1 + "::" + t1 == m2 + "::" + t2
    ensures m1 == m2 && t1 == t2
  {
    var s1 := m1 + "::" + t1;
    var s2 := m2 + "::" + t2;
    assert s1[|m1|] == ':' && s2[|m2|] == ':';
    assert forall i :: 0 <= i < |m1| ==> s1[i] != ':';
    assert forall i :: 0 <= i < |m2| ==> s2[i] != ':';
    assert |m1| == |m2|;
    assert m1 == s1[..|m1|] == s2[..|m2|] == m2;
    assert t1 == s1[|m1| + 2..] == s2[|m2| + 2..] == t2;
  }

  /**
   * Within one item id, the fingerprint tells variants apart: when neither meta text
   * contains `:`, equal fingerprints mean equal meta texts and equal canonical nbt texts.
   */
  lemma HashSeparatesVariants(id: string, m1: Option<Meta>, m2: Option<Meta>, n1: JsValue, n2: JsValue)
    requires forall i :: 0 <= i < |MetaText(m1)| ==> MetaText(m1)[i] != ':'
    requires forall i :: 0 <= i < |MetaText(m2)| ==> MetaText(m2)[i] != ':'
    requires ItemKeyHashFromParts(id, m1, n1) == ItemKeyHashFromParts(id, m2, n2)
    ensures MetaText(m1) == MetaText(m2)
    ensures CanonicalText(NbtOrNull(n1)) == CanonicalText(NbtOrNull(n2))
  {
    HashParts(id, m1, n1);
    HashParts(id, m2, n2);
    StripPrefix(id + "::", MetaText(m1) + "::" + CanonicalText(NbtOrNull(n1)), MetaText(m2) + "::" + CanonicalText(NbtOrNull(n2)));
    SplitAtSeparator(MetaText(m1), MetaText(m2), CanonicalText(NbtOrNull(n1)), CanonicalText(NbtOrNull(n2)));
  }

  /**
   * `itemKeyHash` names a variant: two keys with the same id and `:`-free meta texts get the
   * same fingerprint exactly when their meta texts and their canonical nbt texts agree.
   */
  lemma ItemKeyHashIdentifiesVariant(k1: ItemKey, k2: ItemKey)
    requires k1.id == k2.id
    requires forall i :: 0 <= i < |MetaText(k1.meta)| ==> MetaText(k1.meta)[i] != ':'
    requires forall i :: 0 <= i < |MetaText(k2.meta)| ==> MetaText(k2.meta)[i] != ':'
    ensures ItemKeyHash(k1) == ItemKeyHash(k2) <==>
      MetaText(k1.meta) == MetaText(k2.meta) && CanonicalText(NbtOrNull(k1.nbt)) == CanonicalText(NbtOrNull(k2.nbt))
  {
    if ItemKeyHash(k1) == ItemKeyHash(k2) {
      HashSeparatesVariants(k1.id, k1.meta, k2.meta, k1.nbt, k2.nbt);
    }
  }

  /** The fingerprint is the id and `::` followed by the rest. */
  lemma HashParts(id: string, m: Option<Meta>, n: JsValue)
    ensures ItemKeyHashFromParts(id, m, n) == (id + "::") + (MetaText(m) + "::" + CanonicalText(NbtOrNull(n)))
  {
    Regroup(id, "::", MetaText(m), "::", CanonicalText(NbtOrNull(n)));
  }

  lemma Regroup(a: string, b: string, c: string, d: string, e: string)
    ensures a + b + c + d + e == (a + b) + (c + d + e)
  {
  }

  lemma StripPrefix(p: string, t1: string, t2: string)
    requires p + t1 == p + t2
    ensures t1 == t2
  {
    assert t1 == (p + t1)[|p|..];
  }

  /** A key built from a stack is exact exactly when the stack carries meta or nbt. */
  lemma StackKeyExactness(s: Stack)
    requires s.ItemStack?
    ensures IsExactItemKey(StackItemToItemKey(s)) <==> s.meta.Some? || s.nbt != JUndefined
    ensures ItemKeyHash(StackItemToItemKey(s)) == ItemKeyHashFromParts(s.id, s.meta, s.nbt)
  {
  }
}

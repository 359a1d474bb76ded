/** Status writes as JSON merge patches (section 2 of RFC 7396). The second write of a
    reconcile is computed against the snapshot taken before the first. */
module StatusPatch {

  /** A JSON value; a leaf is a scalar or an array, which patches replace whole. */
  datatype Json<K, V> = Null | Leaf(value: V) | Obj(fields: map<K, Json<K, V>>)

  function Fields<K, V>(j: Json<K, V>): map<K, Json<K, V>> {
    if j.Obj? then j.fields else map[]
  }

  function Member<K, V>(j: Json<K, V>, k: K): Json<K, V> {
    if k in Fields(j) then Fields(j)[k] else Null
  }

  /** RFC 7396 MergePatch. */
  function Merge<K, V>(target: Json<K, V>, patch: Json<K, V>): Json<K, V>
    decreases patch
  {
    if !patch.Obj? then patch
    else
      Obj(map k | k in Fields(target).Keys + patch.fields.Keys && (k in patch.fields ==> !patch.fields[k].Null?) ::
            if k in patch.fields then Merge(Member(target, k), patch.fields[k]) else Fields(target)[k])
  }

  /** The patch that turns one value into another. */
  function Diff<K, V(==)>(a: Json<K, V>, b: Json<K, V>): Json<K, V>
    decreases b
  {
    if !a.Obj? || !b.Obj? then b
    else
      Obj(map k | k in a.fields.Keys + b.fields.Keys && !(k in a.fields && k in b.fields
          && a.fields[k] == b.fields[k]) ::
            if k in b.fields then Diff(Member(a, k), b.fields[k]) else Null)
  }

  /** Serialized statuses omit absent fields instead of writing null. */
  predicate NoNulls<K, V>(j: Json<K, V>) {
    j.Obj? ==> forall k :: k in j.fields ==> !j.fields[k].Null? && NoNulls(j.fields[k])
  }

  /** One field was not put back to its value in the snapshot `before` after the write
      in between, `first`, had changed it. */
  ghost predicate FieldUnreverted<K, V>(before: Json<K, V>, first: Json<K, V>, final: Json<K, V>, k: K)
    requires final.Obj?
    decreases final, 0
  {
    if k !in final.fields then k in Fields(before) || k !in Fields(first)
    else if k in Fields(before) && Fields(before)[k] == final.fields[k] then k in Fields(first)
        && Fields(first)[k] == final.fields[k]
    else Unreverted(Member(before, k), Member(first, k), final.fields[k])
  }

  /** No field, at any depth, was put back. */
  ghost predicate Unreverted<K, V>(before: Json<K, V>, first: Json<K, V>, final: Json<K, V>)
    decreases final, 1
  {
    final.Obj? ==>
      forall k :: k in Fields(before).Keys + Fields(first).Keys + final.fields.Keys ==>
          FieldUnreverted(before, first, final, k)
  }

  /** What the second write leaves in one field. */
  lemma StoredField<K, V>(before: Json<K, V>, first: Json<K, V>, final: Json<K, V>, k: K)
    requires final.Obj? && NoNulls(final)
    ensures var stored := Fields(Merge(first, Diff(before, final)));
            if k !in final.fields then k in stored <==> k in Fields(first) && k !in Fields(before)
            else if k in Fields(before) && Fields(before)[k] == final.fields[k] then
              (k in stored <==> k in Fields(first)) && (k in Fields(first) ==> stored[k] == Fields(first)[k])
            else k in stored && stored[k] == Merge(Member(first, k), Diff(Member(before, k), final.fields[k]))
  {
    if before.Obj? && k in final.fields && !(k in before.fields && before.fields[k] == final.fields[k]) {
      var sent := Diff(before, final).fields;
      assert k in sent && sent[k] == Diff(Member(before, k), final.fields[k]);
      assert !sent[k].Null?;
    }
  }

  /** The second write stores exactly the in-memory status if and only if the reconcile
      did not put back a field that its first write had changed. */
  lemma {:induction false} SecondWriteExact<K(!new), V>(before: Json<K, V>, first: Json<K, V>, final: Json<K, V>)
    requires NoNulls(final)
    ensures Merge(first, Diff(before, final)) == final <==> Unreverted(before, first, final)
    decreases final
  {
    if final.Obj? {
      var stored := Merge(first, Diff(before, final));
      forall k
        ensures FieldAgrees(stored, final, k) <==>
                  (k in Fields(before).Keys + Fields(first).Keys + final.fields.Keys ==>
                      FieldUnreverted(before, first, final, k))
      {
        StoredField(before, first, final, k);
        if k in final.fields {
          SecondWriteExact(Member(before, k), Member(first, k), final.fields[k]);
        }
      }
      FieldsAgree(stored, final);
    }
  }

  ghost predicate FieldAgrees<K, V>(a: Json<K, V>, b: Json<K, V>, k: K) {
    (k in Fields(a) <==> k in Fields(b)) && (k in Fields(a) && k in Fields(b) ==> Fields(a)[k] == Fields(b)[k])
  }

  lemma FieldsAgree<K(!new), V>(a: Json<K, V>, b: Json<K, V>)
    requires a.Obj? && b.Obj?
    ensures a == b <==> forall k :: FieldAgrees(a, b, k)
  {
    if forall k :: FieldAgrees(a, b, k) {
      forall k ensures k in a.fields <==> k in b.fields { assert FieldAgrees(a, b, k); }
      forall k | k in a.fields ensures a.fields[k] == b.fields[k] { assert FieldAgrees(a, b, k); }
      assert a.fields == b.fields;
    }
  }

  /** A write computed against the stored status itself is always exact. */
  lemma FirstWriteExact<K(!new), V>(before: Json<K, V>, after: Json<K, V>)
    requires NoNulls(after)
    ensures Merge(before, Diff(before, after)) == after
  {
    UnchangedIsUnreverted(before, after);
    SecondWriteExact(before, before, after);
  }

  lemma {:induction false} UnchangedIsUnreverted<K, V>(before: Json<K, V>, after: Json<K, V>)
    ensures Unreverted(before, before, after)
    decreases after
  {
    if after.Obj? {
      forall k | k in after.fields
        ensures Unreverted(Member(before, k), Member(before, k), after.fields[k])
      {
        UnchangedIsUnreverted(Member(before, k), after.fields[k]);
      }
    }
  }
}

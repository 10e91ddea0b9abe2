/**
  The Go types that documents are decoded into, seen as schemas: which JSON
  trees json.Unmarshal accepts for them, and which object keys it ignores.
  Pointers are not distinguished here, because null is accepted by every type.
 */
module Schema {
  import opened MergePatch

  datatype Schema =
    | TInt
    | TBool
    | TStr
    | TStruct(fields: map<string, Schema>)
    | TMap(elem: Schema)
    | TList(elem: Schema)
    | TAny

  /** json.Unmarshal into a value of this type reports no type error. */
  predicate Conforms(s: Schema, j: Json)
    decreases j
  {
    j.Null? ||
    match s
    case TInt => j.Num?
    case TBool => j.Bool?
    case TStr => j.Str?
    case TStruct(fs) => j.Obj? && forall k :: k in j.fields && k in fs ==> Conforms(fs[k], j.fields[k])
    case TMap(e) => j.Obj? && forall k :: k in j.fields ==> Conforms(e, j.fields[k])
    case TList(e) => j.Arr? && forall i :: 0 <= i < |j.items| ==> Conforms(e, j.items[i])
    case TAny => true
  }

  /**
    Whether a patched tree can be decoded depends on the patch alone: if it could
    be on some tree, it can be on every tree that could itself be decoded.
   */
  lemma {:induction false} MergeConforms(s: Schema, t: Json, other: Json, p: Json)
    requires Conforms(s, t)
    requires Conforms(s, Merge(other, p))
    ensures Conforms(s, Merge(t, p))
    decreases p
  {
    if p.Obj? && (s.TStruct? || s.TMap?) {
      var m := Merge(t, p);
      forall k | k in m.fields && (s.TStruct? ==> k in s.fields)
        ensures Conforms(if s.TStruct? then s.fields[k] else s.elem, m.fields[k])
      {
        MergeAt(t, p, k);
        MergeAt(other, p, k);
        var e := if s.TStruct? then s.fields[k] else s.elem;
        if k in p.fields {
          assert Merge(other, p).fields[k] == Merge(Field(other, k), p.fields[k]);
          MergeConforms(e, Field(t, k), Field(other, k), p.fields[k]);
        }
      }
    }
  }
}

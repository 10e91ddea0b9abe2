/**
  JSON trees and JSON Merge Patch (section 2 of RFC 7386), as used by the
  remote-config override engine.
 */
module MergePatch {
  import opened Prelude

  /** A decoded JSON value. Numbers are mathematical integers. */
  datatype Json =
    | Null
    | Bool(b: bool)
    | Num(n: int)
    | Str(s: string)
    | Arr(items: seq<Json>)
    | Obj(fields: map<string, Json>)

  /** Reading a key of a Go map of interface{}: absent keys and non-objects read as nil. */
  function Field(j: Json, k: string): Json {
    if j.Obj? && k in j.fields then j.fields[k] else Null
  }

  function Fields(j: Json): map<string, Json> {
    if j.Obj? then j.fields else map[]
  }

  /**
    The merge of section 2 of RFC 7386, key by key: a null in the patch removes
    the key, any other member is merged into the target's member, and the keys
    the patch does not name are kept.
   */
  function Merge(target: Json, patch: Json): Json
    decreases patch
  {
    if !patch.Obj? then patch
    else
      var base := Fields(target);
      Obj(map k | k in base.Keys + patch.fields.Keys && (k in patch.fields ==> patch.fields[k] != Null)
          :: if k in patch.fields then Merge(Field(target, k), patch.fields[k]) else base[k])
  }

  /** Membership and value of one key after a merge. */
  lemma MergeAt(t: Json, p: Json, k: string)
    requires p.Obj?
    ensures var m := Merge(t, p);
      && m.Obj?
      && (k in m.fields <==> if k in p.fields then p.fields[k] != Null else k in Fields(t))
      && Field(m, k) == (if k !in p.fields then Field(t, k)
                         else if p.fields[k] == Null then Null
                         else Merge(Field(t, k), p.fields[k]))
  {}

  lemma SameFields(a: Json, b: Json)
    requires a.Obj? && b.Obj?
    requires forall k :: (k in a.fields <==> k in b.fields) && Field(a, k) == Field(b, k)
    ensures a == b
  {
    forall k | k in a.fields ensures k in b.fields && a.fields[k] == b.fields[k] {
      assert Field(a, k) == Field(b, k);
    }
    assert a.fields == b.fields;
  }

  /** One more key of the patch merged in. */
  lemma MergeOneMore(t: Json, done: map<string, Json>, k: string, v: Json)
    requires k !in done
    ensures var before, after := Merge(t, Obj(done)).fields, Merge(t, Obj(done[k := v])).fields;
      && Field(Obj(before), k) == Field(t, k)
      && after == if v == Null then before - {k} else before[k := Merge(Field(t, k), v)]
  {
    var before, after := Merge(t, Obj(done)).fields, Merge(t, Obj(done[k := v])).fields;
    var next := if v == Null then before - {k} else before[k := Merge(Field(t, k), v)];
    MergeAt(t, Obj(done), k);
    forall q
      ensures q in after <==> q in next
      ensures Field(Obj(after), q) == Field(Obj(next), q)
    {
      MergeAt(t, Obj(done), q);
      MergeAt(t, Obj(done[k := v]), q);
    }
    SameFields(Obj(after), Obj(next));
  }

  /** The code's loop: copy the target, then delete or assign one key at a time, in any order. */
  method MergePatch(target: Json, patch: Json) returns (r: Json)
    ensures r == Merge(target, patch)
    decreases patch
  {
    if !patch.Obj? {
      return patch;
    }
    var out := Fields(target);
    var todo := patch.fields.Keys;
    ghost var done: map<string, Json> := map[];
    assert Merge(target, Obj(done)).fields == out;
    while todo != {}
      invariant todo <= patch.fields.Keys && done == patch.fields - todo
      invariant out == Merge(target, Obj(done)).fields
      decreases todo
    {
      var k :| k in todo;
      todo := todo - {k};
      var v := patch.fields[k];
      MergeOneMore(target, done, k, v);
      if v == Null {
        out := out - {k};
      } else {
        var merged := MergePatch(if k in out then out[k] else Null, v);
        out := out[k := merged];
      }
      done := done[k := v];
      assert done == patch.fields - todo;
    }
    assert done == patch.fields;
    r := Obj(out);
  }

  lemma {:induction false} MergeIdempotent(t: Json, p: Json)
    ensures Merge(Merge(t, p), p) == Merge(t, p)
    decreases p
  {
    if p.Obj? {
      var once, twice := Merge(t, p), Merge(Merge(t, p), p);
      forall k
        ensures k in once.fields <==> k in twice.fields
        ensures Field(once, k) == Field(twice, k)
      {
        MergeAt(t, p, k);
        MergeAt(once, p, k);
        if k in p.fields { MergeIdempotent(Field(t, k), p.fields[k]); }
      }
      SameFields(once, twice);
    }
  }

  // ---------------------------------------------------------------------
  // When two patches can be merged into one
  // ---------------------------------------------------------------------

  /** No member, at any depth of nested objects, is null. Arrays are not looked into. */
  predicate NullFree(j: Json) {
    j.Obj? ==> forall k :: k in j.fields ==> j.fields[k] != Null && NullFree(j.fields[k])
  }

  /** The second patch has no nulls, and puts an object only where the first has an object or says nothing. */
  predicate Composable(p: Json, q: Json)
    decreases q
  {
    q.Obj? ==>
      && p.Obj?
      && forall k :: k in q.fields ==>
        && q.fields[k] != Null
        && (if k in p.fields then Composable(p.fields[k], q.fields[k]) else NullFree(q.fields[k]))
  }

  ghost predicate Associates(t: Json, p: Json, q: Json) {
    Merge(Merge(t, p), q) == Merge(t, Merge(p, q))
  }

  /** Merging into nothing only strips nulls, so a null-free patch is unchanged by it. */
  lemma {:induction false} MergeIntoNothing(t: Json, q: Json)
    requires NullFree(q) && !t.Obj?
    ensures Merge(t, q) == q
    decreases q
  {
    if q.Obj? {
      forall k
        ensures k in Merge(t, q).fields <==> k in q.fields
        ensures Field(Merge(t, q), k) == Field(q, k)
      {
        MergeAt(t, q, k);
        if k in q.fields { MergeIntoNothing(Null, q.fields[k]); }
      }
      SameFields(Merge(t, q), q);
    }
  }

  lemma {:induction false} ComposableAssociates(t: Json, p: Json, q: Json)
    requires Composable(p, q)
    ensures Associates(t, p, q)
    decreases q
  {
    if q.Obj? {
      var left, right := Merge(Merge(t, p), q), Merge(t, Merge(p, q));
      forall k
        ensures k in left.fields <==> k in right.fields
        ensures Field(left, k) == Field(right, k)
      {
        MergeAt(Merge(t, p), q, k);
        MergeAt(t, p, k);
        MergeAt(p, q, k);
        MergeAt(t, Merge(p, q), k);
        if k in q.fields {
          if k in p.fields {
            ComposableAssociates(Field(t, k), p.fields[k], q.fields[k]);
          } else {
            MergeIntoNothing(Null, q.fields[k]);
          }
        }
      }
      SameFields(left, right);
    }
  }

  /** A target on which stripping the nulls of q first gives a different merge. */
  lemma {:induction false} NullsAreLost(q: Json) returns (t: Json)
    requires !NullFree(q)
    ensures Merge(t, q) != Merge(t, Merge(Null, q))
    decreases q
  {
    var k :| k in q.fields && (q.fields[k] == Null || !NullFree(q.fields[k]));
    if q.fields[k] == Null {
      t := Obj(map[k := Num(0)]);
    } else {
      var inner := NullsAreLost(q.fields[k]);
      t := Obj(map[k := inner]);
    }
    MergeAt(t, q, k);
    MergeAt(Null, q, k);
    MergeAt(t, Merge(Null, q), k);
  }

  /** Outside the condition some target tells the two groupings apart. */
  lemma {:induction false} NotComposableWitness(p: Json, q: Json) returns (t: Json)
    requires !Composable(p, q)
    ensures !Associates(t, p, q)
    decreases q
  {
    var k;
    if !p.Obj? {
      k := LongerThanAll(q.fields.Keys);
      t := Obj(map[k := Num(0)]);
    } else {
      k :| k in q.fields
        && (q.fields[k] == Null
            || (if k in p.fields then !Composable(p.fields[k], q.fields[k]) else !NullFree(q.fields[k])));
      var inner := Num(0);
      if q.fields[k] == Null {
      } else if k in p.fields {
        inner := NotComposableWitness(p.fields[k], q.fields[k]);
      } else {
        inner := NullsAreLost(q.fields[k]);
      }
      t := Obj(map[k := inner]);
      MergeAt(t, p, k);
    }
    MergeAt(Merge(t, p), q, k);
    MergeAt(p, q, k);
    MergeAt(t, Merge(p, q), k);
  }

  /** Applying p then q equals applying the merged patch, on every target, exactly when they compose. */
  lemma MergeAssociatesIff(p: Json, q: Json)
    ensures (forall t :: Associates(t, p, q)) <==> Composable(p, q)
  {
    if Composable(p, q) {
      forall t ensures Associates(t, p, q) { ComposableAssociates(t, p, q); }
    } else {
      var t := NotComposableWitness(p, q);
      assert !Associates(t, p, q);
    }
  }
}

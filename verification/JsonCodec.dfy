/** Writing and reading the parts of a typed value as JSON: pointers, slices, maps and scalars. */
module JsonCodec {
  import opened Prelude
  import opened MergePatch
  import opened Schema

  const STRINGS := TList(TStr)

  function WritePtr<T>(write: T -> Json, o: Option<T>): Json {
    if o.None? then Null else write(o.value)
  }

  function WriteList<T>(write: T -> Json, o: Option<seq<T>>): Json {
    if o.None? then Null else Arr(seq(|o.value|, i requires 0 <= i < |o.value| => write(o.value[i])))
  }

  function WriteMap<T>(write: T -> Json, o: Option<map<string, T>>): Json {
    if o.None? then Null else Obj(map k | k in o.value :: write(o.value[k]))
  }

  function WriteInt(n: int): Json { Num(n) }
  function WriteStr(s: string): Json { Str(s) }
  function WriteBool(b: bool): Json { Bool(b) }

  // ---------------------------------------------------------------------
  // Reading: null and absent keys leave the zero value
  // ---------------------------------------------------------------------

  function ReadInt(j: Json): int { if j.Num? then j.n else 0 }
  function ReadStr(j: Json): string { if j.Str? then j.s else "" }
  function ReadBool(j: Json): bool { j.Bool? && j.b }

  function ReadPtr<T>(read: Json -> T, j: Json): Option<T> {
    if j.Null? then None else Some(read(j))
  }

  function ReadList<T>(read: Json -> T, j: Json): Option<seq<T>> {
    if !j.Arr? then None else Some(seq(|j.items|, i requires 0 <= i < |j.items| => read(j.items[i])))
  }

  function ReadMap<T>(read: Json -> T, j: Json): Option<map<string, T>> {
    if !j.Obj? then None else Some(map k | k in j.fields :: read(j.fields[k]))
  }

  // ---------------------------------------------------------------------
  // Round trip
  // ---------------------------------------------------------------------

  /** What `write` writes for x is accepted by the schema, is not null, and is read back as x. */
  ghost predicate RoundTrip<T>(s: Schema, write: T -> Json, read: Json -> T, x: T) {
    Conforms(s, write(x)) && write(x) != Null && read(write(x)) == x
  }

  lemma PtrRoundTrip<T>(s: Schema, write: T -> Json, read: Json -> T, o: Option<T>)
    requires o.Some? ==> RoundTrip(s, write, read, o.value)
    ensures Conforms(s, WritePtr(write, o)) && ReadPtr(read, WritePtr(write, o)) == o
  {}

  lemma ListRoundTrip<T(!new)>(s: Schema, write: T -> Json, read: Json -> T, o: Option<seq<T>>)
    requires forall x :: RoundTrip(s, write, read, x)
    ensures Conforms(TList(s), WriteList(write, o)) && ReadList(read, WriteList(write, o)) == o
  {
    if o.Some? {
      forall i | 0 <= i < |o.value| ensures Conforms(s, write(o.value[i])) && read(write(o.value[i])) == o.value[i] {
        assert RoundTrip(s, write, read, o.value[i]);
      }
      assert ReadList(read, WriteList(write, o)).value == o.value;
    }
  }

  lemma MapRoundTrip<T(!new)>(s: Schema, write: T -> Json, read: Json -> T, o: Option<map<string, T>>)
    requires forall x :: RoundTrip(s, write, read, x)
    ensures Conforms(TMap(s), WriteMap(write, o)) && ReadMap(read, WriteMap(write, o)) == o
  {
    if o.Some? {
      forall k | k in o.value ensures Conforms(s, write(o.value[k])) && read(write(o.value[k])) == o.value[k] {
        assert RoundTrip(s, write, read, o.value[k]);
      }
      assert ReadMap(read, WriteMap(write, o)).value == o.value;
    }
  }

  lemma StringsRoundTrip(o: Option<seq<string>>)
    ensures Conforms(STRINGS, WriteList(WriteStr, o)) && ReadList(ReadStr, WriteList(WriteStr, o)) == o
  {
    forall x ensures RoundTrip(TStr, WriteStr, ReadStr, x) {}
    ListRoundTrip(TStr, WriteStr, ReadStr, o);
  }

  lemma StringRoundTrip(o: Option<string>)
    ensures Conforms(TStr, WritePtr(WriteStr, o)) && ReadPtr(ReadStr, WritePtr(WriteStr, o)) == o
  {}
}

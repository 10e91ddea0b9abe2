/** Applying one override's patch to a document: encode, merge the allowed keys, decode. */
module PatchDocument {
  import opened Prelude
  import opened MergePatch
  import opened Schema
  import opened ConfigDocument

  /** The top-level keys a patch may touch. */
  const ALLOWED: set<string> := {"control", "updater", "logging", "defaultServer", "clientWs"}

  function MergeUnder(patch: PatchDoc, k: string, t: Json): Json {
    if k in patch then Merge(t, patch[k]) else t
  }

  /** One section after the patch. */
  function PatchSection(patch: PatchDoc, k: string, t: Json): Json {
    if k in ALLOWED then MergeUnder(patch, k, t) else t
  }

  /** The encoded document with every allowed key of the patch merged in; a null stays as a null. */
  function PatchTree(tree: map<string, Json>, patch: PatchDoc): map<string, Json> {
    map k | k in tree.Keys + patch.Keys * ALLOWED :: PatchSection(patch, k, Field(Obj(tree), k))
  }

  function PatchSections(s: Sections, patch: PatchDoc): Sections {
    s.(control := MergeUnder(patch, "control", s.control),
       updater := MergeUnder(patch, "updater", s.updater),
       logging := MergeUnder(patch, "logging", s.logging),
       defaultServer := MergeUnder(patch, "defaultServer", s.defaultServer),
       clientWs := MergeUnder(patch, "clientWs", s.clientWs))
  }

  /** What the patch makes of a document, section by section; none when a patched section no longer decodes. */
  function ApplyPatch(d: Document, patch: PatchDoc): Option<Document> {
    var s := PatchSections(WriteSections(d), patch);
    if SectionsConform(s) then Some(ReadSections(s)) else None
  }

  /** What the code computes: encode the document, merge the allowed keys into the tree, decode the tree. */
  function EncodeMergeDecode(d: Document, patch: PatchDoc): Option<Document> {
    if patch == map[] then Some(d) else Decode(Obj(PatchTree(Fields(Write(d)), patch)))
  }

  lemma PatchTreeStep(tree: map<string, Json>, patch: PatchDoc, todo: set<string>, key: string)
    requires key in todo && key in patch
    ensures var before := PatchTree(tree, patch - todo);
      PatchTree(tree, patch - (todo - {key}))
      == if key in ALLOWED then before[key := Merge(Field(Obj(before), key), patch[key])] else before
  {
    var before := PatchTree(tree, patch - todo);
    var after := PatchTree(tree, patch - (todo - {key}));
    var next := if key in ALLOWED then before[key := Merge(Field(Obj(before), key), patch[key])] else before;
    assert Field(Obj(before), key) == Field(Obj(tree), key);
    forall k ensures k in after <==> k in next {}
    forall k | k in after ensures after[k] == next[k] {}
    assert after == next;
  }

  /** The code's loop over the patch, in any key order. */
  method MergeAllowedKeys(encoded: map<string, Json>, patch: PatchDoc) returns (tree: map<string, Json>)
    ensures tree == PatchTree(encoded, patch)
  {
    tree := encoded;
    var todo := patch.Keys;
    assert patch - todo == map[];
    while todo != {}
      invariant todo <= patch.Keys
      invariant tree == PatchTree(encoded, patch - todo)
      decreases todo
    {
      var key :| key in todo;
      PatchTreeStep(encoded, patch, todo, key);
      todo := todo - {key};
      if key in ALLOWED {
        var merged := MergePatch.MergePatch(if key in tree then tree[key] else Null, patch[key]);
        tree := tree[key := merged];
      }
    }
    assert patch - todo == patch;
  }

  method ApplyPatchToDocument(d: Document, patch: PatchDoc) returns (r: Option<Document>)
    ensures r == ApplyPatch(d, patch)
  {
    if |patch| == 0 {
      CodeAppliesPatch(d, patch);
      return Some(d);
    }
    var tree := MergeAllowedKeys(Fields(Write(d)), patch);
    r := Decode(Obj(tree));
    CodeAppliesPatch(d, patch);
  }

  // ---------------------------------------------------------------------
  // What a patch does, section by section
  // ---------------------------------------------------------------------

  lemma PatchTreeField(tree: map<string, Json>, patch: PatchDoc, k: string)
    ensures Field(Obj(PatchTree(tree, patch)), k) == PatchSection(patch, k, Field(Obj(tree), k))
  {}

  lemma OtherKeysNotAllowed()
    ensures "schemaVersion" !in ALLOWED && "revision" !in ALLOWED && "generatedAt" !in ALLOWED
    ensures "refresh" !in ALLOWED && "servers" !in ALLOWED && "ipcProtocol" !in ALLOWED
    ensures "dcLookupMap" !in ALLOWED && "hostIntegrity" !in ALLOWED && "overrides" !in ALLOWED
  {}

  lemma UntouchedSections(before: Json, after: Json, patch: PatchDoc)
    requires forall k :: Field(after, k) == PatchSection(patch, k, Field(before, k))
    ensures var s, t := ToSections(before), ToSections(after);
      && t.schemaVersion == s.schemaVersion && t.revision == s.revision && t.generatedAt == s.generatedAt
      && t.refresh == s.refresh && t.servers == s.servers && t.ipcProtocol == s.ipcProtocol
      && t.dcLookupMap == s.dcLookupMap && t.hostIntegrity == s.hostIntegrity && t.overrides == s.overrides
  {
    OtherKeysNotAllowed();
  }

  lemma PatchedSections(tree: Json, patch: PatchDoc)
    requires tree.Obj?
    ensures ToSections(Obj(PatchTree(tree.fields, patch))) == PatchSections(ToSections(tree), patch)
  {
    var after := Obj(PatchTree(tree.fields, patch));
    forall k ensures Field(after, k) == PatchSection(patch, k, Field(tree, k)) {
      PatchTreeField(tree.fields, patch, k);
    }
    UntouchedSections(tree, after, patch);
  }

  /** Encoding, merging and decoding the whole tree is patching the sections one by one. */
  lemma CodeAppliesPatch(d: Document, patch: PatchDoc)
    ensures EncodeMergeDecode(d, patch) == ApplyPatch(d, patch)
  {
    SectionsBack(WriteSections(d));
    if patch == map[] {
      SectionsRoundTrip(d);
    } else {
      PatchedSections(Write(d), patch);
    }
  }

  /** What a patch holds under one of five keys is merged into what is there; under any other key it is ignored. */
  function FiveKeys(patch: PatchDoc, k: string, t: Json): Json {
    if k in patch && k in {"control", "updater", "logging", "defaultServer", "clientWs"} then Merge(t, patch[k]) else t
  }

  ghost predicate MergesFiveKeys(before: Json, patch: PatchDoc, after: Json) {
    forall k :: Field(after, k) == FiveKeys(patch, k, Field(before, k))
  }

  lemma SameSections(tree: map<string, Json>, patch: PatchDoc, after: Json)
    requires MergesFiveKeys(Obj(tree), patch, after)
    ensures ToSections(after) == ToSections(Obj(PatchTree(tree, patch)))
  {
    var merged := Obj(PatchTree(tree, patch));
    forall k ensures Field(after, k) == Field(merged, k) {
      PatchTreeField(tree, patch, k);
      assert Field(after, k) == FiveKeys(patch, k, Field(Obj(tree), k));
    }
    SameFieldsSameSections(after, merged);
  }

  /** The outcome of a patch is whatever the encoded document, with those five keys merged, decodes to. */
  lemma PatchMergesFiveKeys(d: Document, patch: PatchDoc, after: Json)
    requires after.Obj? && MergesFiveKeys(Write(d), patch, after)
    ensures ApplyPatch(d, patch) == Decode(after)
  {
    SectionsBack(WriteSections(d));
    PatchedSections(Write(d), patch);
    SameSections(Fields(Write(d)), patch, after);
  }

  /** Every field outside the five allowed keys, the override list included, comes through unchanged. */
  lemma PatchKeepsOtherFields(d: Document, patch: PatchDoc)
    requires ApplyPatch(d, patch).Some?
    ensures var x := ApplyPatch(d, patch).value;
      x == d.(control := x.control, updater := x.updater, logging := x.logging,
              defaultServer := x.defaultServer, clientWs := x.clientWs)
  {
    SectionsRoundTrip(d);
  }

  /** A null under a top-level key gives the same result as leaving that key out of the patched tree. */
  lemma TopLevelNullDeletes(d: Document, patch: PatchDoc, k: string)
    requires k in patch && k in ALLOWED && patch[k] == Null
    ensures EncodeMergeDecode(d, patch) == Decode(Obj(PatchTree(Fields(Write(d)), patch) - {k}))
  {
    var kept := PatchTree(Fields(Write(d)), patch);
    SameFieldsSameDocument(Obj(kept), Obj(kept - {k}));
  }

  lemma SameFieldsSameDocument(a: Json, b: Json)
    requires a.Obj? && b.Obj? && forall k :: Field(a, k) == Field(b, k)
    ensures Decode(a) == Decode(b)
  {
    SameFieldsSameSections(a, b);
  }

  lemma SameFieldsSameSections(a: Json, b: Json)
    requires forall k :: Field(a, k) == Field(b, k)
    ensures ToSections(a) == ToSections(b)
  {}

  /** Whether a patch applies or fails does not depend on the document it is applied to. */
  lemma PatchOutcomeIgnoresDocument(d: Document, other: Document, patch: PatchDoc)
    requires ApplyPatch(other, patch).Some?
    ensures ApplyPatch(d, patch).Some?
  {
    SectionsRoundTrip(d);
    SectionsStayConforming(WriteSections(d), WriteSections(other), patch);
  }

  lemma SectionsStayConforming(s: Sections, other: Sections, patch: PatchDoc)
    requires SectionsConform(s) && SectionsConform(PatchSections(other, patch))
    ensures SectionsConform(PatchSections(s, patch))
  {
    SectionStaysConforming(CONTROL, s.control, other.control, patch, "control");
    SectionStaysConforming(UPDATER, s.updater, other.updater, patch, "updater");
    SectionStaysConforming(LOGGING, s.logging, other.logging, patch, "logging");
    SectionStaysConforming(TStr, s.defaultServer, other.defaultServer, patch, "defaultServer");
    SectionStaysConforming(TOGGLE, s.clientWs, other.clientWs, patch, "clientWs");
  }

  lemma SectionStaysConforming(sch: Schema, t: Json, other: Json, patch: PatchDoc, k: string)
    requires Conforms(sch, t) && Conforms(sch, MergeUnder(patch, k, other))
    ensures Conforms(sch, MergeUnder(patch, k, t))
  {
    if k in patch { MergeConforms(sch, t, other, patch[k]); }
  }
}

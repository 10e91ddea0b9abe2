/** The canonical form and its etag, and what a document keeps when it is stamped and stored. */
module Canonical {
  import opened Prelude
  import opened MergePatch
  import opened ConfigDocument
  import opened PatchDocument
  import opened Validation

  /** The bytes stored and served for a document. Bytes are identified with the tree they spell. */
  function CanonicalBody(d: Document): Json { Write(d) }

  function ETag(p: Platform, d: Document): string { p.sha256(CanonicalBody(d)) }

  /** The document as the server stores it: revision and time assigned. */
  function Stamp(d: Document, revision: int, generatedAt: string): Document {
    d.(revision := revision, generatedAt := generatedAt)
  }

  /** Parse reports no problem for these bytes. */
  predicate ParsesTo(p: Platform, data: Json, d: Document) {
    p.byteLength(data) <= MAX_DOCUMENT_BYTES && Decode(data) == Some(d) && Accepted(p, d)
  }

  /** A patch does the same to a stamped document, the stamp aside. */
  lemma PatchIgnoresStamp(d: Document, r: int, g: string, patch: PatchDoc)
    ensures var x, y := ApplyPatch(d, patch), ApplyPatch(Stamp(d, r, g), patch);
      y == if x.None? then None else Some(Stamp(x.value, r, g))
  {
    var s := PatchSections(WriteSections(d), patch);
    assert PatchSections(WriteSections(Stamp(d, r, g)), patch) == s.(revision := Num(r), generatedAt := Str(g));
  }

  lemma DryRunIgnoresStamp(p: Platform, d: Document, r: int, g: string, patch: PatchDoc)
    requires DryRunPasses(p, d, patch)
    ensures DryRunPasses(p, Stamp(d, r, g), patch)
  {
    PatchIgnoresStamp(d, r, g, patch);
  }

  lemma StampKeepsDryRuns(p: Platform, d: Document, r: int, g: string)
    requires ValidDryRuns(p, d)
    ensures ValidDryRuns(p, Stamp(d, r, g))
  {
    var e := Stamp(d, r, g);
    forall i | 0 <= i < |Items(e.overrides)| ensures DryRunPasses(p, e, PatchOf(Items(e.overrides)[i])) {
      DryRunIgnoresStamp(p, d, r, g, PatchOf(Items(d.overrides)[i]));
    }
  }

  lemma StampKeepsAccepted(p: Platform, d: Document, r: int, g: string)
    requires Accepted(p, d) && r >= 0 && p.rfc3339(g).Some?
    ensures Accepted(p, Stamp(d, r, g))
  {
    StampKeepsDryRuns(p, d, r, g);
  }

  /**
    Whatever was accepted on submission is accepted again, within the size cap, when the
    stamped canonical bytes are read back, and its etag comes out the same.
   */
  lemma StoredFormParses(p: Platform, d: Document, r: int, g: string)
    requires Accepted(p, d) && r >= 0 && p.rfc3339(g).Some?
    requires p.byteLength(CanonicalBody(Stamp(d, r, g))) <= MAX_DOCUMENT_BYTES
    ensures var e := Stamp(d, r, g); var body := CanonicalBody(e);
      ParsesTo(p, body, e) && ETag(p, Decode(body).value) == ETag(p, e)
  {
    StampKeepsAccepted(p, d, r, g);
    DecodeWrite(Stamp(d, r, g));
  }
}

/** The document engine plugged into the revision store and its mirrors. */
module MirrorAcceptance {
  import opened Prelude
  import opened MergePatch
  import opened ConfigDocument
  import opened Validation
  import opened Canonical
  import opened RevisionStore
  import opened MirrorReplication

  /** What a primary stores for a submitted document under revision r. */
  function Prepare(p: Platform, raw: Json, r: nat, at: string): Option<Content> {
    if p.byteLength(raw) <= MAX_DOCUMENT_BYTES && Decode(raw).Some? && Accepted(p, Decode(raw).value) then
      var d := Stamp(Decode(raw).value, r, at);
      Some(Content(CanonicalBody(d), ETag(p, d)))
    else None
  }

  /** The checks of syncOnce on a 200 reply, and what it then stores: its own etag where the reply had none. */
  function ReadReply(p: Platform, reply: Content): Option<Received> {
    if p.byteLength(reply.document) > MAX_DOCUMENT_BYTES || Decode(reply.document).None? then None
    else
      var d := Decode(reply.document).value;
      if !Accepted(p, d) then None
      else if reply.etag != "" && reply.etag != ETag(p, d) then None
      else if p.rfc3339(d.generatedAt).None? then None
      else Some(Received(d.revision, Content(reply.document, if reply.etag == "" then ETag(p, d) else reply.etag)))
  }

  /** The bytes spell a document that a mirror can serve. */
  predicate Servable(p: Platform, body: Json) {
    && p.byteLength(body) <= 0x10_0000 && Decode(body).Some?
    && Accepted(p, Decode(body).value) && p.rfc3339(Decode(body).value.generatedAt).Some?
  }

  /**
    A mirror stores a reply exactly when its bytes spell such a document and its etag, if it has one, is
    the hash of that document's canonical form. It stores those bytes, that hash and the document's revision.
   */
  lemma StoredIff(p: Platform, reply: Content, r: nat, stored: Content)
    ensures ReadReply(p, reply) == Some(Received(r, stored)) <==>
      && Servable(p, reply.document)
      && var d := Decode(reply.document).value;
         d.revision == r && stored == Content(reply.document, p.sha256(CanonicalBody(d)))
         && (reply.etag == "" || reply.etag == stored.etag)
  {
    if Decode(reply.document).Some? { ReadDecoded(p, reply, Decode(reply.document).value); }
  }

  lemma ReadDecoded(p: Platform, reply: Content, d: Document)
    requires Decode(reply.document) == Some(d)
    ensures var tag := p.sha256(CanonicalBody(d));
      if Servable(p, reply.document) && (reply.etag == "" || reply.etag == tag)
      then d.revision >= 0 && ReadReply(p, reply) == Some(Received(d.revision, Content(reply.document, tag)))
      else ReadReply(p, reply).None?
  {}

  /** A reply that carries the etag of another document is rejected, when hashes differ. */
  lemma WrongTagIsRejected(p: Platform, reply: Content, d: Document, other: Json)
    requires Injective(p.sha256) && Decode(reply.document) == Some(d)
    requires reply.etag == p.sha256(other) != "" && other != CanonicalBody(d)
    ensures ReadReply(p, reply).None?
  {}

  function RealCodec(p: Platform): Codec {
    Codec(
      (raw: Json, r: nat, at: string) => Prepare(p, raw, r, at),
      (reply: Content) => ReadReply(p, reply),
      (at: string) => p.rfc3339(at).Some?)
  }

  /** Whatever the primary prepares, a mirror accepts within the size cap, and stores as it is. */
  lemma MirrorAcceptsPrepared(p: Platform, raw: Json, r: nat, at: string)
    requires p.rfc3339(at).Some? && Prepare(p, raw, r, at).Some?
    ensures var c := Prepare(p, raw, r, at).value;
      ReadReply(p, c) == if p.byteLength(c.document) <= MAX_DOCUMENT_BYTES then Some(Received(r, c)) else None
  {
    var d := Decode(raw).value;
    var c := Prepare(p, raw, r, at).value;
    if p.byteLength(c.document) <= MAX_DOCUMENT_BYTES {
      StoredFormParses(p, d, r, at);
      OwnTagIsRead(p, c, Stamp(d, r, at));
    }
  }

  lemma OwnTagIsRead(p: Platform, reply: Content, d: Document)
    requires ParsesTo(p, reply.document, d) && reply.etag == ETag(p, d) && p.rfc3339(d.generatedAt).Some?
    ensures ReadReply(p, reply) == Some(Received(d.revision, reply))
  {}

  lemma RealCodecIsFaithful(p: Platform)
    ensures Faithful(RealCodec(p))
  {
    forall raw, r: nat, at | p.rfc3339(at).Some? && Prepare(p, raw, r, at).Some?
      ensures var sent := Prepare(p, raw, r, at).value;
        ReadReply(p, sent).None? || ReadReply(p, sent).value == Received(r, sent)
    {
      MirrorAcceptsPrepared(p, raw, r, at);
    }
  }

  /** Replication is safe for the documents the API really stores. */
  lemma RealReplicationIsSafe(p: Platform, up: Upstreams, evs: seq<Event>, more: seq<Event>, m: nat, r: nat)
    requires Wired(up) && m in up
    requires forall i :: 0 <= i < |evs| ==> EventOk(RealCodec(p), evs[i])
    requires forall i :: 0 <= i < |more| ==> EventOk(RealCodec(p), more[i])
    ensures Safe(RealCodec(p), up, RunCluster(RealCodec(p), up, EMPTY, evs), more, m, r)
  {
    RealCodecIsFaithful(p);
    ReplicationIsSafe(RealCodec(p), up, evs, more, m, r);
  }

  /** Different trees have different hashes. */
  ghost predicate Injective(hash: Json -> string) { forall a, b :: hash(a) == hash(b) ==> a == b }

  /** The revision is part of what is hashed, so an etag tells it. */
  lemma RealTagsTell(p: Platform)
    requires Injective(p.sha256)
    ensures TagsTell(RealCodec(p))
  {
    forall q, r, a, b | PreparedAs(RealCodec(p), q, a) && PreparedAs(RealCodec(p), r, b) && a.etag == b.etag
      ensures q == r
    {
      var d := PreparedDocument(p, q, a);
      var e := PreparedDocument(p, r, b);
      DecodeWrite(d);
      DecodeWrite(e);
    }
  }

  lemma PreparedDocument(p: Platform, r: nat, content: Content) returns (d: Document)
    requires PreparedAs(RealCodec(p), r, content)
    ensures d.revision == r && content == Content(CanonicalBody(d), ETag(p, d))
    ensures ReadReply(p, content).Some? <==> p.byteLength(content.document) <= MAX_DOCUMENT_BYTES
  {
    var raw, at :| p.rfc3339(at).Some? && Prepare(p, raw, r, at) == Some(content);
    d := Stamp(Decode(raw).value, r, at);
    MirrorAcceptsPrepared(p, raw, r, at);
  }

  /** The body a node serves, if it serves one, is within the size cap. */
  ghost predicate ServesWithinCap(p: Platform, t: Table) {
    forall r :: IsPublished(t, r) ==> p.byteLength(t[r].content.document) <= MAX_DOCUMENT_BYTES
  }

  /**
    After any run, an undisturbed poll brings a mirror level with its upstream exactly when the
    upstream serves a body within the size cap, or the mirror was level before.
   */
  lemma RealSyncCatchesUpIff(p: Platform, up: Upstreams, evs: seq<Event>, m: nat)
    requires Injective(p.sha256) && Wired(up) && m in up
    requires forall i :: 0 <= i < |evs| ==> EventOk(RealCodec(p), evs[i])
    requires m !in RunCluster(RealCodec(p), up, EMPTY, evs).replies
    ensures var k := RealCodec(p); var c := RunCluster(k, up, EMPTY, evs);
      Level(up, c, RunCluster(k, up, c, [Fetch(m), Deliver(m)]), m) <==>
      ServesWithinCap(p, TableOf(c, up[m])) || Level(up, c, c, m)
  {
    var k := RealCodec(p);
    var c := RunCluster(k, up, EMPTY, evs);
    RealReachable(p, up, evs);
    SyncCatchesUpIff(k, up, c, m);
    AcceptableIffWithinCap(p, up, c, up[m]);
  }

  lemma AcceptableIffWithinCap(p: Platform, up: Upstreams, c: Cluster, n: nat)
    requires Consistent(RealCodec(p), up, c) && (n == PRIMARY || n in up)
    ensures Acceptable(RealCodec(p), TableOf(c, n)) <==> ServesWithinCap(p, TableOf(c, n))
  {
    forall r | IsPublished(TableOf(c, n), r)
      ensures RealCodec(p).read(TableOf(c, n)[r].content).Some? <==>
              p.byteLength(TableOf(c, n)[r].content.document) <= MAX_DOCUMENT_BYTES
    {
      PublishedIsPrepared(RealCodec(p), up, c, n, r);
      var d := PreparedDocument(p, r, TableOf(c, n)[r].content);
    }
  }

  /**
    After any run, polling down a path from the primary, one mirror after the other, leaves every
    mirror on it level with the primary exactly when the primary serves a body within the size cap,
    or the first mirror was level before.
   */
  lemma RealChainCatchesUpIff(p: Platform, up: Upstreams, evs: seq<Event>, path: seq<nat>)
    requires Injective(p.sha256) && Wired(up) && path != [] && PollPath(up, path)
    requires forall i :: 0 <= i < |evs| ==> EventOk(RealCodec(p), evs[i])
    requires forall i :: 0 <= i < |path| ==> path[i] !in RunCluster(RealCodec(p), up, EMPTY, evs).replies
    ensures var k := RealCodec(p); var c := RunCluster(k, up, EMPTY, evs);
      AllPublish(RunCluster(k, up, c, Polls(path)), path, PublishedOf(TableOf(c, PRIMARY))) <==>
      ServesWithinCap(p, TableOf(c, PRIMARY)) || PublishedOf(TableOf(c, path[0])) == PublishedOf(TableOf(c, PRIMARY))
  {
    var k := RealCodec(p);
    var c := RunCluster(k, up, EMPTY, evs);
    RealReachable(p, up, evs);
    ChainCatchesUpIff(k, up, c, path);
    AcceptableIffWithinCap(p, up, c, PRIMARY);
  }

  lemma RealReachable(p: Platform, up: Upstreams, evs: seq<Event>)
    requires Injective(p.sha256) && Wired(up)
    requires forall i :: 0 <= i < |evs| ==> EventOk(RealCodec(p), evs[i])
    ensures var k := RealCodec(p); var c := RunCluster(k, up, EMPTY, evs);
      Faithful(k) && TagsTell(k) && Consistent(k, up, c) && MirrorsAccepted(k, up, c)
  {
    var k := RealCodec(p);
    RealCodecIsFaithful(p);
    RealTagsTell(p);
    EmptyIsConsistent(k, up);
    RunKeeps(k, up, EMPTY, evs);
    assert MirrorsAccepted(k, up, EMPTY);
    RunAccepted(k, up, EMPTY, evs);
  }
}

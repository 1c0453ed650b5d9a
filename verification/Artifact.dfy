/**
 Export artifacts: a writer that stores a body in fixed-size chunks under a signed manifest, and a
 reader that verifies order, bounds, namespace and checksums before it hands out the last chunk.
 */
module Artifact {
  import opened Common

  const CHUNK_BYTES: nat := 1048576

  /** A digest, taken to identify its input. */
  datatype Hash = Sha(of: seq<Byte>)

  /** The signature is the digest of the other fields. */
  datatype Signature = DigestOf(bytes: nat, chunks: nat, hash: Hash)

  datatype Manifest = Manifest(bytes: nat, chunks: nat, hash: Hash, signature: Signature)

  function Signed(bytes: nat, chunks: nat, hash: Hash): Manifest {
    Manifest(bytes, chunks, hash, DigestOf(bytes, chunks, hash))
  }

  /** A chunk row and what the object store returns for its key. */
  datatype Row = Row(
    bodyBytes: int, storedBytes: int, inNamespace: bool, attempt: nat, bodyHash: Hash, content: Option<seq<Byte>>)

  type Table = map<nat, Row>

  function ChunkCount(bytes: nat): nat { (bytes + CHUNK_BYTES - 1) / CHUNK_BYTES }

  predicate ValidManifest(m: Manifest, reserved: int) {
    && m == Signed(m.bytes, m.chunks, m.hash)
    && m.bytes <= 4 * 1024 * 1024 * 1024 && m.chunks <= 4096
    && m.bytes <= reserved && m.chunks == ChunkCount(m.bytes)
  }

  /** What the shared object reader demands before it returns the bytes. */
  predicate Readable(row: Row) {
    row.content.Some? && |row.content.value| == row.bodyBytes && Sha(row.content.value) == row.bodyHash
  }

  predicate BoundsOk(row: Row, expected: int) {
    row.bodyBytes == expected && expected > 0 && 1 <= row.storedBytes <= CHUNK_BYTES + 65536
  }

  // ---- The reader, as a function of the table it sees ----

  datatype Reader = Reader(ordinal: nat, hashed: seq<Byte>, attempt: Option<nat>, complete: bool)

  datatype Read = Chunk(bytes: seq<Byte>) | End | Fail

  /** The page after an ordinal is empty, or starts with the next ordinal. */
  predicate NothingAfter(table: Table, ordinal: nat) { forall k :: k in table ==> k <= ordinal }

  predicate FinishOk(m: Manifest, r: Reader) {
    r.ordinal == m.chunks && |r.hashed| == m.bytes && Sha(r.hashed) == m.hash
  }

  predicate NextOk(table: Table, m: Manifest, r: Reader) {
    var k := r.ordinal + 1;
    && k in table && k <= m.chunks
    && BoundsOk(table[k], Min(CHUNK_BYTES, m.bytes - |r.hashed|))
    && table[k].inNamespace && (r.attempt.Some? ==> r.attempt.value == table[k].attempt)
    && Readable(table[k])
  }

  function Took(table: Table, r: Reader): Reader
    requires r.ordinal + 1 in table && Readable(table[r.ordinal + 1])
  {
    var row := table[r.ordinal + 1];
    Reader(r.ordinal + 1, r.hashed + row.content.value, Some(row.attempt), false)
  }

  /**
   One read, when the lifetime has not run out. The page is read from `table`; after the last listed
   chunk a second page is read from `later`. A failed read leaves nothing usable behind.
   */
  function ReadNext(table: Table, later: Table, m: Manifest, r: Reader): (Reader, Read) {
    if r.complete then (r, End)
    else if NothingAfter(table, r.ordinal) then
      if FinishOk(m, r) then (r.(complete := true), End) else (r, Fail)
    else if !NextOk(table, m, r) then (r, Fail)
    else
      var took := Took(table, r);
      var bytes := table[r.ordinal + 1].content.value;
      if took.ordinal < m.chunks then (took, Chunk(bytes))
      else if NothingAfter(later, took.ordinal) && FinishOk(m, took) then (took.(complete := true), Chunk(bytes))
      else (took, Fail)
  }

  const FRESH := Reader(0, [], None, false)

  /** Bytes read so far are full chunks, and a reader that is not complete has not reached the end. */
  ghost predicate InBounds(m: Manifest, r: Reader) {
    && m == Signed(m.bytes, ChunkCount(m.bytes), m.hash) && r.ordinal <= m.chunks
    && |r.hashed| == Min(r.ordinal * CHUNK_BYTES, m.bytes)
    && (r.complete ==> FinishOk(m, r))
    && (!r.complete ==> r.ordinal < m.chunks || m.chunks == 0)
  }

  /** Whatever the two pages show, the bytes that complete the body are handed out only once verified. */
  lemma ReadKeepsBounds(table: Table, later: Table, m: Manifest, r: Reader)
    requires InBounds(m, r)
    ensures var (next, read) := ReadNext(table, later, m, r);
            && (!read.Fail? ==> InBounds(m, next))
            && (read.End? ==> next.complete && next.hashed == r.hashed)
            && (read.Chunk? ==>
                  && !r.complete && read.bytes != []
                  && next.hashed == r.hashed + read.bytes && next.ordinal == r.ordinal + 1)
  {
  }

  // ---- Intact artifacts ----

  function Piece(body: seq<Byte>, i: nat): seq<Byte>
    requires 1 <= i <= ChunkCount(|body|)
  {
    body[(i - 1) * CHUNK_BYTES..Min(i * CHUNK_BYTES, |body|)]
  }

  predicate Holds(row: Row, piece: seq<Byte>, attempt: nat) {
    && row.content == Some(piece) && row.bodyBytes == |piece| && row.bodyHash == Sha(piece)
    && 1 <= row.storedBytes <= CHUNK_BYTES + 65536 && row.inNamespace && row.attempt == attempt
  }

  /** The first n rows hold the body's first n chunks, all of one attempt. */
  ghost predicate HoldsUpTo(table: Table, body: seq<Byte>, n: nat, attempt: nat)
    requires n <= ChunkCount(|body|)
  {
    forall i :: 1 <= i <= n ==> i in table && Holds(table[i], Piece(body, i), attempt)
  }

  /** The table holds exactly this body, cut into its chunks, and the manifest describes it. */
  ghost predicate Intact(table: Table, m: Manifest, body: seq<Byte>) {
    && m == Signed(|body|, ChunkCount(|body|), Sha(body))
    && NothingAfter(table, m.chunks)
    && exists attempt: nat :: HoldsUpTo(table, body, m.chunks, attempt)
  }

  /** What the reader has seen is a prefix of chunks of a body of this attempt. */
  ghost predicate Seen(table: Table, r: Reader) {
    && r.ordinal == ChunkCount(|r.hashed|)
    && (r.ordinal == 0 ==> r.attempt == None)
    && (r.ordinal > 0 ==> r.attempt.Some? && HoldsUpTo(table, r.hashed, r.ordinal, r.attempt.value))
  }

  lemma ReadKeepsSeen(table: Table, m: Manifest, r: Reader)
    requires InBounds(m, r) && Seen(table, r)
    ensures var (next, read) := ReadNext(table, table, m, r); !read.Fail? ==> Seen(table, next)
  {
    hide HoldsUpTo, FinishOk, ChunkCount;
    if ReadNext(table, table, m, r).1.Chunk? { TookSeen(table, m, r); }
  }

  lemma TookSeen(table: Table, m: Manifest, r: Reader)
    requires InBounds(m, r) && Seen(table, r) && NextOk(table, m, r)
    ensures Seen(table, Took(table, r))
  {
    var next, bytes := Took(table, r), table[r.ordinal + 1].content.value;
    assert |r.hashed| == r.ordinal * CHUNK_BYTES;
    LastPiece(r.hashed, bytes);
    forall i | 1 <= i <= r.ordinal ensures Holds(table[i], Piece(next.hashed, i), next.attempt.value) {
      assert Holds(table[i], Piece(r.hashed, i), r.attempt.value);
      PieceOfPrefix(r.hashed, bytes, i);
    }
  }

  lemma PieceOfPrefix(a: seq<Byte>, b: seq<Byte>, i: nat)
    requires |a| % CHUNK_BYTES == 0 && 1 <= i <= ChunkCount(|a|)
    ensures i <= ChunkCount(|a + b|) && Piece(a + b, i) == Piece(a, i)
  {
  }

  lemma LastPiece(a: seq<Byte>, b: seq<Byte>)
    requires |a| % CHUNK_BYTES == 0 && 0 < |b| <= CHUNK_BYTES
    ensures ChunkCount(|a + b|) == |a| / CHUNK_BYTES + 1 && Piece(a + b, |a| / CHUNK_BYTES + 1) == b
  {
    assert |a| / CHUNK_BYTES * CHUNK_BYTES == |a|;
    assert (a + b)[|a|..] == b;
    assert Piece(a + b, |a| / CHUNK_BYTES + 1) == (a + b)[|a|..|a + b|];
  }

  lemma IntactNextOk(table: Table, m: Manifest, r: Reader, body: seq<Byte>)
    requires InBounds(m, r) && Seen(table, r) && Intact(table, m, body) && r.hashed <= body
    requires !r.complete && r.ordinal < m.chunks
    ensures NextOk(table, m, r) && Took(table, r).hashed == body[..Min((r.ordinal + 1) * CHUNK_BYTES, |body|)]
  {
    var attempt :| HoldsUpTo(table, body, m.chunks, attempt);
    var k := r.ordinal + 1;
    assert |r.hashed| == r.ordinal * CHUNK_BYTES;
    assert Holds(table[k], Piece(body, k), attempt);
    assert r.ordinal > 0 ==>
             Holds(table[1], Piece(body, 1), attempt) && Holds(table[1], Piece(r.hashed, 1), r.attempt.value);
    assert r.hashed == body[..|r.hashed|];
  }

  /** On an intact artifact no read fails and each chunk continues the body. */
  lemma IntactReads(table: Table, m: Manifest, r: Reader, body: seq<Byte>)
    requires InBounds(m, r) && Seen(table, r) && Intact(table, m, body) && r.hashed <= body
    ensures var (next, read) := ReadNext(table, table, m, r); !read.Fail? && next.hashed <= body
  {
    hide Seen, HoldsUpTo;
    if !r.complete && r.ordinal < m.chunks {
      IntactNextOk(table, m, r, body);
      assert !NothingAfter(table, r.ordinal);
      if r.ordinal + 1 == m.chunks { assert body[..|body|] == body; }
    } else {
      assert r.hashed == body;
    }
  }

  /** A completed reader has read exactly an intact body. */
  lemma CompleteIsIntact(table: Table, m: Manifest, r: Reader)
    requires InBounds(m, r) && Seen(table, r) && r.complete && NothingAfter(table, r.ordinal)
    ensures Intact(table, m, r.hashed)
  {
    assert HoldsUpTo(table, r.hashed, m.chunks, if r.ordinal > 0 then r.attempt.value else 0);
  }

  // ---- The download object ----

  /** What a caller of the iterator gets. */
  datatype Item = Bytes(bytes: seq<Byte>) | StopIteration | Raised

  class ArtifactDownload {
    const manifest: Manifest
    var reader: Reader
    var first: Option<seq<Byte>>
    var closed: bool
    ghost var sent: seq<Byte>

    ghost predicate Valid()
      reads this
    {
      && manifest == Signed(manifest.bytes, ChunkCount(manifest.bytes), manifest.hash)
      && (first.Some? ==> first.value != [])
      && (!closed ==> InBounds(manifest, reader) && reader.hashed == sent + if first.Some? then first.value else [])
    }

    /** `validate_artifact_manifest` ran before. */
    constructor (m: Manifest, reserved: int)
      requires ValidManifest(m, reserved)
      ensures Valid() && manifest == m && reader == FRESH && first == None && !closed && sent == []
    {
      manifest := m;
      reader, first, closed, sent := FRESH, None, false, [];
    }

    /** `_read_next` with the closing `except` of its callers. `late`: the lifetime ran out meanwhile. */
    method Advance(table: Table, later: Table, late: bool) returns (read: Read)
      requires Valid() && !closed && first.None?
      modifies this`reader, this`closed
      ensures var outcome := ReadNext(table, later, manifest, old(reader)).1;
              read == if late && outcome.Chunk? then Fail else outcome
      ensures closed == read.Fail?
      ensures !read.Fail? ==> reader == ReadNext(table, later, manifest, old(reader)).0
    {
      var (next, outcome) := ReadNext(table, later, manifest, reader);
      read := if late && outcome.Chunk? then Fail else outcome;
      if read.Fail? { closed := true; } else { reader := next; }
    }

    /** Reads the first chunk before any success is announced. */
    method Prime(table: Table, later: Table, late: bool) returns (ok: bool)
      requires Valid() && !closed && first.None? && sent == [] && reader == FRESH
      modifies this
      ensures Valid() && ok == !closed && sent == []
      ensures var outcome := ReadNext(table, later, manifest, FRESH).1;
              ok <==> !outcome.Fail? && !(late && outcome.Chunk?)
      ensures var (next, outcome) := ReadNext(table, later, manifest, FRESH);
              ok ==> reader == next && first == if outcome.Chunk? then Some(outcome.bytes) else None
    {
      ReadKeepsBounds(table, later, manifest, reader);
      var read := Advance(table, later, late);
      if read.Chunk? { first := Some(read.bytes); }
      ok := !closed;
    }

    /**
     `__next__`. Whatever the pages show at and within each call, an iteration that was not closed or failed
     before ends only after the whole body, of the manifest's length and digest, was sent.
     */
    method Next(table: Table, later: Table, expired: bool, late: bool) returns (item: Item)
      requires Valid()
      modifies this
      ensures Valid()
      ensures item.Bytes? ==> !closed && sent == old(sent) + item.bytes && item.bytes != []
      ensures !item.Bytes? ==> closed && sent == old(sent)
      ensures old(closed) ==> item == if expired then Raised else StopIteration
      ensures item.StopIteration? && !old(closed) ==>
                |sent| == manifest.bytes && Sha(sent) == manifest.hash && reader.complete && reader.hashed == sent
      ensures item.Bytes? && |sent| == manifest.bytes ==> Sha(sent) == manifest.hash
      ensures !old(closed) && !expired && old(first).Some? ==>
                item == Bytes(old(first).value) && first.None? && reader == old(reader)
      ensures !old(closed) && !expired && old(first).None? ==>
                var (next, read) := ReadNext(table, later, manifest, old(reader));
                && (item.Raised? <==> read.Fail? || (late && read.Chunk?))
                && (!item.Raised? ==> reader == next)
    {
      if expired { closed := true; return Raised; }
      if closed { return StopIteration; }
      if first.Some? {
        item := Bytes(first.value);
        sent := sent + first.value;
        first := None;
        return;
      }
      ReadKeepsBounds(table, later, manifest, reader);
      var read := Advance(table, later, late);
      match read
      case Chunk(bytes) =>
        item := Bytes(bytes);
        sent := sent + bytes;
      case End =>
        closed := true;
        item := StopIteration;
      case Fail => item := Raised;
    }

    /** An explicit close, by the server or the expiry timer. */
    method Close()
      requires Valid()
      modifies this
      ensures Valid() && closed && sent == old(sent)
    {
      closed, first := true, None;
    }
  }

  // ---- Round trip ----

  /** Parts that an earlier attempt left are deleted one by one. */
  method DeleteParts(leftover: Table) returns (table: Table)
    ensures table == map[]
  {
    table := leftover;
    while table != map[]
      decreases |table|
    {
      var k :| k in table;
      table := table - {k};
    }
  }

  /** Successive reads of a chunk, each stored under the next ordinal of this attempt. */
  method WriteChunks(start: Table, body: seq<Byte>, attempt: nat, stored: seq<Byte> -> int)
    returns (table: Table, ordinal: nat)
    requires start == map[]
    requires forall piece :: |piece| <= CHUNK_BYTES ==> 1 <= stored(piece) <= CHUNK_BYTES + 65536
    ensures ordinal == ChunkCount(|body|)
    ensures HoldsUpTo(table, body, ordinal, attempt) && NothingAfter(table, ordinal)
  {
    table, ordinal := start, 0;
    var at := 0;
    while at < |body|
      invariant at == Min(ordinal * CHUNK_BYTES, |body|) && ordinal <= ChunkCount(|body|)
      invariant HoldsUpTo(table, body, ordinal, attempt) && NothingAfter(table, ordinal)
    {
      var end := Min(at + CHUNK_BYTES, |body|);
      var piece := body[at..end];
      ordinal := ordinal + 1;
      assert piece == Piece(body, ordinal);
      table := table[ordinal := Row(|piece|, stored(piece), true, attempt, Sha(piece), Some(piece))];
      at := end;
    }
  }

  /** The writer: whatever an earlier attempt left, one intact artifact is published. */
  method Publish(body: seq<Byte>, attempt: nat, stored: seq<Byte> -> int, leftover: Table)
    returns (table: Table, m: Manifest)
    requires forall piece :: |piece| <= CHUNK_BYTES ==> 1 <= stored(piece) <= CHUNK_BYTES + 65536
    ensures Intact(table, m, body)
    ensures |body| <= 4 * 1024 * 1024 * 1024 ==> ValidManifest(m, Max(1, |body|))
  {
    hide HoldsUpTo;
    table := DeleteParts(leftover);
    var ordinal;
    table, ordinal := WriteChunks(table, body, attempt, stored);
    m := Signed(|body|, ordinal, Sha(body));
  }

  /**
   Closing is the one way to end short without an error: a download of two or more chunks, closed after
   the first, says StopIteration with only that chunk sent.
   */
  method ClosedDownloadStopsShort(table: Table, m: Manifest, reserved: int, ghost body: seq<Byte>)
    returns (got: seq<Byte>, item: Item)
    requires ValidManifest(m, reserved) && Intact(table, m, body) && m.chunks >= 2
    ensures item == StopIteration && 0 < |got| < m.bytes && got <= body
  {
    FirstPiece(table, m, body);
    hide ReadNext, Intact, InBounds;
    var d := new ArtifactDownload(m, reserved);
    var ok := d.Prime(table, table, false);
    var first := d.Next(table, table, false, false);
    got := first.bytes;
    d.Close();
    item := d.Next(table, table, false, false);
  }

  lemma FirstPiece(table: Table, m: Manifest, body: seq<Byte>)
    requires Intact(table, m, body) && m.chunks >= 2
    ensures var read := ReadNext(table, table, m, FRESH).1;
            read.Chunk? && 0 < |read.bytes| < m.bytes && read.bytes <= body
  {
    var attempt :| HoldsUpTo(table, body, m.chunks, attempt);
    assert Holds(table[1], Piece(body, 1), attempt);
  }

  /** Whoever downloads from a table that stays as it is gets the body exactly when the artifact is intact. */
  method Download(table: Table, m: Manifest, reserved: int) returns (out: Option<seq<Byte>>)
    requires ValidManifest(m, reserved)
    ensures out.Some? ==> Intact(table, m, out.value)
    ensures forall body :: Intact(table, m, body) ==> out == Some(body)
  {
    hide Intact, Seen, InBounds, ReadNext;
    var d := new ArtifactDownload(m, reserved);
    Started(table, m);
    StepAll(table, m, FRESH);
    var ok := d.Prime(table, table, false);
    if !ok { return None; }
    var got: seq<Byte> := [];
    while true
      invariant d.Valid() && !d.closed && fresh(d) && d.manifest == m && got == d.sent
      invariant Along(table, m, d.reader)
      decreases m.bytes - |d.sent|
    {
      StepAll(table, m, d.reader);
      SentWithin(d);
      var item := d.Next(table, table, false, false);
      match item {
        case Bytes(bytes) =>
          got := got + bytes;
          SentWithin(d);
        case StopIteration =>
          StoppedComplete(table, m, d.reader);
          return Some(got);
        case Raised => return None;
      }
    }
  }

  /** The reader follows the table, and every intact body this table could hold. */
  ghost predicate Along(table: Table, m: Manifest, r: Reader) {
    && InBounds(m, r) && Seen(table, r) && (r.complete ==> NothingAfter(table, r.ordinal))
    && (forall body :: Intact(table, m, body) ==> r.hashed <= body)
  }

  lemma Started(table: Table, m: Manifest)
    requires m == Signed(m.bytes, ChunkCount(m.bytes), m.hash)
    ensures Along(table, m, FRESH)
  {
  }

  lemma StepAll(table: Table, m: Manifest, r: Reader)
    requires Along(table, m, r)
    ensures var (next, read) := ReadNext(table, table, m, r);
            if read.Fail? then forall body :: !Intact(table, m, body) else Along(table, m, next)
  {
    ReadKeepsBounds(table, table, m, r);
    ReadKeepsSeen(table, m, r);
    forall body | Intact(table, m, body)
      ensures var (next, read) := ReadNext(table, table, m, r); !read.Fail? && next.hashed <= body
    {
      IntactReads(table, m, r, body);
    }
  }

  lemma StoppedComplete(table: Table, m: Manifest, r: Reader)
    requires Along(table, m, r) && |r.hashed| == m.bytes && Sha(r.hashed) == m.hash && r.complete
    ensures Intact(table, m, r.hashed)
    ensures forall body :: Intact(table, m, body) ==> body == r.hashed
  {
    CompleteIsIntact(table, m, r);
  }

  lemma SentWithin(d: ArtifactDownload)
    requires d.Valid() && !d.closed
    ensures |d.sent| <= d.manifest.bytes
  {
  }
}

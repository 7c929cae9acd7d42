/**
  The document store of the CouchDB peer for a single writer: small files inline, large ones split into chunk
  documents that the main document lists. On top of it, Put, Delete and Get act as on a map from paths to bytes.
 */
module ChunkStore {
  import opened Types
  import opened Ids
  import opened Pipeline

  datatype Document =
    | Main(path: Path, data: Bytes, children: seq<string>)
    | Leaf(data: Bytes)

  type Docs = map<string, Document>

  const MIN_CHUNK_SIZE := 50 * 1024

  /**
    How a chunk document is read back. The source unmarshals it into a type without a data field, so that every chunk
    comes back empty; what is meant is the full read that Get uses for main documents.
   */
  datatype Reading = Intended | AsCoded

  function ChunkBody(doc: Document, reading: Reading): Bytes {
    if reading.Intended? then doc.data else []
  }

  function Reassemble(docs: Docs, children: seq<string>, reading: Reading): Option<Bytes> {
    if children == [] then Some([])
    else if children[0] !in docs then None
    else
      match Reassemble(docs, children[1..], reading)
      case None => None
      case Some(rest) => Some(ChunkBody(docs[children[0]], reading) + rest)
  }

  /** The stored bytes of a main document, before decoding. */
  function RawOf(docs: Docs, doc: Document, reading: Reading): Option<Bytes>
    requires doc.Main?
  {
    if doc.children != [] then Reassemble(docs, doc.children, reading) else Some(doc.data)
  }

  function Raw(docs: Docs, path: Path, reading: Reading): Option<Bytes> {
    var id := DocPathToID(path);
    if id in docs && docs[id].Main? then RawOf(docs, docs[id], reading) else None
  }

  // -------- writing --------

  predicate NeedsChunks(raw: Bytes, chunkSize: nat) {
    |raw| > chunkSize && |raw| > MIN_CHUNK_SIZE
  }

  function ChunkCount(length: nat, chunkSize: nat): nat
    requires chunkSize > 0
  {
    if length <= chunkSize then (if length == 0 then 0 else 1) else 1 + ChunkCount(length - chunkSize, chunkSize)
  }

  /** The IDs of the chunks from the given index on. */
  function ChunkIDs(id: string, index: nat, count: nat): (ids: seq<string>)
    ensures |ids| == count && forall k | 0 <= k < count :: ids[k] == ChunkID(id, index + k)
  {
    seq(count, k requires 0 <= k < count => ChunkID(id, index + k))
  }

  /** Writes the rest of the data as chunks from the given index on. */
  function WithChunks(docs: Docs, id: string, rest: Bytes, chunkSize: nat, index: nat): Docs
    requires chunkSize > 0
    decreases |rest|
  {
    if rest == [] then docs
    else
      var end := if chunkSize > |rest| then |rest| else chunkSize;
      WithChunks(docs[ChunkID(id, index) := Leaf(rest[..end])], id, rest[end..], chunkSize, index + 1)
  }

  function Stored(docs: Docs, path: Path, raw: Bytes, chunkSize: nat): Docs
    requires chunkSize > 0
  {
    var id := DocPathToID(path);
    if NeedsChunks(raw, chunkSize) then
      WithChunks(docs, id, raw, chunkSize, 0)[id := Main(path, [], ChunkIDs(id, 0, ChunkCount(|raw|, chunkSize)))]
    else
      docs[id := Main(path, raw, [])]
  }

  function Without(docs: Docs, ids: seq<string>): Docs {
    map k | k in docs && k !in ids :: docs[k]
  }

  /** Deletes the listed chunks, then the main document. */
  function Removed(docs: Docs, path: Path): Docs {
    var id := DocPathToID(path);
    if id in docs && docs[id].Main? then Without(docs, docs[id].children) - {id} else docs
  }

  // -------- the invariant --------

  /** The i-th child of every document is its own i-th chunk, and is there. */
  predicate ChildrenAreOwn(docs: Docs, id: string, children: seq<string>) {
    forall i | 0 <= i < |children| ::
      children[i] == ChunkID(id, i) && children[i] in docs && docs[children[i]].Leaf?
  }

  ghost predicate IsChunkID(id: string) {
    exists d, i :: id == ChunkID(d, i)
  }

  ghost predicate Valid(docs: Docs) {
    && (forall id | id in docs && docs[id].Main? ::
          IsLocal(docs[id].path) && id == DocPathToID(docs[id].path) && ChildrenAreOwn(docs, id, docs[id].children))
    && (forall id | id in docs && docs[id].Leaf? :: IsChunkID(id))
  }

  lemma {:induction false} WithChunksFrame(docs: Docs, id: string, rest: Bytes, chunkSize: nat, index: nat, k: string)
    requires chunkSize > 0
    requires forall i :: i >= index ==> k != ChunkID(id, i)
    ensures Lookup(WithChunks(docs, id, rest, chunkSize, index), k) == Lookup(docs, k)
    decreases |rest|
  {
    if rest != [] {
      var end := if chunkSize > |rest| then |rest| else chunkSize;
      WithChunksFrame(docs[ChunkID(id, index) := Leaf(rest[..end])], id, rest[end..], chunkSize, index + 1, k);
    }
  }

  lemma {:induction false} WithChunksKeys(docs: Docs, id: string, rest: Bytes, chunkSize: nat, index: nat, k: string)
    requires chunkSize > 0
    requires k in WithChunks(docs, id, rest, chunkSize, index)
    ensures k in docs || IsChunkID(k)
    ensures WithChunks(docs, id, rest, chunkSize, index)[k].Main? ==>
      k in docs && WithChunks(docs, id, rest, chunkSize, index)[k] == docs[k]
    ensures WithChunks(docs, id, rest, chunkSize, index)[k].Leaf? ==> (k in docs && docs[k].Leaf?) || IsChunkID(k)
    decreases |rest|
  {
    if rest != [] {
      var end := if chunkSize > |rest| then |rest| else chunkSize;
      WithChunksKeys(docs[ChunkID(id, index) := Leaf(rest[..end])], id, rest[end..], chunkSize, index + 1, k);
    }
  }

  /** The chunk written first is still there when the rest has been written. */
  lemma FirstChunkStays(docs: Docs, id: string, rest: Bytes, chunkSize: nat, index: nat, leaf: Document)
    requires chunkSize > 0
    ensures Lookup(WithChunks(docs[ChunkID(id, index) := leaf], id, rest, chunkSize, index + 1), ChunkID(id, index)) == Some(leaf)
  {
    forall i | i >= index + 1 ensures ChunkID(id, index) != ChunkID(id, i) {
      if ChunkID(id, index) == ChunkID(id, i) {
        ChunkIDInjective(id, index, id, i);
      }
    }
    WithChunksFrame(docs[ChunkID(id, index) := leaf], id, rest, chunkSize, index + 1, ChunkID(id, index));
  }

  predicate ChunksThere(docs: Docs, id: string, index: nat, count: nat) {
    forall k | index <= k < index + count :: ChunkID(id, k) in docs && docs[ChunkID(id, k)].Leaf?
  }

  lemma OneChunkMore(docs: Docs, id: string, index: nat, count: nat, front: Bytes, back: Bytes)
    requires Lookup(docs, ChunkID(id, index)) == Some(Leaf(front))
    requires Reassemble(docs, ChunkIDs(id, index + 1, count), Intended) == Some(back)
    requires ChunksThere(docs, id, index + 1, count)
    ensures Reassemble(docs, ChunkIDs(id, index, count + 1), Intended) == Some(front + back)
    ensures ChunksThere(docs, id, index, count + 1)
  {
    assert ChunkIDs(id, index, count + 1)[0] == ChunkID(id, index);
    assert ChunkIDs(id, index, count + 1)[1..] == ChunkIDs(id, index + 1, count);
  }

  /** Reading the chunks back in order gives the data. */
  lemma {:induction false} ChunksReadBack(docs: Docs, id: string, rest: Bytes, chunkSize: nat, index: nat)
    requires chunkSize > 0
    ensures var all := WithChunks(docs, id, rest, chunkSize, index);
      var n := ChunkCount(|rest|, chunkSize);
      Reassemble(all, ChunkIDs(id, index, n), Intended) == Some(rest) && ChunksThere(all, id, index, n)
    decreases |rest|
  {
    if rest != [] {
      var end := if chunkSize > |rest| then |rest| else chunkSize;
      var docs' := docs[ChunkID(id, index) := Leaf(rest[..end])];
      ChunksReadBack(docs', id, rest[end..], chunkSize, index + 1);
      FirstChunkStays(docs, id, rest[end..], chunkSize, index, Leaf(rest[..end]));
      OneChunkMore(WithChunks(docs, id, rest, chunkSize, index), id, index, ChunkCount(|rest[end..]|, chunkSize),
                   rest[..end], rest[end..]);
      assert rest[..end] + rest[end..] == rest;
    }
  }

  lemma {:induction false} ReassembleFrame(docs: Docs, other: Docs, children: seq<string>, reading: Reading)
    requires forall k | k in children :: Lookup(other, k) == Lookup(docs, k)
    ensures Reassemble(other, children, reading) == Reassemble(docs, children, reading)
  {
    if children != [] {
      assert children[0] in children && forall k | k in children[1..] :: k in children;
      assert Lookup(other, children[0]) == Lookup(docs, children[0]);
      ReassembleFrame(docs, other, children[1..], reading);
    }
  }

  /** Another document and its chunks are not touched by what happens to this one's. */
  lemma OthersUntouched(docs: Docs, other: Docs, path: Path, q: Path, reading: Reading)
    requires Valid(docs) && IsLocal(path) && IsLocal(q) && q != path
    requires forall k | Lookup(other, k) != Lookup(docs, k) ::
      k == DocPathToID(path) || exists i :: k == ChunkID(DocPathToID(path), i)
    ensures Raw(other, q, reading) == Raw(docs, q, reading)
    ensures DocPathToID(q) in docs && docs[DocPathToID(q)].Main? ==>
      ChildrenAreOwn(other, DocPathToID(q), docs[DocPathToID(q)].children)
  {
    var id, qid := DocPathToID(path), DocPathToID(q);
    if qid == id {
      DocIDInjective(q, path);
    }
    forall i ensures qid != ChunkID(id, i) {
      DocIsNoChunk(q, id, i);
    }
    assert Lookup(other, qid) == Lookup(docs, qid);
    if qid in docs && docs[qid].Main? {
      var children := docs[qid].children;
      forall k | k in children ensures Lookup(other, k) == Lookup(docs, k) {
        var j :| 0 <= j < |children| && children[j] == k;
        assert k == ChunkID(qid, j);
        DocIsNoChunk(path, qid, j);
        forall i ensures k != ChunkID(id, i) {
          if k == ChunkID(id, i) {
            ChunkIDInjective(qid, j, id, i);
          }
        }
      }
      ReassembleFrame(docs, other, children, reading);
      forall i | 0 <= i < |children| ensures children[i] in other && other[children[i]].Leaf? {
        assert children[i] in children;
        assert Lookup(other, children[i]) == Lookup(docs, children[i]);
      }
    }
  }

  /** A change that stays within the document of path and its chunks keeps the store valid, if that document is. */
  lemma LocalChangeIsValid(docs: Docs, other: Docs, path: Path)
    requires Valid(docs) && IsLocal(path)
    requires forall k | Lookup(other, k) != Lookup(docs, k) ::
      k == DocPathToID(path) || exists i :: k == ChunkID(DocPathToID(path), i)
    requires forall k | k in other && k != DocPathToID(path) && Lookup(other, k) != Lookup(docs, k) :: other[k].Leaf?
    requires var id := DocPathToID(path);
      id in other ==> other[id].Main? && other[id].path == path && ChildrenAreOwn(other, id, other[id].children)
    ensures Valid(other)
  {
    var id := DocPathToID(path);
    forall k | k in other && other[k].Main?
      ensures IsLocal(other[k].path) && k == DocPathToID(other[k].path) && ChildrenAreOwn(other, k, other[k].children)
    {
      if k != id {
        assert Lookup(other, k) == Lookup(docs, k);
        OthersUntouched(docs, other, path, docs[k].path, Intended);
      }
    }
    forall k | k in other && other[k].Leaf? ensures IsChunkID(k) {
      if Lookup(other, k) == Lookup(docs, k) {
        assert k in docs && docs[k].Leaf?;
      }
    }
  }

  lemma WithChunksChanges(docs: Docs, id: string, raw: Bytes, chunkSize: nat, k: string)
    requires chunkSize > 0
    requires Lookup(WithChunks(docs, id, raw, chunkSize, 0), k) != Lookup(docs, k)
    ensures exists i :: k == ChunkID(id, i)
    ensures k in WithChunks(docs, id, raw, chunkSize, 0) ==> WithChunks(docs, id, raw, chunkSize, 0)[k].Leaf?
  {
    if forall i :: k != ChunkID(id, i) {
      WithChunksFrame(docs, id, raw, chunkSize, 0, k);
    }
    if k in WithChunks(docs, id, raw, chunkSize, 0) {
      WithChunksKeys(docs, id, raw, chunkSize, 0, k);
    }
  }

  lemma ChunkedStored(docs: Docs, path: Path, raw: Bytes, chunkSize: nat)
    requires IsLocal(path) && chunkSize > 0 && NeedsChunks(raw, chunkSize)
    ensures var id := DocPathToID(path);
      var other := Stored(docs, path, raw, chunkSize);
      && ChildrenAreOwn(other, id, other[id].children) && |other[id].children| > 0
      && RawOf(other, other[id], Intended) == Some(raw)
  {
    var id := DocPathToID(path);
    var n := ChunkCount(|raw|, chunkSize);
    var chunks := WithChunks(docs, id, raw, chunkSize, 0);
    var other := Stored(docs, path, raw, chunkSize);
    ChunksReadBack(docs, id, raw, chunkSize, 0);
    forall i | 0 <= i < n ensures ChunkID(id, i) != id && Lookup(other, ChunkID(id, i)) == Lookup(chunks, ChunkID(id, i)) {
      DocIsNoChunk(path, id, i);
    }
    var ids := ChunkIDs(id, 0, n);
    forall k | k in ids ensures Lookup(other, k) == Lookup(chunks, k) {
      var j :| 0 <= j < n && ids[j] == k;
      assert k == ChunkID(id, 0 + j);
    }
    ReassembleFrame(chunks, other, ids, Intended);
  }

  /** Writing a document, inline or in chunks, over whatever was there, updates that one path and no other. */
  lemma StoredRefinesUpdate(docs: Docs, path: Path, raw: Bytes, chunkSize: nat, q: Path)
    requires Valid(docs) && IsLocal(path) && IsLocal(q) && chunkSize > 0
    ensures Valid(Stored(docs, path, raw, chunkSize))
    ensures Raw(Stored(docs, path, raw, chunkSize), q, Intended) == if q == path then Some(raw) else Raw(docs, q, Intended)
    ensures q != path ==> Raw(Stored(docs, path, raw, chunkSize), q, AsCoded) == Raw(docs, q, AsCoded)
  {
    var id := DocPathToID(path);
    var other := Stored(docs, path, raw, chunkSize);
    forall k | Lookup(other, k) != Lookup(docs, k) && k != id
      ensures (exists i :: k == ChunkID(id, i)) && (k in other ==> other[k].Leaf?)
    {
      if NeedsChunks(raw, chunkSize) {
        WithChunksChanges(docs, id, raw, chunkSize, k);
      }
    }
    if NeedsChunks(raw, chunkSize) {
      ChunkedStored(docs, path, raw, chunkSize);
    }
    LocalChangeIsValid(docs, other, path);
    if q != path {
      OthersUntouched(docs, other, path, q, Intended);
      OthersUntouched(docs, other, path, q, AsCoded);
    }
  }

  lemma RemovedRefinesRemoval(docs: Docs, path: Path, q: Path, reading: Reading)
    requires Valid(docs) && IsLocal(path) && IsLocal(q)
    ensures Valid(Removed(docs, path))
    ensures Raw(Removed(docs, path), q, reading) == if q == path then None else Raw(docs, q, reading)
  {
    var id := DocPathToID(path);
    var other := Removed(docs, path);
    forall k | Lookup(other, k) != Lookup(docs, k) && k != id ensures exists i :: k == ChunkID(id, i) {
      assert k in docs[id].children;
    }
    forall k | Lookup(other, k) != Lookup(docs, k) && k != id ensures k !in other { }
    DocMainOrAbsent(docs, path);
    LocalChangeIsValid(docs, other, path);
    if q != path {
      OthersUntouched(docs, other, path, q, reading);
    }
  }

  lemma DocMainOrAbsent(docs: Docs, path: Path)
    requires Valid(docs) && IsLocal(path)
    ensures DocPathToID(path) in docs ==> docs[DocPathToID(path)].Main?
  {
    var id := DocPathToID(path);
    if id in docs && docs[id].Leaf? {
      var d, i :| id == ChunkID(d, i);
      DocIsNoChunk(path, d, i);
    }
  }

  /** Of what is there, a removal takes the document and its chunks, and nothing else: no chunk is left behind. */
  lemma RemovedIs(docs: Docs, path: Path, k: string)
    requires Valid(docs) && IsLocal(path) && DocPathToID(path) in docs
    ensures var id := DocPathToID(path);
      && docs[id].Main?
      && (k in Removed(docs, path) <==> k in docs && k != id && k !in docs[id].children)
      && (k in Removed(docs, path) ==> Removed(docs, path)[k] == docs[k])
  {
    DocMainOrAbsent(docs, path);
  }

  // -------- how large the chunks are --------

  lemma {:induction false} ChunkCountIs(length: nat, size: nat)
    requires size > 0
    ensures ChunkCount(length, size) * size >= length && (ChunkCount(length, size) - 1) * size < length + (if length == 0 then 1 else 0)
    decreases length
  {
    if length > size {
      ChunkCountIs(length - size, size);
      OneSizeMore(ChunkCount(length - size, size), size);
    } else {
      assert -1 * size < 1 && 0 * size == 0 && 1 * size == size;
    }
  }

  lemma OneSizeMore(count: nat, size: nat)
    ensures (1 + count) * size == size + count * size && (1 + count - 1) * size == count * size
    ensures (count - 1) * size == count * size - size
  {}

  /** Bytes of more than the chunk size and more than 51200 are stored in as many chunks as they need, others inline. */
  lemma InlineIff(docs: Docs, path: Path, raw: Bytes, size: nat)
    requires size > 0
    ensures var id := DocPathToID(path);
      var doc := Stored(docs, path, raw, size)[id];
      && doc.Main? && doc.path == path
      && (doc.children == [] <==> |raw| <= size || |raw| <= 51200)
      && (doc.children == [] ==> doc.data == raw)
      && (doc.children != [] ==> (|doc.children| - 1) * size < |raw| <= |doc.children| * size)
  {
    ChunkCountIs(|raw|, size);
    assert 0 * size == 0;
  }

  /** The bytes of the k-th chunk. */
  function Slice(raw: Bytes, from: nat, size: nat): Bytes {
    if from >= |raw| then [] else if from + size <= |raw| then raw[from..from + size] else raw[from..]
  }

  lemma SliceOfTail(raw: Bytes, from: nat, size: nat)
    requires size <= |raw|
    ensures Slice(raw[size..], from, size) == Slice(raw, from + size, size)
  {}

  /** The k-th slice is the one before it in what is left after the first. */
  lemma NextSlice(raw: Bytes, size: nat, k: nat)
    requires size > 0 && k > 0 && size <= |raw|
    ensures (k - 1) * size >= 0 && k * size >= 0 && Slice(raw[size..], (k - 1) * size, size) == Slice(raw, k * size, size)
  {
    OneSizeMore(k - 1, size);
    SliceOfTail(raw, (k - 1) * size, size);
  }

  lemma FirstSlice(docs: Docs, id: string, rest: Bytes, size: nat, index: nat)
    requires size > 0 && rest != []
    ensures Lookup(WithChunks(docs, id, rest, size, index), ChunkID(id, index)) == Some(Leaf(Slice(rest, 0, size)))
  {
    var end := if size > |rest| then |rest| else size;
    FirstChunkStays(docs, id, rest[end..], size, index, Leaf(rest[..end]));
    assert rest[..end] == Slice(rest, 0, size);
  }

  /** All chunks but the last have the chunk size, and together they are the data. */
  lemma {:induction false} ChunkIs(docs: Docs, id: string, rest: Bytes, size: nat, index: nat, k: nat)
    requires size > 0 && k < ChunkCount(|rest|, size)
    ensures k * size >= 0
    ensures Lookup(WithChunks(docs, id, rest, size, index), ChunkID(id, index + k)) == Some(Leaf(Slice(rest, k * size, size)))
    decreases |rest|
  {
    if k == 0 {
      assert 0 * size == 0;
      FirstSlice(docs, id, rest, size, index);
    } else {
      ChunkIs(docs[ChunkID(id, index) := Leaf(rest[..size])], id, rest[size..], size, index + 1, k - 1);
      assert index + 1 + (k - 1) == index + k;
      NextSlice(rest, size, k);
    }
  }

  // -------- reading back as coded --------

  lemma {:induction false} AsCodedIsEmpty(docs: Docs, children: seq<string>)
    requires forall k | k in children :: k in docs
    ensures Reassemble(docs, children, AsCoded) == Some([])
  {
    if children != [] {
      assert children[0] in children && forall k | k in children[1..] :: k in children;
      AsCodedIsEmpty(docs, children[1..]);
      var none: Bytes := [];
      assert ChunkBody(docs[children[0]], AsCoded) + none == none;
    }
  }

  lemma ChildrenArePresent(docs: Docs, id: string, children: seq<string>)
    requires ChildrenAreOwn(docs, id, children)
    ensures forall k | k in children :: k in docs
  {
    forall k | k in children ensures k in docs {
      var j :| 0 <= j < |children| && children[j] == k;
    }
  }

  /** As coded, what was written is read back exactly when it was small enough to be stored inline. */
  lemma ReadBackAsCodedIff(docs: Docs, path: Path, data: Bytes, c: Codec, nonce: Nonce, chunkSize: nat)
    requires Valid(docs) && IsLocal(path) && chunkSize > 0 && c.Sound() && !LooksCompressed(c, data)
    ensures var raw := Encode(c, data, nonce);
      var back := Raw(Stored(docs, path, raw, chunkSize), path, AsCoded);
      && back.Some?
      && (Decode(c, back.value) == Some(data) <==> !NeedsChunks(raw, chunkSize))
  {
    var id, raw := DocPathToID(path), Encode(c, data, nonce);
    var other := Stored(docs, path, raw, chunkSize);
    DecodeUndoesEncodeIff(c, data, nonce);
    if NeedsChunks(raw, chunkSize) {
      ChunkedStored(docs, path, raw, chunkSize);
      ChildrenArePresent(other, id, other[id].children);
      AsCodedIsEmpty(other, other[id].children);
      if !c.encryption {
        assert |Compressed(c, data)| <= |data|;
      }
    }
  }

  // -------- conflict resolution: forcing the local document --------

  /** forceUpdateRemote: drop the remote chunks, then write the inline bytes of the local document, chunked if large. */
  function Forced(docs: Docs, local: Document, remoteChildren: seq<string>, chunkSize: nat): Docs
    requires local.Main? && chunkSize > 0
  {
    Stored(Without(docs, remoteChildren), local.path, local.data, chunkSize)
  }

  /** Forcing leaves none of the remote chunks behind: what has one of their IDs afterwards was written by it. */
  lemma ForcedDropsRemoteChunks(docs: Docs, local: Document, remoteChildren: seq<string>, chunkSize: nat, k: string)
    requires local.Main? && IsLocal(local.path) && chunkSize > 0 && k in remoteChildren
    requires k in Forced(docs, local, remoteChildren, chunkSize)
    ensures k == DocPathToID(local.path) || k in Forced(docs, local, remoteChildren, chunkSize)[DocPathToID(local.path)].children
  {
    var id, bare := DocPathToID(local.path), Without(docs, remoteChildren);
    if k != id && NeedsChunks(local.data, chunkSize) {
      WrittenIsListed(bare, id, local.data, chunkSize, 0, k);
    }
  }

  /** What the writing of chunks adds is among their IDs. */
  lemma {:induction false} WrittenIsListed(docs: Docs, id: string, rest: Bytes, chunkSize: nat, index: nat, k: string)
    requires chunkSize > 0 && k !in docs && k in WithChunks(docs, id, rest, chunkSize, index)
    ensures k in ChunkIDs(id, index, ChunkCount(|rest|, chunkSize))
    decreases |rest|
  {
    var end := if chunkSize > |rest| then |rest| else chunkSize;
    var ids := ChunkIDs(id, index, ChunkCount(|rest|, chunkSize));
    assert ids[0] == ChunkID(id, index);
    if k != ChunkID(id, index) {
      WrittenIsListed(docs[ChunkID(id, index) := Leaf(rest[..end])], id, rest[end..], chunkSize, index + 1, k);
      var later := ChunkIDs(id, index + 1, ChunkCount(|rest[end..]|, chunkSize));
      var i :| 0 <= i < |later| && later[i] == k;
      assert ids[i + 1] == k;
    }
  }

  lemma WithoutChunksValid(docs: Docs, path: Path)
    requires Valid(docs) && IsLocal(path) && DocPathToID(path) in docs && docs[DocPathToID(path)].Main?
    ensures var id := DocPathToID(path);
      var bare := Without(docs, docs[id].children)[id := Main(path, [], [])];
      && Valid(bare)
      && forall q | IsLocal(q) && q != path :: Raw(bare, q, Intended) == Raw(docs, q, Intended)
  {
    var id := DocPathToID(path);
    var bare := Without(docs, docs[id].children)[id := Main(path, [], [])];
    forall k | Lookup(bare, k) != Lookup(docs, k) && k != id ensures (exists i :: k == ChunkID(id, i)) && k !in bare {
      assert k in docs[id].children;
    }
    LocalChangeIsValid(docs, bare, path);
    forall q | IsLocal(q) && q != path ensures Raw(bare, q, Intended) == Raw(docs, q, Intended) {
      OthersUntouched(docs, bare, path, q, Intended);
    }
  }

  /** Where the main document is overwritten anyway, it does not matter what it was while the chunks were written. */
  lemma {:induction false} WithChunksUpdate(docs: Docs, id: string, rest: Bytes, chunkSize: nat, index: nat, doc: Document)
    requires chunkSize > 0 && forall i :: i >= index ==> id != ChunkID(id, i)
    ensures WithChunks(docs[id := doc], id, rest, chunkSize, index) == WithChunks(docs, id, rest, chunkSize, index)[id := doc]
    decreases |rest|
  {
    if rest != [] {
      var end := if chunkSize > |rest| then |rest| else chunkSize;
      var leaf := Leaf(rest[..end]);
      assert docs[id := doc][ChunkID(id, index) := leaf] == docs[ChunkID(id, index) := leaf][id := doc];
      WithChunksUpdate(docs[ChunkID(id, index) := leaf], id, rest[end..], chunkSize, index + 1, doc);
    }
  }

  lemma StoredIgnoresOldMain(docs: Docs, path: Path, raw: Bytes, chunkSize: nat, doc: Document)
    requires IsLocal(path) && chunkSize > 0
    ensures Stored(docs[DocPathToID(path) := doc], path, raw, chunkSize) == Stored(docs, path, raw, chunkSize)
  {
    var id := DocPathToID(path);
    if NeedsChunks(raw, chunkSize) {
      forall i | i >= 0 ensures id != ChunkID(id, i) {
        DocIsNoChunk(path, id, i);
      }
      WithChunksUpdate(docs, id, raw, chunkSize, 0, doc);
    }
  }

  /**
    Forcing the local document keeps its inline bytes whatever their size, even where the chunks deleted first have
    the IDs that are written next. A local document that is itself chunked holds no inline bytes and is emptied: its
    content survives exactly when it has no children or was empty.
   */
  lemma ForcedKeepsContentIff(docs: Docs, local: Document, path: Path, chunkSize: nat, q: Path)
    requires Valid(docs) && IsLocal(path) && IsLocal(q) && chunkSize > 0
    requires DocPathToID(path) in docs && docs[DocPathToID(path)].Main?
    requires local.Main? && local.path == path && (local.children != [] ==> local.data == [])
    ensures var other := Forced(docs, local, docs[DocPathToID(path)].children, chunkSize);
      && Valid(other)
      && (Raw(other, path, Intended) == RawOf(docs, local, Intended) <==>
          local.children == [] || RawOf(docs, local, Intended) == Some([]))
      && (q != path ==> Raw(other, q, Intended) == Raw(docs, q, Intended))
  {
    var id := DocPathToID(path);
    WithoutChunksValid(docs, path);
    var kept := Without(docs, docs[id].children);
    var bare := kept[id := Main(path, [], [])];
    StoredIgnoresOldMain(kept, path, local.data, chunkSize, Main(path, [], []));
    StoredRefinesUpdate(bare, path, local.data, chunkSize, path);
    StoredRefinesUpdate(bare, path, local.data, chunkSize, q);
  }
}

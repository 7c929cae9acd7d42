/**
  The CouchDB peer as an object for a single writer: Put, Delete and Get with their loops, the dedup cache, and the
  changes feed that brings the peer's own writes back. Callers and the cache use global paths, documents local ones.
 */
module CouchPeer {
  import opened Types
  import opened Ids
  import opened Pipeline
  import opened ChunkStore
  import Bridge
  import LruCache
  import Paths

  datatype State = State(docs: Docs, recent: Bridge.Recent)

  /** local and global are the conversions with the base directory of the peer, reported is its filter on the feed. */
  datatype Settings = Settings(
    codec: Codec, chunkSize: nat, reading: Reading,
    local: Path -> Path, global: Path -> Path, reported: Path -> bool)

  /** A clean path whose document cannot be mistaken for a chunk or for another path's. */
  predicate Storable(cfg: Settings, path: Path) {
    Paths.ProperPath(path) && IsLocal((cfg.local)(path))
  }

  /** Documents of different paths are different, and what the feed reports of one is about its path. */
  ghost predicate Converts(cfg: Settings) {
    && (forall p, q | Storable(cfg, p) && Storable(cfg, q) && (cfg.local)(p) == (cfg.local)(q) :: p == q)
    && (forall l: Path | IsLocal(l) && (cfg.reported)(l) && Storable(cfg, (cfg.global)(l)) :: (cfg.local)((cfg.global)(l)) == l)
  }

  /** The conversions with a clean base directory do. */
  lemma BaseDirConverts(cfg: Settings, base: seq<string>)
    requires Paths.ProperNames(base) && forall g :: (cfg.local)(g) == Paths.ToLocalPath(g, Paths.BaseDir(base))
    requires forall l :: (cfg.global)(l) == Paths.ToGlobalPath(l, Paths.BaseDir(base))
    requires forall l :: (cfg.reported)(l) <==> Paths.BaseDir(base) <= l
    ensures Converts(cfg)
  {
    forall p, q | Storable(cfg, p) && Storable(cfg, q) && (cfg.local)(p) == (cfg.local)(q) ensures p == q {
      Paths.LocalInjective(base, p, q);
    }
    forall l: Path | IsLocal(l) && (cfg.reported)(l) && Storable(cfg, (cfg.global)(l))
      ensures (cfg.local)((cfg.global)(l)) == l
    {
      Paths.LocalUndoesGlobal(base, l);
    }
  }

  // -------- operations on values --------

  function Cached(s: State, path: Path): Option<Hash> {
    Lookup(LruCache.Contents(s.recent), path)
  }

  function Marked(recent: Bridge.Recent, path: Path, hash: Hash): Bridge.Recent {
    LruCache.Added(LruCache.Used(recent, path), Bridge.CACHE_SIZE, path, hash)
  }

  function PutTo(s: State, cfg: Settings, path: Path, data: Bytes, nonce: Nonce): State
    requires cfg.chunkSize > 0
  {
    if Cached(s, path) == Some(data) then s.(recent := LruCache.Used(s.recent, path))
    else State(Stored(s.docs, (cfg.local)(path), Encode(cfg.codec, data, nonce), cfg.chunkSize), Marked(s.recent, path, data))
  }

  function DeleteFrom(s: State, cfg: Settings, path: Path): State {
    if Cached(s, path) == Some(DELETED_MARK) || DocPathToID((cfg.local)(path)) !in s.docs
    then s.(recent := LruCache.Used(s.recent, path))
    else State(Removed(s.docs, (cfg.local)(path)), Marked(s.recent, path, DELETED_MARK))
  }

  /** documentToData: None stands for its errors. */
  function DataOf(docs: Docs, doc: Document, cfg: Settings): Option<Bytes>
    requires doc.Main?
  {
    match RawOf(docs, doc, cfg.reading)
    case None => None
    case Some(raw) => Decode(cfg.codec, raw)
  }

  /** None stands for the error that Get returns: no such document, or its bytes do not decode. */
  function GetFrom(s: State, cfg: Settings, path: Path): Option<Bytes> {
    var id := DocPathToID((cfg.local)(path));
    if id in s.docs && s.docs[id].Main? then DataOf(s.docs, s.docs[id], cfg) else None
  }

  /** A change that is no repeat is marked by DispatchFrom, which looks it up once more, and again by the feed loop. */
  function Heard(recent: Bridge.Recent, path: Path, hash: Hash): Bridge.Recent {
    var looked := LruCache.Used(recent, path);
    if Lookup(LruCache.Contents(recent), path) == Some(hash) then looked
    else LruCache.Added(Marked(looked, path, hash), Bridge.CACHE_SIZE, path, hash)
  }

  /** The path of a tombstone is made from its ID, as it has no path of its own. */
  function TombstonePath(cfg: Settings, id: string): Path {
    (cfg.global)(IDToDocPath(id))
  }

  /** What an entry of the feed about a document makes the peer remember. */
  function Entry(s: State, cfg: Settings, id: string): Option<(Path, Hash)> {
    if id !in s.docs then
      (if (cfg.reported)("") then Some((TombstonePath(cfg, id), [])) else None)
    else if s.docs[id].Leaf? || !(cfg.reported)(s.docs[id].path) then None
    else match DataOf(s.docs, s.docs[id], cfg)
      case None => None
      case Some(data) => Some(((cfg.global)(s.docs[id].path), data))
  }

  /** What reaches the hub: DispatchFrom converts the path once more. */
  datatype Change = Change(path: Path, fd: FileData)

  /** What an entry of the feed makes the peer hand to the hub, if anything. */
  function HandedOn(s: State, cfg: Settings, id: string): Option<Change> {
    match Entry(s, cfg, id)
    case None => None
    case Some((path, hash)) =>
      if Cached(s, path) == Some(hash) then None else Some(Change((cfg.global)(path), FileData(hash, id !in s.docs)))
  }

  /** The feed delivers an entry about the document as it is now, or about its deletion. */
  function Fed(s: State, cfg: Settings, id: string): State {
    match Entry(s, cfg, id)
    case None => s
    case Some((path, hash)) => s.(recent := Heard(s.recent, path, hash))
  }

  // -------- refinement of a map from paths to bytes --------

  /** The documents hold just the files of m. */
  ghost predicate Holds(docs: Docs, cfg: Settings, m: map<Path, Bytes>) {
    Valid(docs) && forall p | Storable(cfg, p) :: HoldsAt(docs, cfg, m, p)
  }

  predicate HoldsAt(docs: Docs, cfg: Settings, m: map<Path, Bytes>, p: Path) {
    match Raw(docs, (cfg.local)(p), Intended)
    case None => p !in m
    case Some(raw) => p in m && Decode(cfg.codec, raw) == Some(m[p])
  }

  /** The feed reports deletions, whose hash is that of an empty file. */
  predicate HearsDeletions(cfg: Settings) {
    (cfg.reported)("")
  }

  /** A content whose hash also stands for a deletion. */
  predicate Ambiguous(cfg: Settings, data: Bytes) {
    data == DELETED_MARK || (data == [] && HearsDeletions(cfg))
  }

  /** What a cached hash says about the file as it is in m. */
  predicate SpeaksOf(cfg: Settings, m: map<Path, Bytes>, p: Path, hash: Hash) {
    if hash == DELETED_MARK then p !in m || m[p] == DELETED_MARK
    else (hash == [] && HearsDeletions(cfg)) || Lookup(m, p) == Some(hash)
  }

  ghost predicate Remembers(cache: map<Path, Hash>, cfg: Settings, m: map<Path, Bytes>) {
    forall p | Storable(cfg, p) && p in cache :: SpeaksOf(cfg, m, p, cache[p])
  }

  ghost predicate Represents(s: State, cfg: Settings, m: map<Path, Bytes>) {
    Holds(s.docs, cfg, m) && Bridge.CacheFits(s.recent) && Remembers(LruCache.Contents(s.recent), cfg, m)
  }

  // -------- the cache --------

  /** After a mark: the cache knows it, and nothing else that it did not know before. */
  predicate Knows(before: Bridge.Recent, path: Path, hash: Hash, after: Bridge.Recent) {
    && Bridge.CacheFits(after) && Lookup(LruCache.Contents(after), path) == Some(hash)
    && forall k | k in LruCache.Contents(after) && k != path :: Lookup(LruCache.Contents(before), k) == Some(LruCache.Contents(after)[k])
  }

  lemma MarkedKnows(recent: Bridge.Recent, path: Path, hash: Hash)
    requires Bridge.CacheFits(recent)
    ensures Knows(recent, path, hash, Marked(recent, path, hash))
  {
    LruCache.UsedAddedKnows(recent, Bridge.CACHE_SIZE, path, hash);
  }

  lemma HeardKnows(recent: Bridge.Recent, path: Path, hash: Hash)
    requires Bridge.CacheFits(recent)
    ensures Knows(recent, path, hash, Heard(recent, path, hash))
  {
    LruCache.UsedKeepsContents(recent, path);
    if Lookup(LruCache.Contents(recent), path) != Some(hash) {
      var looked := LruCache.Used(recent, path);
      MarkedKnows(looked, path, hash);
      LruCache.AddedKnows(Marked(looked, path, hash), Bridge.CACHE_SIZE, path, hash);
    }
  }

  lemma RemembersIff(before: Bridge.Recent, after: Bridge.Recent, cfg: Settings, m: map<Path, Bytes>, n: map<Path, Bytes>, path: Path, hash: Hash)
    requires Remembers(LruCache.Contents(before), cfg, m) && Knows(before, path, hash, after) && Storable(cfg, path)
    requires forall p | p != path :: Lookup(n, p) == Lookup(m, p)
    ensures Remembers(LruCache.Contents(after), cfg, n) <==> SpeaksOf(cfg, n, path, hash)
  {
    forall p | p in LruCache.Contents(after) && p != path && Storable(cfg, p) ensures SpeaksOf(cfg, n, p, LruCache.Contents(after)[p]) {
      assert Lookup(LruCache.Contents(before), p) == Some(LruCache.Contents(after)[p]);
      assert Lookup(n, p) == Lookup(m, p) && SpeaksOf(cfg, m, p, LruCache.Contents(before)[p]);
    }
  }

  // -------- each operation --------

  lemma StoredHolds(docs: Docs, cfg: Settings, m: map<Path, Bytes>, path: Path, data: Bytes, nonce: Nonce)
    requires cfg.chunkSize > 0 && cfg.codec.Sound() && Converts(cfg)
    requires Holds(docs, cfg, m) && Storable(cfg, path) && !LooksCompressed(cfg.codec, data)
    ensures Holds(Stored(docs, (cfg.local)(path), Encode(cfg.codec, data, nonce), cfg.chunkSize), cfg, m[path := data])
  {
    var raw, local := Encode(cfg.codec, data, nonce), (cfg.local)(path);
    DecodeUndoesEncodeIff(cfg.codec, data, nonce);
    StoredRefinesUpdate(docs, local, raw, cfg.chunkSize, local);
    var other := Stored(docs, local, raw, cfg.chunkSize);
    forall q | Storable(cfg, q) ensures HoldsAt(other, cfg, m[path := data], q) {
      StoredRefinesUpdate(docs, local, raw, cfg.chunkSize, (cfg.local)(q));
      assert HoldsAt(docs, cfg, m, q);
    }
  }

  lemma RemovedHolds(docs: Docs, cfg: Settings, m: map<Path, Bytes>, path: Path)
    requires Converts(cfg) && Holds(docs, cfg, m) && Storable(cfg, path)
    ensures Holds(Removed(docs, (cfg.local)(path)), cfg, m - {path})
  {
    var local := (cfg.local)(path);
    RemovedRefinesRemoval(docs, local, local, Intended);
    forall q | Storable(cfg, q) ensures HoldsAt(Removed(docs, local), cfg, m - {path}, q) {
      RemovedRefinesRemoval(docs, local, (cfg.local)(q), Intended);
      assert HoldsAt(docs, cfg, m, q);
    }
  }

  /** A lookup changes nothing but the order in the cache. */
  lemma LookupIsNeutral(s: State, cfg: Settings, m: map<Path, Bytes>, path: Path)
    requires Bridge.CacheFits(s.recent)
    ensures Represents(s.(recent := LruCache.Used(s.recent, path)), cfg, m) <==> Represents(s, cfg, m)
  {
    LruCache.UsedKeepsContents(s.recent, path);
  }

  /** The cache answers for a content that is not there: its hash was left by a deletion. */
  predicate Mistaken(s: State, m: map<Path, Bytes>, path: Path, data: Bytes) {
    Cached(s, path) == Some(data) && Lookup(m, path) != Some(data)
  }

  lemma SkippedPut(s: State, cfg: Settings, m: map<Path, Bytes>, path: Path, data: Bytes)
    requires Represents(s, cfg, m) && Storable(cfg, path) && Cached(s, path) == Some(data)
    ensures Represents(s, cfg, m[path := data]) <==> !(Ambiguous(cfg, data) && Mistaken(s, m, path, data))
  {
    assert HoldsAt(s.docs, cfg, m, path) && SpeaksOf(cfg, m, path, data);
    if Lookup(m, path) == Some(data) {
      assert m[path := data] == m;
    } else {
      assert !HoldsAt(s.docs, cfg, m[path := data], path);
    }
  }

  /** A Put acts as a map update exactly when it does not bring back a content taken for a deletion that was seen. */
  lemma PutRefinesIff(s: State, cfg: Settings, m: map<Path, Bytes>, path: Path, data: Bytes, nonce: Nonce)
    requires cfg.chunkSize > 0 && cfg.codec.Sound() && Converts(cfg) && Represents(s, cfg, m) && Storable(cfg, path)
    requires !LooksCompressed(cfg.codec, data)
    ensures Represents(PutTo(s, cfg, path, data, nonce), cfg, m[path := data]) <==>
      !(Ambiguous(cfg, data) && Mistaken(s, m, path, data))
  {
    if Cached(s, path) == Some(data) {
      LookupIsNeutral(s, cfg, m[path := data], path);
      SkippedPut(s, cfg, m, path, data);
    } else {
      StoredHolds(s.docs, cfg, m, path, data, nonce);
      MarkedKnows(s.recent, path, data);
      RemembersIff(s.recent, Marked(s.recent, path, data), cfg, m, m[path := data], path, data);
    }
  }

  lemma SkippedDelete(s: State, cfg: Settings, m: map<Path, Bytes>, path: Path)
    requires Represents(s, cfg, m) && Storable(cfg, path) && Cached(s, path) == Some(DELETED_MARK)
    ensures Represents(s, cfg, m - {path}) <==> path !in m
  {
    assert HoldsAt(s.docs, cfg, m, path);
    if path in m {
      assert !HoldsAt(s.docs, cfg, m - {path}, path);
    } else {
      assert m - {path} == m;
    }
  }

  lemma RemovedRepresents(s: State, cfg: Settings, m: map<Path, Bytes>, path: Path)
    requires Converts(cfg) && Represents(s, cfg, m) && Storable(cfg, path)
    ensures Represents(State(Removed(s.docs, (cfg.local)(path)), Marked(s.recent, path, DELETED_MARK)), cfg, m - {path})
  {
    RemovedHolds(s.docs, cfg, m, path);
    MarkedKnows(s.recent, path, DELETED_MARK);
    RemembersIff(s.recent, Marked(s.recent, path, DELETED_MARK), cfg, m, m - {path}, path, DELETED_MARK);
  }

  lemma AbsentIsAbsent(s: State, cfg: Settings, m: map<Path, Bytes>, path: Path)
    requires Represents(s, cfg, m) && Storable(cfg, path) && DocPathToID((cfg.local)(path)) !in s.docs
    ensures path !in m && m - {path} == m
  {
    assert HoldsAt(s.docs, cfg, m, path);
  }

  /** A Delete acts as a removal exactly when it is not taken for a repeat of the file that is there. */
  lemma DeleteRefinesIff(s: State, cfg: Settings, m: map<Path, Bytes>, path: Path)
    requires Converts(cfg) && Represents(s, cfg, m) && Storable(cfg, path)
    ensures Represents(DeleteFrom(s, cfg, path), cfg, m - {path}) <==> !(Cached(s, path) == Some(DELETED_MARK) && path in m)
  {
    LookupIsNeutral(s, cfg, m - {path}, path);
    if Cached(s, path) == Some(DELETED_MARK) {
      SkippedDelete(s, cfg, m, path);
    } else if DocPathToID((cfg.local)(path)) !in s.docs {
      AbsentIsAbsent(s, cfg, m, path);
    } else {
      RemovedRepresents(s, cfg, m, path);
    }
  }

  /** An entry of the feed, of whatever age, keeps the peer in step exactly when the content in it is the present one. */
  lemma HeardKeepsIff(s: State, cfg: Settings, m: map<Path, Bytes>, path: Path, data: Bytes)
    requires Represents(s, cfg, m) && Storable(cfg, path) && !Ambiguous(cfg, data)
    ensures Represents(s.(recent := Heard(s.recent, path, data)), cfg, m) <==> Lookup(m, path) == Some(data)
  {
    HeardKnows(s.recent, path, data);
    RemembersIff(s.recent, Heard(s.recent, path, data), cfg, m, m, path, data);
  }

  /** A late entry: the Put that writes the old content once more is lost. */
  lemma LateEntryLosesPut(s: State, cfg: Settings, m: map<Path, Bytes>, path: Path, data: Bytes, nonce: Nonce)
    requires cfg.chunkSize > 0 && cfg.reading == Intended && Represents(s, cfg, m) && Storable(cfg, path)
    requires path in m && m[path] != data
    ensures GetFrom(PutTo(s.(recent := Heard(s.recent, path, data)), cfg, path, data, nonce), cfg, path) == Some(m[path])
  {
    HeardKnows(s.recent, path, data);
    assert HoldsAt(s.docs, cfg, m, path);
  }

  /** What an entry of the feed says about a document as it is now is so. */
  lemma EntrySpeaks(s: State, cfg: Settings, m: map<Path, Bytes>, id: string)
    requires Converts(cfg) && cfg.reading == Intended && Holds(s.docs, cfg, m) && Entry(s, cfg, id).Some?
    requires var (path, hash) := Entry(s, cfg, id).value; Storable(cfg, path)
    ensures var (path, hash) := Entry(s, cfg, id).value; SpeaksOf(cfg, m, path, hash)
  {
    if id in s.docs {
      var local := s.docs[id].path;
      var path := (cfg.global)(local);
      assert id == DocPathToID(local) && IsLocal(local) && (cfg.local)(path) == local;
      assert HoldsAt(s.docs, cfg, m, path);
    }
  }

  lemma FedKeeps(s: State, cfg: Settings, m: map<Path, Bytes>, id: string)
    requires Converts(cfg) && cfg.reading == Intended && Represents(s, cfg, m)
    ensures Represents(Fed(s, cfg, id), cfg, m)
  {
    if Entry(s, cfg, id).Some? {
      var (path, hash) := Entry(s, cfg, id).value;
      HeardKnows(s.recent, path, hash);
      var after := Heard(s.recent, path, hash);
      if Storable(cfg, path) {
        EntrySpeaks(s, cfg, m, id);
        RemembersIff(s.recent, after, cfg, m, m, path, hash);
      } else {
        forall p | p in LruCache.Contents(after) && Storable(cfg, p) ensures SpeaksOf(cfg, m, p, LruCache.Contents(after)[p]) {
          assert p != path && Lookup(LruCache.Contents(s.recent), p) == Some(LruCache.Contents(after)[p]);
        }
      }
    }
  }

  ghost predicate Sane(cfg: Settings) {
    cfg.chunkSize > 0 && cfg.codec.Sound() && cfg.reading == Intended && Converts(cfg)
  }

  /** Put, Delete and the feed all make their path the one used most recently, a repeat included. */
  lemma PathIsMostRecent(s: State, cfg: Settings, path: Path, data: Bytes, nonce: Nonce, id: string)
    requires cfg.chunkSize > 0 && Bridge.CacheFits(s.recent)
    ensures var r := PutTo(s, cfg, path, data, nonce).recent; r != [] && r[0] == LruCache.Entry(path, data)
    ensures var r := DeleteFrom(s, cfg, path).recent; Cached(s, path).Some? ==> r != [] && r[0].key == path
    ensures Entry(s, cfg, id).Some? ==>
      var r := Fed(s, cfg, id).recent; r != [] && r[0] == LruCache.Entry(Entry(s, cfg, id).value.0, Entry(s, cfg, id).value.1)
  {}

  // -------- what reaches the hub --------

  /** The report is handed on exactly when the cache does not hold its hash for the path; afterwards the cache does. */
  predicate HandsOn(cfg: Settings, s: State, next: State, handed: Option<Change>, path: Path, fd: FileData) {
    && (handed == None <==> Cached(s, path) == Some(fd.data))
    && (handed.Some? ==> handed.value == Change((cfg.global)(path), fd))
    && Cached(next, path) == Some(fd.data) && next.docs == s.docs
  }

  /**
    A live document under the base directory that decodes is handed on, unless the cache knows it, as the global form of
    its path with its data; the deletion of a document is, where the base directory is empty. Nothing else is.
   */
  predicate HandsOnAll(cfg: Settings, s: State, next: State, handed: Option<Change>, id: string) {
    if id in s.docs then
      if s.docs[id].Main? && (cfg.reported)(s.docs[id].path) && DataOf(s.docs, s.docs[id], cfg).Some? then
        HandsOn(cfg, s, next, handed, (cfg.global)(s.docs[id].path), FileData(DataOf(s.docs, s.docs[id], cfg).value, false))
      else handed == None && next == s
    else
      if (cfg.reported)("") then HandsOn(cfg, s, next, handed, (cfg.global)(IDToDocPath(id)), FileData([], true))
      else handed == None && next == s
  }

  lemma FedHandsOnAll(s: State, cfg: Settings, id: string)
    requires Bridge.CacheFits(s.recent)
    ensures HandsOnAll(cfg, s, Fed(s, cfg, id), HandedOn(s, cfg, id), id)
  {
    if Entry(s, cfg, id).Some? {
      HeardKnows(s.recent, Entry(s, cfg, id).value.0, Entry(s, cfg, id).value.1);
    }
  }

  /** An entry of a document for which Get answers is handed on exactly when the cache does not know the answer. */
  lemma LiveIsHandedOnIff(s: State, cfg: Settings, path: Path, data: Bytes)
    requires Valid(s.docs) && IsLocal((cfg.local)(path)) && (cfg.global)((cfg.local)(path)) == path
    requires (cfg.reported)((cfg.local)(path)) && GetFrom(s, cfg, path) == Some(data)
    ensures HandedOn(s, cfg, DocPathToID((cfg.local)(path))) ==
      if Cached(s, path) == Some(data) then None else Some(Change((cfg.global)(path), FileData(data, false)))
  {
    var id := DocPathToID((cfg.local)(path));
    DocIDInjective(s.docs[id].path, (cfg.local)(path));
  }

  /** The echo of a Put is not handed on, as long as its hash has not been pushed out of the cache. */
  lemma EchoOfPutIsDropped(s: State, cfg: Settings, m: map<Path, Bytes>, path: Path, data: Bytes, nonce: Nonce)
    requires Sane(cfg) && Represents(s, cfg, m) && Storable(cfg, path) && !LooksCompressed(cfg.codec, data)
    requires Cached(s, path) != Some(data) && (cfg.global)((cfg.local)(path)) == path
    ensures var put := PutTo(s, cfg, path, data, nonce);
      GetFrom(put, cfg, path) == Some(data) && HandedOn(put, cfg, DocPathToID((cfg.local)(path))) == None
  {
    var put := PutTo(s, cfg, path, data, nonce);
    PutRefinesIff(s, cfg, m, path, data, nonce);
    MarkedKnows(s.recent, path, data);
    assert HoldsAt(put.docs, cfg, m[path := data], path);
    if (cfg.reported)((cfg.local)(path)) {
      LiveIsHandedOnIff(put, cfg, path, data);
    } else {
      var id := DocPathToID((cfg.local)(path));
      DocIDInjective(put.docs[id].path, (cfg.local)(path));
    }
  }

  /** The second of two entries in a row about a document is never handed on. */
  lemma SecondEntryIsDropped(s: State, cfg: Settings, id: string)
    requires Bridge.CacheFits(s.recent)
    ensures HandedOn(Fed(s, cfg, id), cfg, id) == None
  {
    if Entry(s, cfg, id).Some? {
      HeardKnows(s.recent, Entry(s, cfg, id).value.0, Entry(s, cfg, id).value.1);
    }
  }

  /** The echo of a Delete is handed on, once: a deletion record has the hash of an empty file, not that of the mark. */
  lemma EchoOfDeleteIsHandedOn(s: State, cfg: Settings, path: Path)
    requires Bridge.CacheFits(s.recent) && HearsDeletions(cfg) && DocPathToID((cfg.local)(path)) in s.docs
    requires Cached(s, path) != Some(DELETED_MARK) && TombstonePath(cfg, DocPathToID((cfg.local)(path))) == path
    requires s.docs[DocPathToID((cfg.local)(path))].Main?
    ensures HandedOn(DeleteFrom(s, cfg, path), cfg, DocPathToID((cfg.local)(path))) ==
      Some(Change((cfg.global)(path), FileData([], true)))
  {
    MarkedKnows(s.recent, path, DELETED_MARK);
  }

  // -------- runs --------

  datatype Op =
    | OpPut(path: Path, data: Bytes, nonce: Nonce)
    | OpDelete(path: Path)
    | OpGet(path: Path)
    | OpFeed(id: string)

  /** Paths that can be stored, and contents of the given kind. Entries of the feed come when they will. */
  ghost predicate Proper(cfg: Settings, contents: iset<Bytes>, op: Op) {
    op.OpFeed? || (Storable(cfg, op.path) && (op.OpPut? ==> op.data in contents))
  }

  function Next(s: State, cfg: Settings, op: Op): State
    requires cfg.chunkSize > 0
  {
    match op
    case OpPut(p, d, n) => PutTo(s, cfg, p, d, n)
    case OpDelete(p) => DeleteFrom(s, cfg, p)
    case OpGet(_) => s
    case OpFeed(id) => Fed(s, cfg, id)
  }

  function NextMap(m: map<Path, Bytes>, op: Op): map<Path, Bytes> {
    match op
    case OpPut(p, d, _) => m[p := d]
    case OpDelete(p) => m - {p}
    case _ => m
  }

  function PeerAnswers(s: State, cfg: Settings, ops: seq<Op>): seq<Option<Bytes>>
    requires cfg.chunkSize > 0
    decreases |ops|
  {
    if ops == [] then []
    else
      (if ops[0].OpGet? then [GetFrom(s, cfg, ops[0].path)] else []) + PeerAnswers(Next(s, cfg, ops[0]), cfg, ops[1..])
  }

  function MapAnswers(m: map<Path, Bytes>, ops: seq<Op>): seq<Option<Bytes>>
    decreases |ops|
  {
    if ops == [] then []
    else (if ops[0].OpGet? then [Lookup(m, ops[0].path)] else []) + MapAnswers(NextMap(m, ops[0]), ops[1..])
  }

  /** Contents that survive the pipeline and stand for no deletion. */
  ghost predicate Good(cfg: Settings, contents: iset<Bytes>) {
    forall d | d in contents :: !LooksCompressed(cfg.codec, d) && !Ambiguous(cfg, d)
  }

  ghost predicate Follows(s: State, cfg: Settings, contents: iset<Bytes>, m: map<Path, Bytes>) {
    Represents(s, cfg, m) && forall p | p in m && Storable(cfg, p) :: m[p] in contents
  }

  lemma StepFollows(s: State, cfg: Settings, contents: iset<Bytes>, m: map<Path, Bytes>, op: Op)
    requires Sane(cfg) && Good(cfg, contents) && Follows(s, cfg, contents, m) && Proper(cfg, contents, op)
    ensures Follows(Next(s, cfg, op), cfg, contents, NextMap(m, op))
  {
    match op
    case OpPut(p, d, n) => PutRefinesIff(s, cfg, m, p, d, n);
    case OpDelete(p) =>
      DeleteRefinesIff(s, cfg, m, p);
      assert p in m ==> m[p] in contents;
    case OpGet(_) =>
    case OpFeed(id) => FedKeeps(s, cfg, m, id);
  }

  /** Every run answers as a map from paths to bytes would, wherever the entries of the feed fall. */
  lemma {:induction false} RunsAnswerAsMap(s: State, cfg: Settings, contents: iset<Bytes>, m: map<Path, Bytes>, ops: seq<Op>)
    requires Sane(cfg) && Good(cfg, contents) && Follows(s, cfg, contents, m)
    requires forall op | op in ops :: Proper(cfg, contents, op)
    ensures PeerAnswers(s, cfg, ops) == MapAnswers(m, ops)
    decreases |ops|
  {
    if ops != [] {
      assert Proper(cfg, contents, ops[0]);
      StepFollows(s, cfg, contents, m, ops[0]);
      if ops[0].OpGet? {
        assert HoldsAt(s.docs, cfg, m, ops[0].path);
      }
      RunsAnswerAsMap(Next(s, cfg, ops[0]), cfg, contents, NextMap(m, ops[0]), ops[1..]);
    }
  }

  // -------- which contents --------

  const EMPTY := State(map[], [])

  /** Every run from an empty database over these contents answers as a map. */
  ghost predicate AlwaysAnswers(cfg: Settings, contents: iset<Bytes>)
    requires cfg.chunkSize > 0
  {
    forall ops | (forall op | op in ops :: Proper(cfg, contents, op)) :: PeerAnswers(EMPTY, cfg, ops) == MapAnswers(map[], ops)
  }

  lemma EmptyFollows(cfg: Settings, contents: iset<Bytes>)
    ensures Follows(EMPTY, cfg, contents, map[])
  {}

  /** A Put of a mistaken content shows in the next Get. */
  lemma MistakenPutShows(s: State, cfg: Settings, m: map<Path, Bytes>, path: Path, data: Bytes)
    requires Sane(cfg) && Represents(s, cfg, m) && Storable(cfg, path) && path !in m && Cached(s, path) == Some(data)
    ensures PeerAnswers(s, cfg, [OpPut(path, data, 0), OpGet(path)]) == [None]
    ensures MapAnswers(m, [OpPut(path, data, 0), OpGet(path)]) == [Some(data)]
  {
    assert HoldsAt(s.docs, cfg, m, path);
    AnswersAfter(s, cfg, m, OpPut(path, data, 0), [OpGet(path)]);
    OneGet(PutTo(s, cfg, path, data, 0), cfg, m[path := data], path);
    assert [OpPut(path, data, 0), OpGet(path)] == [OpPut(path, data, 0)] + [OpGet(path)];
  }

  lemma {:induction false} AnswersAfter(s: State, cfg: Settings, m: map<Path, Bytes>, front: Op, rest: seq<Op>)
    requires cfg.chunkSize > 0 && !front.OpGet?
    ensures PeerAnswers(s, cfg, [front] + rest) == PeerAnswers(Next(s, cfg, front), cfg, rest)
    ensures MapAnswers(m, [front] + rest) == MapAnswers(NextMap(m, front), rest)
  {
    assert ([front] + rest)[1..] == rest;
  }

  /** The first Put and the Delete after it; the mark of the deletion is in the cache. */
  lemma PutThenDelete(cfg: Settings, path: Path, data: Bytes) returns (s: State)
    requires Sane(cfg) && Storable(cfg, path) && !LooksCompressed(cfg.codec, data) && data != DELETED_MARK
    ensures s == DeleteFrom(PutTo(EMPTY, cfg, path, data, 0), cfg, path)
    ensures Represents(s, cfg, map[]) && DocPathToID((cfg.local)(path)) !in s.docs
  {
    EmptyFollows(cfg, iset{});
    PutRefinesIff(EMPTY, cfg, map[], path, data, 0);
    var put := PutTo(EMPTY, cfg, path, data, 0);
    MarkedKnows([], path, data);
    DeleteRefinesIff(put, cfg, map[][path := data], path);
    s := DeleteFrom(put, cfg, path);
    var files: map<Path, Bytes> := map[path := data];
    assert map[][path := data] == files && files - {path} == map[];
  }

  /** A file whose content is the deletion mark is not deleted. */
  lemma MarkIsNotDeleted(cfg: Settings, path: Path)
    requires Sane(cfg) && Storable(cfg, path) && !LooksCompressed(cfg.codec, DELETED_MARK)
    ensures var ops := [OpPut(path, DELETED_MARK, 0)] + ([OpDelete(path)] + [OpGet(path)]);
      PeerAnswers(EMPTY, cfg, ops) == [Some(DELETED_MARK)] && MapAnswers(map[], ops) == [None]
  {
    EmptyFollows(cfg, iset{});
    PutRefinesIff(EMPTY, cfg, map[], path, DELETED_MARK, 0);
    MarkedKnows([], path, DELETED_MARK);
    var put, m := PutTo(EMPTY, cfg, path, DELETED_MARK, 0), map[path := DELETED_MARK];
    assert map[][path := DELETED_MARK] == m;
    assert Cached(put, path) == Some(DELETED_MARK) && HoldsAt(put.docs, cfg, m, path);
    AnswersAfter(EMPTY, cfg, map[], OpPut(path, DELETED_MARK, 0), [OpDelete(path)] + [OpGet(path)]);
    AnswersAfter(put, cfg, m, OpDelete(path), [OpGet(path)]);
    OneGet(DeleteFrom(put, cfg, path), cfg, m - {path}, path);
  }

  lemma OneGet(s: State, cfg: Settings, m: map<Path, Bytes>, path: Path)
    requires cfg.chunkSize > 0
    ensures PeerAnswers(s, cfg, [OpGet(path)]) == [GetFrom(s, cfg, path)] && MapAnswers(m, [OpGet(path)]) == [Lookup(m, path)]
  {
    assert [OpGet(path)][1..] == [];
  }

  /** The deletion of an empty file comes back on the feed. */
  lemma DeletionComesBack(cfg: Settings, path: Path) returns (s: State)
    requires Sane(cfg) && Storable(cfg, path) && !LooksCompressed(cfg.codec, []) && HearsDeletions(cfg)
    requires TombstonePath(cfg, DocPathToID((cfg.local)(path))) == path
    ensures s == Fed(DeleteFrom(PutTo(EMPTY, cfg, path, [], 0), cfg, path), cfg, DocPathToID((cfg.local)(path)))
    ensures Represents(s, cfg, map[]) && Cached(s, path) == Some([])
  {
    var id := DocPathToID((cfg.local)(path));
    var gone := PutThenDelete(cfg, path, []);
    s := Fed(gone, cfg, id);
    FedKeeps(gone, cfg, map[], id);
    HeardKnows(gone.recent, path, []);
  }

  /** A Put, a Delete and an entry of the feed give no answers. */
  lemma ThreeSteps(cfg: Settings, path: Path, id: string, last: seq<Op>)
    requires cfg.chunkSize > 0
    ensures var ops := [OpPut(path, [], 0)] + ([OpDelete(path)] + ([OpFeed(id)] + last));
      && PeerAnswers(EMPTY, cfg, ops) == PeerAnswers(Fed(DeleteFrom(PutTo(EMPTY, cfg, path, [], 0), cfg, path), cfg, id), cfg, last)
      && MapAnswers(map[], ops) == MapAnswers(map[], last)
  {
    var put: State, m: map<Path, Bytes> := PutTo(EMPTY, cfg, path, [], 0), map[path := []];
    AnswersAfter(EMPTY, cfg, map[], OpPut(path, [], 0), [OpDelete(path)] + ([OpFeed(id)] + last));
    AnswersAfter(put, cfg, m, OpDelete(path), [OpFeed(id)] + last);
    assert m - {path} == map[];
    AnswersAfter(DeleteFrom(put, cfg, path), cfg, map[], OpFeed(id), last);
  }

  /** An empty file is not written after its deletion came back on the feed. */
  lemma EmptyIsNotWritten(cfg: Settings, path: Path)
    requires Sane(cfg) && Storable(cfg, path) && !LooksCompressed(cfg.codec, []) && HearsDeletions(cfg)
    requires TombstonePath(cfg, DocPathToID((cfg.local)(path))) == path
    ensures var ops := EmptyTwice(cfg, path); PeerAnswers(EMPTY, cfg, ops) == [None] && MapAnswers(map[], ops) == [Some([])]
  {
    var s := DeletionComesBack(cfg, path);
    MistakenPutShows(s, cfg, map[], path, []);
    ThreeSteps(cfg, path, DocPathToID((cfg.local)(path)), [OpPut(path, [], 0), OpGet(path)]);
  }

  function EmptyTwice(cfg: Settings, path: Path): seq<Op> {
    [OpPut(path, [], 0)] + ([OpDelete(path)] + ([OpFeed(DocPathToID((cfg.local)(path)))] + [OpPut(path, [], 0), OpGet(path)]))
  }

  lemma OneRunBreaks(cfg: Settings, contents: iset<Bytes>, ops: seq<Op>)
    requires cfg.chunkSize > 0 && PeerAnswers(EMPTY, cfg, ops) != MapAnswers(map[], ops)
    requires forall op | op in ops :: Proper(cfg, contents, op)
    ensures !AlwaysAnswers(cfg, contents)
  {}

  lemma MarkBreaks(cfg: Settings, contents: iset<Bytes>, path: Path)
    requires Sane(cfg) && Storable(cfg, path) && !LooksCompressed(cfg.codec, DELETED_MARK) && DELETED_MARK in contents
    ensures !AlwaysAnswers(cfg, contents)
  {
    MarkIsNotDeleted(cfg, path);
    OneRunBreaks(cfg, contents, [OpPut(path, DELETED_MARK, 0)] + ([OpDelete(path)] + [OpGet(path)]));
  }

  lemma EmptyBreaks(cfg: Settings, contents: iset<Bytes>, path: Path)
    requires Sane(cfg) && Storable(cfg, path) && !LooksCompressed(cfg.codec, []) && HearsDeletions(cfg) && [] in contents
    requires TombstonePath(cfg, DocPathToID((cfg.local)(path))) == path
    ensures !AlwaysAnswers(cfg, contents)
  {
    EmptyIsNotWritten(cfg, path);
    EmptyTwiceProper(cfg, contents, path);
    OneRunBreaks(cfg, contents, EmptyTwice(cfg, path));
  }

  lemma EmptyTwiceProper(cfg: Settings, contents: iset<Bytes>, path: Path)
    requires Storable(cfg, path) && [] in contents
    ensures forall op | op in EmptyTwice(cfg, path) :: Proper(cfg, contents, op)
  {}

  lemma GoodAnswers(cfg: Settings, contents: iset<Bytes>)
    requires Sane(cfg) && Good(cfg, contents)
    ensures AlwaysAnswers(cfg, contents)
  {
    EmptyFollows(cfg, contents);
    forall ops | forall op | op in ops :: Proper(cfg, contents, op)
      ensures PeerAnswers(EMPTY, cfg, ops) == MapAnswers(map[], ops)
    {
      RunsAnswerAsMap(EMPTY, cfg, contents, map[], ops);
    }
  }

  /**
    Runs from an empty database answer as a map, wherever the entries of the feed fall, if and only if no content is the
    deletion mark and, where the feed reports deletions, none is empty.
   */
  lemma AlwaysAnswersIff(cfg: Settings, contents: iset<Bytes>, path: Path)
    requires Sane(cfg) && Storable(cfg, path)
    requires HearsDeletions(cfg) ==> TombstonePath(cfg, DocPathToID((cfg.local)(path))) == path
    requires forall d | d in contents :: !LooksCompressed(cfg.codec, d)
    ensures AlwaysAnswers(cfg, contents) <==> DELETED_MARK !in contents && (HearsDeletions(cfg) ==> [] !in contents)
  {
    if DELETED_MARK in contents {
      MarkBreaks(cfg, contents, path);
    } else if HearsDeletions(cfg) && [] in contents {
      EmptyBreaks(cfg, contents, path);
    } else {
      GoodAnswers(cfg, contents);
    }
  }

  // -------- the object --------

  class CouchPeer {
    const settings: Settings
    var docs: Docs
    var recent: Bridge.Recent

    constructor (settings: Settings)
      ensures this.settings == settings && Value() == EMPTY
    {
      this.settings, docs, recent := settings, map[], [];
    }

    function Value(): State
      reads this
    {
      State(docs, recent)
    }

    method IsRepeating(path: Path, hash: Hash) returns (repeating: bool)
      modifies this`recent
      ensures recent == LruCache.Used(old(recent), path) && repeating == (old(Cached(Value(), path)) == Some(hash))
    {
      repeating := Lookup(LruCache.Contents(recent), path) == Some(hash);
      recent := LruCache.Used(recent, path);
    }

    method MarkProcessed(path: Path, hash: Hash)
      modifies this`recent
      ensures recent == LruCache.Added(old(recent), Bridge.CACHE_SIZE, path, hash)
    {
      recent := LruCache.Added(recent, Bridge.CACHE_SIZE, path, hash);
    }

    method Put(path: Path, data: Bytes, nonce: Nonce) returns (sent: bool)
      requires settings.chunkSize > 0
      modifies this
      ensures Value() == PutTo(old(Value()), settings, path, data, nonce)
      ensures sent <==> old(Cached(Value(), path)) != Some(data)
    {
      var repeating := IsRepeating(path, data);
      if repeating {
        return false;
      }
      var localPath := (settings.local)(path);
      var processed := Encode(settings.codec, data, nonce);
      MarkProcessed(path, data);
      if |processed| > settings.chunkSize && |processed| > MIN_CHUNK_SIZE {
        PutChunked(localPath, processed);
      } else {
        docs := docs[DocPathToID(localPath) := Main(localPath, processed, [])];
      }
      sent := true;
    }

    method PutChunked(path: Path, data: Bytes)
      requires settings.chunkSize > 0 && NeedsChunks(data, settings.chunkSize)
      modifies this`docs
      ensures docs == Stored(old(docs), path, data, settings.chunkSize)
    {
      var id := DocPathToID(path);
      var size := settings.chunkSize;
      var chunks: seq<string> := [];
      var i := 0;
      ghost var goal := WithChunks(docs, id, data, size, 0);
      ghost var n := ChunkCount(|data|, size);
      assert data[0..] == data;
      while i < |data|
        invariant 0 <= i <= |data| && n == |chunks| + ChunkCount(|data| - i, size)
        invariant chunks == ChunkIDs(id, 0, |chunks|)
        invariant i < |data| ==> i == |chunks| * size
        invariant goal == WithChunks(docs, id, data[i..], size, |chunks|)
      {
        var end := i + size;
        if end > |data| {
          end := |data|;
        }
        ChunkIndex(i, size, |chunks|);
        var chunkID := ChunkID(id, i / size);
        OneChunk(docs, id, data, size, i, end, |chunks|);
        docs := docs[chunkID := Leaf(data[i..end])];
        MoreChunkIDs(id, |chunks|);
        chunks := chunks + [chunkID];
        i := end;
      }
      docs := docs[id := Main(path, [], chunks)];
    }

    /** The local document replaces the remote one; the chunks of the remote one are deleted first. */
    method ForceUpdateRemote(local: Document, remoteChildren: seq<string>)
      requires local.Main? && settings.chunkSize > 0
      modifies this`docs
      ensures docs == Forced(old(docs), local, remoteChildren, settings.chunkSize)
    {
      DeleteChunks(remoteChildren);
      if NeedsChunks(local.data, settings.chunkSize) {
        PutChunked(local.path, local.data);
      } else {
        docs := docs[DocPathToID(local.path) := Main(local.path, local.data, [])];
      }
    }

    method DeleteChunks(children: seq<string>)
      modifies this`docs
      ensures docs == Without(old(docs), children)
    {
      for i := 0 to |children|
        invariant docs == Without(old(docs), children[..i])
      {
        assert children[..i + 1] == children[..i] + [children[i]];
        docs := docs - {children[i]};
      }
      assert children[..|children|] == children;
    }

    method Delete(path: Path) returns (deleted: bool)
      requires Valid(docs) && IsLocal((settings.local)(path))
      modifies this
      ensures Value() == DeleteFrom(old(Value()), settings, path)
      ensures deleted <==> old(Cached(Value(), path)) != Some(DELETED_MARK) && DocPathToID((settings.local)(path)) in old(docs)
    {
      var localPath := (settings.local)(path);
      var id := DocPathToID(localPath);
      var repeating := IsRepeating(path, DELETED_MARK);
      if repeating || id !in docs {
        return false;
      }
      DocMainOrAbsent(docs, localPath);
      DeleteChunks(docs[id].children);
      MarkProcessed(path, DELETED_MARK);
      docs := docs - {id};
      deleted := true;
      assert id in old(docs) && id !in docs;
    }

    method Get(path: Path) returns (data: Option<Bytes>)
      ensures data == GetFrom(Value(), settings, path)
    {
      var id := DocPathToID((settings.local)(path));
      if id !in docs || docs[id].Leaf? {
        return None;
      }
      data := DocumentToData(id);
    }

    /** DispatchFrom: a repeat stops here, anything else is marked and handed to the hub. */
    method DispatchFrom(path: Path, fd: FileData) returns (handed: Option<Change>)
      modifies this`recent
      ensures var looked := LruCache.Used(old(recent), path);
        recent == if handed.Some? then LruCache.Added(looked, Bridge.CACHE_SIZE, path, fd.data) else looked
      ensures handed ==
        if old(Cached(Value(), path)) == Some(fd.data) then None else Some(Change((settings.global)(path), fd))
    {
      var repeating := IsRepeating(path, fd.data);
      if repeating {
        return None;
      }
      MarkProcessed(path, fd.data);
      handed := Some(Change((settings.global)(path), fd));
    }

    /** The body of the feed loop for a document as it is when the entry is read, with what it hands to the hub. */
    method HandleChange(id: string) returns (handed: Option<Change>)
      requires Bridge.CacheFits(recent)
      modifies this`recent
      ensures HandsOnAll(settings, old(Value()), Value(), handed, id)
      ensures Value() == Fed(old(Value()), settings, id) && handed == HandedOn(old(Value()), settings, id)
    {
      FedHandsOnAll(Value(), settings, id);
      var path := if id in docs && docs[id].Main? then docs[id].path else "";
      if !(settings.reported)(path) || (id in docs && docs[id].Leaf?) {
        return None;
      }
      var globalPath, fd := (settings.global)(path), FileData([], true);
      if id !in docs {
        globalPath := (settings.global)(IDToDocPath(id));
      } else {
        var data := DocumentToData(id);
        if data.None? {
          return None;
        }
        fd := FileData(data.value, false);
      }
      LruCache.UsedKeepsContents(recent, globalPath);
      var repeating := IsRepeating(globalPath, fd.data);
      if repeating {
        return None;
      }
      handed := DispatchFrom(globalPath, fd);
      MarkProcessed(globalPath, fd.data);
    }

    method DocumentToData(id: string) returns (data: Option<Bytes>)
      requires id in docs && docs[id].Main?
      ensures data == DataOf(docs, docs[id], settings)
    {
      var raw := Some(docs[id].data);
      if docs[id].children != [] {
        raw := ReassembleChunks(docs[id].children);
      }
      data := if raw.None? then None else Decode(settings.codec, raw.value);
    }

    method ReassembleChunks(chunkIDs: seq<string>) returns (result: Option<Bytes>)
      ensures result == Reassemble(docs, chunkIDs, settings.reading)
    {
      var buffer: Bytes := [];
      assert chunkIDs[0..] == chunkIDs;
      PrependNothing(Reassemble(docs, chunkIDs, settings.reading));
      for i := 0 to |chunkIDs|
        invariant Reassemble(docs, chunkIDs, settings.reading) == Prepended(buffer, Reassemble(docs, chunkIDs[i..], settings.reading))
      {
        assert chunkIDs[i..][1..] == chunkIDs[i + 1..];
        if chunkIDs[i] !in docs {
          return None;
        }
        var body := ChunkBody(docs[chunkIDs[i]], settings.reading);
        PrependTwice(buffer, body, Reassemble(docs, chunkIDs[i + 1..], settings.reading));
        buffer := buffer + body;
      }
      result := Some(buffer);
      assert buffer + [] == buffer;
    }
  }

  function Prepended(front: Bytes, rest: Option<Bytes>): Option<Bytes> {
    if rest.None? then None else Some(front + rest.value)
  }

  lemma PrependNothing(rest: Option<Bytes>)
    ensures Prepended([], rest) == rest
  {
    if rest.Some? {
      assert [] + rest.value == rest.value;
    }
  }

  lemma PrependTwice(a: Bytes, b: Bytes, rest: Option<Bytes>)
    ensures Prepended(a, Prepended(b, rest)) == Prepended(a + b, rest)
  {
    if rest.Some? {
      assert a + (b + rest.value) == (a + b) + rest.value;
    }
  }

  lemma MoreChunkIDs(id: string, count: nat)
    ensures ChunkIDs(id, 0, count) + [ChunkID(id, count)] == ChunkIDs(id, 0, count + 1)
  {}

  lemma FirstChunk(docs: Docs, id: string, rest: Bytes, size: nat, index: nat, end: nat)
    requires size > 0 && rest != [] && end == if size > |rest| then |rest| else size
    ensures WithChunks(docs, id, rest, size, index) ==
      WithChunks(docs[ChunkID(id, index) := Leaf(rest[..end])], id, rest[end..], size, index + 1)
  {}

  lemma SliceOfRest(data: Bytes, i: nat, end: nat)
    requires i <= end <= |data|
    ensures data[i..][..end - i] == data[i..end] && data[i..][end - i..] == data[end..]
  {}

  lemma CountOne(length: nat, size: nat, i: nat, end: nat)
    requires size > 0 && i < length && end == if i + size > length then length else i + size
    ensures ChunkCount(length - i, size) == 1 + ChunkCount(length - end, size)
  {}

  /** One turn of the loop of putChunked is one unfolding of WithChunks. */
  lemma OneChunk(docs: Docs, id: string, data: Bytes, size: nat, i: nat, end: nat, index: nat)
    requires size > 0 && i < |data| && end == if i + size > |data| then |data| else i + size
    ensures WithChunks(docs, id, data[i..], size, index) ==
      WithChunks(docs[ChunkID(id, index) := Leaf(data[i..end])], id, data[end..], size, index + 1)
    ensures ChunkCount(|data| - i, size) == 1 + ChunkCount(|data| - end, size)
    ensures end < |data| && i == index * size ==> end == (index + 1) * size
  {
    FirstChunk(docs, id, data[i..], size, index, end - i);
    SliceOfRest(data, i, end);
    CountOne(|data|, size, i, end);
  }

  lemma SameQuotient(q: nat, r: nat, k: nat, size: nat)
    requires r < size && q * size + r == k * size
    ensures q == k
  {
    var d: int := k - q;
    assert d * size == k * size - q * size == r;
    AtLeastOnce(d, size);
  }

  lemma AtLeastOnce(d: int, size: nat)
    ensures d >= 1 ==> d * size >= size
    ensures d <= -1 ==> d * size + size <= 0
  {}

  lemma ChunkIndex(i: nat, size: nat, k: nat)
    requires size > 0 && i == k * size
    ensures i / size == k
  {
    SameQuotient(i / size, i % size, k, size);
  }
}

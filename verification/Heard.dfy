/**
  What a peer holds at the end of any run: whatever the cache forgets, however events of one path overlap, a peer
  without an open event holds the last change of the path that it sent or accepted. So a group that is quiet agrees
  if and only if its members heard the same last.
 */
module Heard {
  import opened Types
  import opened SyncPeers
  import opened Echo
  import opened Bridge
  import Convergence
  import LruCache
  import Overlap
  import Paths

  function Value(fd: FileData): Option<Bytes> {
    if fd.deleted then None else Some(fd.data)
  }

  /** The last change of the path that peer j has sent, or received and carried out. */
  function HeardAfter(b: Bridge, a: NetAction, j: nat, path: Path, before: Option<Bytes>): Option<Bytes>
    requires BridgeEnabled(b, a)
  {
    match a
    case User(_) => before
    case Open(i, q) =>
      if i == j && q == path && Taken(b.nodes[i], b.size, q).1 then Value(b.nodes[i].View().Payload(q)) else before
    case Arrive(k) =>
      var x := b.flight[k];
      if x.target == j && x.path == path && ReceiveNode(b.nodes[j], b.size, path, x.fd, true).reply == Answer(true)
      then Value(x.fd) else before
  }

  function HeardLast(b: Bridge, acts: seq<NetAction>, j: nat, path: Path, before: Option<Bytes>): Option<Bytes>
    requires BridgeLegal(b, acts)
    decreases |acts|
  {
    if acts == [] then before
    else HeardLast(BridgeStep(b, acts[0]), acts[1..], j, path, HeardAfter(b, acts[0], j, path, before))
  }

  // -------- one peer --------

  predicate Fit(recent: Recent, size: nat) {
    LruCache.DistinctKeys(recent) && |recent| <= size && size > 0
  }

  /** A hash in the cache speaks of the change that was heard last. */
  predicate Speaks(hash: Hash, heard: Option<Bytes>) {
    if hash == [] || hash == DELETED_MARK then heard == None else heard == Some(hash)
  }

  /** A quiet peer holds what it heard last, and what its cache still knows of the path is about that. */
  predicate Hears(v: Node, path: Path, heard: Option<Bytes>) {
    && (path in v.pending || Lookup(v.files, path) == heard)
    && (path in LruCache.Contents(v.recent) ==> Speaks(LruCache.Contents(v.recent)[path], heard))
  }

  predicate GoodNode(v: Node) {
    forall p | p in v.files :: Convergence.GoodContent(v.files[p])
  }

  predicate GoodChange(fd: FileData) {
    if fd.deleted then fd.data == [] else Convergence.GoodContent(fd.data)
  }

  /** After a lookup and a mark, the cache knows the key, and of other paths nothing new. */
  lemma MarkedHears(v: Node, w: Node, size: nat, key: Path, hash: Hash, path: Path, heard: Option<Bytes>, now: Option<Bytes>)
    requires Fit(v.recent, size) && w.recent == LruCache.Added(LruCache.Used(v.recent, key), size, key, hash)
    requires path in LruCache.Contents(v.recent) ==> Speaks(LruCache.Contents(v.recent)[path], heard)
    requires if path == key then Speaks(hash, now) else now == heard
    ensures Fit(w.recent, size)
    ensures path in LruCache.Contents(w.recent) ==> Speaks(LruCache.Contents(w.recent)[path], now)
  {
    LruCache.UsedAddedKnows(v.recent, size, key, hash);
  }

  lemma TakenHears(v: Node, size: nat, q: Path, path: Path, heard: Option<Bytes>)
    requires Fit(v.recent, size) && GoodNode(v) && Hears(v, path, heard)
    ensures var taken := TakenAs(v, size, q, q);
      && Fit(taken.0.recent, size) && taken.0.files == v.files
      && Hears(taken.0, path, if q == path && taken.1 then Value(v.View().Payload(q)) else heard)
  {
    LruCache.UsedKeepsContents(v.recent, q);
    var taken, fd := TakenAs(v, size, q, q), v.View().Payload(q);
    if taken.1 {
      MarkedHears(v, taken.0, size, q, fd.data, path, heard, if q == path then Value(fd) else heard);
    }
  }

  lemma PutHears(v: Node, size: nat, key: Path, fd: FileData, path: Path, heard: Option<Bytes>)
    requires Fit(v.recent, size) && Hears(v, path, heard) && Convergence.GoodContent(fd.data) && !fd.deleted
    ensures var r := PutAt(v, size, key, key, fd, true);
      Fit(r.node.recent, size) && Hears(r.node, path, if key == path && r.reply == Answer(true) then Value(fd) else heard)
  {
    LruCache.UsedKeepsContents(v.recent, key);
    var r := PutAt(v, size, key, key, fd, true);
    if r.reply == Answer(true) {
      MarkedHears(v, r.node, size, key, fd.data, path, heard, if key == path then Value(fd) else heard);
    }
  }

  lemma DeleteHears(v: Node, size: nat, key: Path, fd: FileData, path: Path, heard: Option<Bytes>)
    requires Fit(v.recent, size) && Hears(v, path, heard) && fd.deleted
    ensures var r := DeleteAt(v, size, key, key, true);
      Fit(r.node.recent, size) && Hears(r.node, path, if key == path && r.reply == Answer(true) then Value(fd) else heard)
  {
    LruCache.UsedKeepsContents(v.recent, key);
    var r := DeleteAt(v, size, key, key, true);
    if r.reply == Answer(true) {
      MarkedHears(v, r.node, size, key, DELETED_MARK, path, heard, if key == path then Value(fd) else heard);
    }
  }

  lemma ReceivedHears(v: Node, size: nat, key: Path, fd: FileData, path: Path, heard: Option<Bytes>)
    requires Fit(v.recent, size) && Hears(v, path, heard) && GoodChange(fd) && Paths.Plain(key)
    ensures var r := ReceiveNode(v, size, key, fd, true);
      Fit(r.node.recent, size) && Hears(r.node, path, if key == path && r.reply == Answer(true) then Value(fd) else heard)
  {
    if fd.deleted {
      DeleteHears(v, size, key, fd, path, heard);
    } else {
      PutHears(v, size, key, fd, path, heard);
    }
  }

  lemma ReceivedIsGood(v: Node, size: nat, key: Path, fd: FileData)
    requires GoodNode(v) && GoodChange(fd)
    ensures GoodNode(ReceiveNode(v, size, key, fd, true).node)
  {}

  // -------- runs --------

  /** Plain paths and good contents everywhere, and caches of the given size; keys need not fit. */
  predicate Good(b: Bridge) {
    && (forall i | 0 <= i < |b.nodes| :: GoodNode(b.nodes[i]) && Fit(b.nodes[i].recent, b.size))
    && forall x | x in b.flight :: x.target < |b.nodes| && Paths.Plain(x.path) && GoodChange(x.fd)
  }

  predicate PlainGood(a: NetAction) {
    && Overlap.GoodWrite(a)
    && match a
       case User(act) => true
       case Open(_, path) => Paths.Plain(path)
       case Arrive(_) => true
  }

  lemma GoodAfter(b: Bridge, i: nat, v: Node, flight: seq<Parcel>)
    requires Good(b) && i < |b.nodes| && GoodNode(v) && Fit(v.recent, b.size)
    requires forall x | x in flight :: x in b.flight || (x.target < |b.nodes| && Paths.Plain(x.path) && GoodChange(x.fd))
    ensures Good(b.(nodes := b.nodes[i := v], flight := flight))
  {}

  lemma TakenIsGood(v: Node, size: nat, q: Path)
    requires Fit(v.recent, size) && GoodNode(v)
    ensures var taken := TakenAs(v, size, q, q);
      Fit(taken.0.recent, size) && GoodNode(taken.0) && GoodChange(v.View().Payload(q))
  {
    LruCache.UsedKeepsContents(v.recent, q);
    LruCache.UsedAddedKnows(v.recent, size, q, v.View().Payload(q).data);
  }

  lemma OpenStaysGood(b: Bridge, i: nat, q: Path)
    requires BridgeEnabled(b, Open(i, q)) && Paths.Plain(q) && Good(b)
    ensures Good(BridgeStep(b, Open(i, q)))
  {
    var v := b.nodes[i];
    TakenIsGood(v, b.size, q);
    assert Paths.KeyOf(q) == q && WireOf(q) == q;
    var sent := if Taken(v, b.size, q).1 then Parcels(Views(b.nodes), i, q, v.View().Payload(q), 0) else [];
    GoodAfter(b, i, Taken(v, b.size, q).0, b.flight + sent);
  }

  lemma OpenHears(b: Bridge, i: nat, q: Path, j: nat, path: Path, heard: Option<Bytes>)
    requires BridgeEnabled(b, Open(i, q)) && Paths.Plain(q) && Good(b) && j < |b.nodes| && Hears(b.nodes[j], path, heard)
    ensures Hears(BridgeStep(b, Open(i, q)).nodes[j], path, HeardAfter(b, Open(i, q), j, path, heard))
  {
    assert Paths.KeyOf(q) == q;
    if i == j {
      TakenHears(b.nodes[i], b.size, q, path, heard);
    }
  }

  lemma ArriveStaysGood(b: Bridge, k: nat)
    requires BridgeEnabled(b, Arrive(k)) && Good(b)
    ensures Good(BridgeStep(b, Arrive(k)))
  {
    var x := b.flight[k];
    assert x in b.flight;
    var v := b.nodes[x.target];
    ReceivedFits(v, b.size, x.path, x.fd);
    ReceivedIsGood(v, b.size, x.path, x.fd);
    var rest := b.flight[..k] + b.flight[k + 1..];
    assert forall y | y in rest :: y in b.flight;
    GoodAfter(b, x.target, ReceiveNode(v, b.size, x.path, x.fd, true).node, rest);
  }

  lemma ReceivedFits(v: Node, size: nat, key: Path, fd: FileData)
    requires Fit(v.recent, size) && Paths.Plain(key) && GoodChange(fd)
    ensures Fit(ReceiveNode(v, size, key, fd, true).node.recent, size)
  {
    LruCache.UsedKeepsContents(v.recent, key);
    LruCache.UsedAddedKnows(v.recent, size, key, if fd.deleted then DELETED_MARK else fd.data);
  }

  lemma ArriveHears(b: Bridge, k: nat, j: nat, path: Path, heard: Option<Bytes>)
    requires BridgeEnabled(b, Arrive(k)) && Good(b) && j < |b.nodes| && Hears(b.nodes[j], path, heard)
    ensures Hears(BridgeStep(b, Arrive(k)).nodes[j], path, HeardAfter(b, Arrive(k), j, path, heard))
  {
    var x := b.flight[k];
    assert x in b.flight;
    if x.target == j {
      ReceivedHears(b.nodes[j], b.size, x.path, x.fd, path, heard);
    }
  }

  lemma UserStaysGood(b: Bridge, act: Action)
    requires BridgeEnabled(b, User(act)) && Overlap.GoodWrite(User(act)) && Good(b)
    ensures Good(BridgeStep(b, User(act)))
  {
    GoodAfter(b, act.peer, UserOn(b.nodes[act.peer], act), b.flight);
  }

  lemma StepHears(b: Bridge, a: NetAction, j: nat, path: Path, heard: Option<Bytes>)
    requires BridgeEnabled(b, a) && PlainGood(a) && Good(b) && j < |b.nodes| && Hears(b.nodes[j], path, heard)
    ensures var e := BridgeStep(b, a);
      Good(e) && |e.nodes| == |b.nodes| && Hears(e.nodes[j], path, HeardAfter(b, a, j, path, heard))
  {
    match a {
      case User(act) => UserStaysGood(b, act);
      case Open(i, q) => OpenStaysGood(b, i, q); OpenHears(b, i, q, j, path, heard);
      case Arrive(k) => ArriveStaysGood(b, k); ArriveHears(b, k, j, path, heard);
    }
  }

  predicate AllPlainGood(acts: seq<NetAction>) {
    forall a | a in acts :: PlainGood(a)
  }

  /** Every run, whatever the cache forgets and however events overlap: without an open event, a peer holds what it heard last. */
  lemma {:induction false} RunHears(b: Bridge, acts: seq<NetAction>, j: nat, path: Path, heard: Option<Bytes>)
    requires Good(b) && BridgeLegal(b, acts) && AllPlainGood(acts) && j < |b.nodes| && Hears(b.nodes[j], path, heard)
    ensures var e := BridgeRun(b, acts); |e.nodes| == |b.nodes| && Hears(e.nodes[j], path, HeardLast(b, acts, j, path, heard))
    decreases |acts|
  {
    if acts != [] {
      assert PlainGood(acts[0]) && AllPlainGood(acts[1..]);
      StepHears(b, acts[0], j, path, heard);
      RunHears(BridgeStep(b, acts[0]), acts[1..], j, path, HeardAfter(b, acts[0], j, path, heard));
    }
  }

  /** What peer j heard last on a run from its start, where it counts its own file as heard. */
  function HeardInRun(b: Bridge, acts: seq<NetAction>, j: nat, path: Path): Option<Bytes>
    requires BridgeLegal(b, acts) && j < |b.nodes|
  {
    HeardLast(b, acts, j, path, Lookup(b.nodes[j].files, path))
  }

  lemma {:induction false} RunKeepsGroups(b: Bridge, acts: seq<NetAction>)
    requires BridgeLegal(b, acts)
    ensures |BridgeRun(b, acts).nodes| == |b.nodes|
    ensures forall j | 0 <= j < |b.nodes| :: BridgeRun(b, acts).nodes[j].group == b.nodes[j].group
    decreases |acts|
  {
    if acts != [] {
      StepKeepsGroups(b, acts[0]);
      RunKeepsGroups(BridgeStep(b, acts[0]), acts[1..]);
    }
  }

  lemma StepKeepsGroups(b: Bridge, a: NetAction)
    requires BridgeEnabled(b, a)
    ensures |BridgeStep(b, a).nodes| == |b.nodes|
    ensures forall j | 0 <= j < |b.nodes| :: BridgeStep(b, a).nodes[j].group == b.nodes[j].group
  {}

  lemma QuietHolds(b: Bridge, acts: seq<NetAction>, j: nat, path: Path)
    requires BridgeStart(b) && b.size > 0 && BridgeLegal(b, acts) && AllPlainGood(acts) && j < |b.nodes|
    requires j < |BridgeRun(b, acts).nodes| && path !in BridgeRun(b, acts).nodes[j].pending
    ensures Lookup(BridgeRun(b, acts).nodes[j].files, path) == HeardInRun(b, acts, j, path)
  {
    StartIsGood(b);
    RunHears(b, acts, j, path, Lookup(b.nodes[j].files, path));
  }

  lemma StartIsGood(b: Bridge)
    requires BridgeStart(b) && b.size > 0
    ensures Good(b)
  {
    forall i | 0 <= i < |b.nodes| ensures GoodNode(b.nodes[i]) {
      assert Views(b.nodes)[i] == b.nodes[i].View();
    }
  }

  /**
    The outcome of every run over plain paths, for every cache size and every interleaving: a quiet group agrees on a
    path if and only if its members heard the same last.
   */
  lemma EveryRunIsDecided(b: Bridge, acts: seq<NetAction>, group: string, path: Path)
    requires BridgeStart(b) && b.size > 0 && BridgeLegal(b, acts) && AllPlainGood(acts)
    requires Convergence.Quiet(Views(BridgeRun(b, acts).nodes), group, path)
    ensures Convergence.Agree(Views(BridgeRun(b, acts).nodes), group, path) <==>
      forall i, j | 0 <= i < |b.nodes| && 0 <= j < |b.nodes| && b.nodes[i].group == group && b.nodes[j].group == group ::
        HeardInRun(b, acts, i, path) == HeardInRun(b, acts, j, path)
  {
    RunKeepsGroups(b, acts);
    forall j | 0 <= j < |b.nodes| && b.nodes[j].group == group
      ensures Views(BridgeRun(b, acts).nodes)[j].File(path) == HeardInRun(b, acts, j, path)
    {
      MemberHolds(b, acts, group, j, path);
    }
  }

  lemma MemberHolds(b: Bridge, acts: seq<NetAction>, group: string, j: nat, path: Path)
    requires BridgeStart(b) && b.size > 0 && BridgeLegal(b, acts) && AllPlainGood(acts)
    requires j < |b.nodes| == |BridgeRun(b, acts).nodes| && BridgeRun(b, acts).nodes[j].group == group
    requires Convergence.Quiet(Views(BridgeRun(b, acts).nodes), group, path)
    ensures Views(BridgeRun(b, acts).nodes)[j].File(path) == HeardInRun(b, acts, j, path)
  {
    assert Views(BridgeRun(b, acts).nodes)[j] == BridgeRun(b, acts).nodes[j].View();
    QuietHolds(b, acts, j, path);
  }
}

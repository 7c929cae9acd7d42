/**
  The protocol as it runs: peers remember hashes in a cache of bounded size, and paths are converted on the way out
  and on the way in. As long as the paths fit into the cache and mean the same everywhere, a run is a run of Echo.Net,
  and what is proved there holds here.
 */
module Bridge {
  import opened Types
  import opened SyncPeers
  import opened Echo
  import Convergence
  import Overlap
  import LruCache
  import Paths

  /** The size that BasePeer gives its cache. */
  const CACHE_SIZE := 300

  type Recent = seq<LruCache.Entry>

  predicate CacheFits(recent: Recent) {
    LruCache.DistinctKeys(recent) && |recent| <= CACHE_SIZE
  }

  /** A storage peer; recent is its cache, the most recently used entry first. */
  datatype Node = Node(name: string, group: string, files: map<Path, Bytes>, recent: Recent, pending: set<Path>)
  {
    /** The peer with its cache taken for a map. */
    function View(): Peer {
      Peer(name, group, files, LruCache.Contents(recent), pending)
    }
  }

  function Views(nodes: seq<Node>): System {
    seq(|nodes|, i requires 0 <= i < |nodes| => nodes[i].View())
  }

  datatype Result = Result(node: Node, reply: Reply)

  predicate Repeats(v: Node, key: Path, hash: Hash) {
    Lookup(LruCache.Contents(v.recent), key) == Some(hash)
  }

  /** A lookup in the cache counts as a use of the key. */
  function Looked(v: Node, key: Path): Node {
    v.(recent := LruCache.Used(v.recent, key))
  }

  function Marked(v: Node, size: nat, key: Path, hash: Hash): Node {
    v.(recent := LruCache.Added(v.recent, size, key, hash))
  }

  /** Put of the change of key; spot is where the file goes. */
  function PutAt(v: Node, size: nat, key: Path, spot: Path, fd: FileData, io: bool): Result {
    var looked := Looked(v, key);
    if Repeats(v, key, fd.data) then Result(looked, Answer(false))
    else if !io then Result(looked, Failure)
    else Result(Marked(looked.(files := v.files[spot := fd.data], pending := v.pending + {spot}), size, key, fd.data),
                Answer(true))
  }

  function DeleteAt(v: Node, size: nat, key: Path, spot: Path, io: bool): Result {
    var looked := Looked(v, key);
    if Repeats(v, key, DELETED_MARK) then Result(looked, Answer(false))
    else if spot !in v.files then Result(looked, Answer(false))
    else if !io then Result(looked, Failure)
    else Result(Marked(looked.(files := v.files - {spot}, pending := v.pending + {spot}), size, key, DELETED_MARK),
                Answer(true))
  }

  function ReceiveAt(v: Node, size: nat, key: Path, spot: Path, fd: FileData, io: bool): Result {
    if fd.deleted then DeleteAt(v, size, key, spot, io) else PutAt(v, size, key, spot, fd, io)
  }

  function ReceiveNode(v: Node, size: nat, key: Path, fd: FileData, io: bool): Result {
    ReceiveAt(v, size, key, Paths.SpotOf(key), fd, io)
  }

  /** What processChange and DispatchFrom do to the peer itself, and whether they go on to the hub. */
  function TakenAs(v: Node, size: nat, path: Path, key: Path): (Node, bool) {
    var fd := v.View().Payload(path);
    var taken := Looked(v.(pending := v.pending - {path}), key);
    if Repeats(v, key, fd.data) then (taken, false) else (Marked(taken, size, key, fd.data), true)
  }

  function Taken(v: Node, size: nat, path: Path): (Node, bool) {
    TakenAs(v, size, path, Paths.KeyOf(path))
  }

  /** The path that reaches the hub is converted twice. */
  function WireOf(path: Path): Path {
    Paths.KeyOf(Paths.KeyOf(path))
  }

  /** On the way out a path loses up to two underscores in front; it is looked up in the cache with one of them gone. */
  lemma WireIs(path: Path)
    ensures "__" <= path ==> WireOf(path) == path[2..] && Paths.KeyOf(path) == path[1..]
    ensures "_" <= path && !("__" <= path) ==> WireOf(path) == path[1..] == Paths.KeyOf(path)
    ensures !("_" <= path) ==> WireOf(path) == path == Paths.KeyOf(path)
  {
    if "__" <= path {
      assert path[1..][0] == '_' && path[1..][1..] == path[2..];
    }
  }

  // -------- steps --------

  datatype Bridge = Bridge(size: nat, nodes: seq<Node>, flight: seq<Parcel>)
  {
    function Whole(): Net {
      Net(Views(nodes), flight)
    }
  }

  predicate BridgeEnabled(b: Bridge, a: NetAction) {
    NetEnabled(b.Whole(), a)
  }

  function UserOn(v: Node, act: Action): Node
    requires !act.ProcessChange?
  {
    v.(files := if act.UserWrite? then v.files[act.path := act.content] else v.files - {act.path},
       pending := v.pending + {act.path})
  }

  function BridgeStep(b: Bridge, a: NetAction): Bridge
    requires BridgeEnabled(b, a)
  {
    match a
    case User(act) => b.(nodes := b.nodes[act.peer := UserOn(b.nodes[act.peer], act)])
    case Open(i, path) =>
      var taken := Taken(b.nodes[i], b.size, path);
      b.(nodes := b.nodes[i := taken.0],
         flight := b.flight + if taken.1
           then Parcels(Views(b.nodes), i, WireOf(path), b.nodes[i].View().Payload(path), 0) else [])
    case Arrive(k) =>
      var x := b.flight[k];
      b.(nodes := b.nodes[x.target := ReceiveNode(b.nodes[x.target], b.size, x.path, x.fd, true).node],
         flight := b.flight[..k] + b.flight[k + 1..])
  }

  predicate BridgeLegal(b: Bridge, acts: seq<NetAction>)
    decreases |acts|
  {
    acts == [] || (BridgeEnabled(b, acts[0]) && BridgeLegal(BridgeStep(b, acts[0]), acts[1..]))
  }

  function BridgeRun(b: Bridge, acts: seq<NetAction>): Bridge
    requires BridgeLegal(b, acts)
    decreases |acts|
  {
    if acts == [] then b else BridgeRun(BridgeStep(b, acts[0]), acts[1..])
  }

  predicate BridgeOrderly(b: Bridge, acts: seq<NetAction>, group: string, path: Path)
    requires BridgeLegal(b, acts)
    decreases |acts|
  {
    acts == [] ||
    (Overlap.Orderly(b.Whole(), acts[0], group, path) && BridgeOrderly(BridgeStep(b, acts[0]), acts[1..], group, path))
  }

  predicate BridgeOnTrack(b: Bridge, acts: seq<NetAction>, group: string, path: Path, before: bool)
    requires BridgeLegal(b, acts)
    decreases |acts|
  {
    if acts == [] then before
    else BridgeOnTrack(BridgeStep(b, acts[0]), acts[1..], group, path,
                       Overlap.NetTrackAfter(b.Whole(), acts[0], group, path, before))
  }

  // -------- room in the cache --------

  /** The cache holds only the given paths, each once, and no more than it may. */
  predicate RecentFits(recent: Recent, size: nat, paths: seq<Path>) {
    LruCache.DistinctKeys(recent) && |recent| <= size && forall e | e in recent :: e.key in paths
  }

  lemma {:induction false} SeqAsSet(paths: seq<Path>)
    ensures |(set p | p in paths)| <= |paths|
  {
    if paths != [] {
      SeqAsSet(paths[1..]);
      assert (set p | p in paths) == (set p | p in paths[1..]) + {paths[0]};
    }
  }

  lemma RoomFor(recent: Recent, size: nat, paths: seq<Path>, key: Path)
    requires RecentFits(recent, size, paths) && key in paths && |paths| <= size
    requires key !in LruCache.Contents(recent)
    ensures |recent| < size
  {
    LruCache.ContentsSize(recent);
    LruCache.ContentsKeys(recent);
    SeqAsSet(paths);
    var held := LruCache.Contents(recent).Keys;
    forall k | k in held + {key} ensures k in paths {
      if k in held {
        var i :| 0 <= i < |recent| && recent[i].key == k;
        assert recent[i] in recent;
      }
    }
    LruCache.SubsetSize(held + {key}, set p | p in paths);
  }

  lemma UsedFits(recent: Recent, size: nat, paths: seq<Path>, key: Path)
    requires RecentFits(recent, size, paths) && key in paths
    ensures RecentFits(LruCache.Used(recent, key), size, paths)
    ensures LruCache.Contents(LruCache.Used(recent, key)) == LruCache.Contents(recent)
  {
    LruCache.UsedKeepsContents(recent, key);
    LruCache.WithoutMembers(recent, key);
  }

  lemma AddedFits(recent: Recent, size: nat, paths: seq<Path>, key: Path, hash: Hash)
    requires RecentFits(recent, size, paths) && key in paths && |paths| <= size && size > 0
    ensures RecentFits(LruCache.Added(recent, size, key, hash), size, paths)
    ensures LruCache.Contents(LruCache.Added(recent, size, key, hash)) == LruCache.Contents(recent)[key := hash]
  {
    if key !in LruCache.Contents(recent) {
      RoomFor(recent, size, paths, key);
    }
    LruCache.AddedIsUpdateIff(recent, size, key, hash);
    LruCache.WithoutMembers(recent, key);
  }

  lemma UsedThenAddedFits(recent: Recent, size: nat, paths: seq<Path>, key: Path, hash: Hash)
    requires RecentFits(recent, size, paths) && key in paths && |paths| <= size && size > 0
    ensures var next := LruCache.Added(LruCache.Used(recent, key), size, key, hash);
      RecentFits(next, size, paths) && LruCache.Contents(next) == LruCache.Contents(recent)[key := hash]
  {
    UsedFits(recent, size, paths, key);
    AddedFits(LruCache.Used(recent, key), size, paths, key, hash);
  }

  /** A write or delete that fails leaves the peer as it was, its cached hashes included; only their order changes. */
  lemma FailureKeepsHash(v: Node, size: nat, key: Path, spot: Path, fd: FileData)
    requires LruCache.DistinctKeys(v.recent)
    ensures var r := ReceiveAt(v, size, key, spot, fd, false);
      r.reply != Answer(true) && r.node == v.(recent := r.node.recent) && r.node.recent == LruCache.Used(v.recent, key)
    ensures ReceiveAt(v, size, key, spot, fd, false).node.View() == v.View()
  {
    LruCache.UsedKeepsContents(v.recent, key);
  }

  // -------- one step --------

  lemma ReceiveRefines(v: Node, size: nat, paths: seq<Path>, path: Path, fd: FileData, io: bool)
    requires RecentFits(v.recent, size, paths) && path in paths && |paths| <= size
    ensures var r := ReceiveAt(v, size, path, path, fd, io);
      && RecentFits(r.node.recent, size, paths)
      && Received(r.node.View(), r.reply) == Receive(v.View(), path, fd, io)
  {
    UsedFits(v.recent, size, paths, path);
    UsedThenAddedFits(v.recent, size, paths, path, if fd.deleted then DELETED_MARK else fd.data);
  }

  lemma TakenRefines(v: Node, size: nat, paths: seq<Path>, path: Path)
    requires RecentFits(v.recent, size, paths) && path in paths && |paths| <= size
    ensures var taken := TakenAs(v, size, path, path);
      var p, fd := v.View(), v.View().Payload(path);
      var q := p.(pending := p.pending - {path});
      && RecentFits(taken.0.recent, size, paths)
      && taken.0.View() == (if q.IsRepeating(path, Some(fd)) then q else q.MarkProcessed(path, Some(fd)))
      && taken.1 == !q.IsRepeating(path, Some(fd))
  {
    UsedFits(v.recent, size, paths, path);
    UsedThenAddedFits(v.recent, size, paths, path, v.View().Payload(path).data);
  }

  predicate AllPlain(paths: seq<Path>) {
    forall p | p in paths :: Paths.Plain(p)
  }

  /** Everything that is cached or on its way is about the given paths, and the paths fit into the cache. */
  predicate Fits(b: Bridge, paths: seq<Path>) {
    && |paths| <= b.size
    && (forall i | 0 <= i < |b.nodes| :: RecentFits(b.nodes[i].recent, b.size, paths))
    && forall x | x in b.flight :: x.path in paths && x.target < |b.nodes|
  }

  predicate AllWithin(acts: seq<NetAction>, paths: seq<Path>) {
    forall a | a in acts :: Within(a, paths)
  }

  lemma ViewsUpdate(nodes: seq<Node>, i: nat, v: Node)
    requires i < |nodes|
    ensures Views(nodes[i := v]) == Views(nodes)[i := v.View()]
  {}

  lemma OpenRefines(b: Bridge, i: nat, path: Path, paths: seq<Path>)
    requires BridgeEnabled(b, Open(i, path)) && Fits(b, paths) && path in paths && Paths.Plain(path)
    ensures BridgeStep(b, Open(i, path)).Whole() == NetStep(b.Whole(), Open(i, path))
    ensures Fits(BridgeStep(b, Open(i, path)), paths)
  {
    var v := b.nodes[i];
    var taken := TakenAs(v, b.size, path, path);
    assert Paths.KeyOf(path) == path && WireOf(path) == path;
    TakenRefines(v, b.size, paths, path);
    ViewsUpdate(b.nodes, i, taken.0);
    assert b.flight + [] == b.flight;
  }

  lemma ArriveRefines(b: Bridge, k: nat, paths: seq<Path>)
    requires BridgeEnabled(b, Arrive(k)) && Fits(b, paths) && Paths.Plain(b.flight[k].path)
    ensures BridgeStep(b, Arrive(k)).Whole() == NetStep(b.Whole(), Arrive(k))
    ensures Fits(BridgeStep(b, Arrive(k)), paths)
  {
    var x := b.flight[k];
    assert x in b.flight;
    ReceiveRefines(b.nodes[x.target], b.size, paths, x.path, x.fd, true);
    ViewsUpdate(b.nodes, x.target, ReceiveAt(b.nodes[x.target], b.size, x.path, x.path, x.fd, true).node);
  }

  lemma StepRefines(b: Bridge, a: NetAction, paths: seq<Path>)
    requires BridgeEnabled(b, a) && Fits(b, paths) && AllPlain(paths) && Within(a, paths)
    ensures BridgeStep(b, a).Whole() == NetStep(b.Whole(), a)
    ensures Fits(BridgeStep(b, a), paths) && BridgeStep(b, a).size == b.size && |BridgeStep(b, a).nodes| == |b.nodes|
  {
    match a {
      case User(act) => ViewsUpdate(b.nodes, act.peer, UserOn(b.nodes[act.peer], act));
      case Open(i, path) => OpenRefines(b, i, path, paths);
      case Arrive(k) =>
        assert b.flight[k] in b.flight;
        ArriveRefines(b, k, paths);
    }
  }

  /** Whole runs: with room in the cache and plain paths, the bridge does what the protocol over map caches does. */
  lemma {:induction false} RunRefines(b: Bridge, acts: seq<NetAction>, paths: seq<Path>)
    requires Fits(b, paths) && AllPlain(paths) && AllWithin(acts, paths)
    ensures BridgeLegal(b, acts) <==> NetLegal(b.Whole(), acts)
    ensures BridgeLegal(b, acts) ==>
      && BridgeRun(b, acts).Whole() == NetRun(b.Whole(), acts)
      && Fits(BridgeRun(b, acts), paths)
    decreases |acts|
  {
    if acts != [] && BridgeEnabled(b, acts[0]) {
      assert Within(acts[0], paths);
      StepRefines(b, acts[0], paths);
      RunRefines(BridgeStep(b, acts[0]), acts[1..], paths);
    }
  }

  lemma {:induction false} TrackRefines(b: Bridge, acts: seq<NetAction>, paths: seq<Path>, group: string, path: Path, before: bool)
    requires Fits(b, paths) && AllPlain(paths) && AllWithin(acts, paths)
    requires BridgeLegal(b, acts) && NetLegal(b.Whole(), acts)
    ensures BridgeOnTrack(b, acts, group, path, before) == Overlap.NetOnTrack(b.Whole(), acts, group, path, before)
    ensures BridgeOrderly(b, acts, group, path) <==> Overlap.OrderlyRun(b.Whole(), acts, group, path)
    decreases |acts|
  {
    if acts != [] {
      assert Within(acts[0], paths);
      StepRefines(b, acts[0], paths);
      TrackRefines(BridgeStep(b, acts[0]), acts[1..], paths, group, path,
                   Overlap.NetTrackAfter(b.Whole(), acts[0], group, path, before));
    }
  }

  // -------- what the bridge inherits --------

  lemma FitsIsOver(b: Bridge, paths: seq<Path>)
    requires Fits(b, paths) && Distinct(paths) && b.nodes != []
    ensures Over(b.Whole(), paths)
  {}

  /** No infinite loop while the paths fit into the cache, in any interleaving. */
  lemma BridgeEchoBound(b: Bridge, acts: seq<NetAction>, paths: seq<Path>, m: nat)
    requires Fits(b, paths) && AllPlain(paths) && Distinct(paths) && AllWithin(acts, paths)
    requires |b.nodes| == m + 1 && BridgeLegal(b, acts)
    ensures BridgeSteps(acts) <= Potential(b.Whole(), paths) + WriteCost(m) * Writes(acts)
  {
    RunRefines(b, acts, paths);
    FitsIsOver(b, paths);
    forall a | a in acts ensures Within(a, paths) { }
    EchoBound(b.Whole(), acts, paths, m);
  }

  /** Each write costs at most one delivery for each of the m other peers. */
  lemma BridgeConserves(b: Bridge, acts: seq<NetAction>, paths: seq<Path>, m: nat)
    requires Fits(b, paths) && AllPlain(paths) && Distinct(paths) && AllWithin(acts, paths)
    requires |b.nodes| == m + 1 && BridgeLegal(b, acts)
    ensures NetLegal(b.Whole(), acts)
    ensures PutDispatches(b.Whole(), acts) + StalePairs(BridgeRun(b, acts).Whole(), paths) <=
      StalePairs(b.Whole(), paths) + Writes(acts)
    ensures PutArrivals(b.Whole(), acts) <= PutsOwed(b.Whole(), paths) + m * Writes(acts)
  {
    RunRefines(b, acts, paths);
    FitsIsOver(b, paths);
    forall a | a in acts ensures Within(a, paths) { }
    DispatchesConserved(b.Whole(), acts, paths);
    DeliveriesConserved(b.Whole(), acts, paths, m);
  }

  /** Started, for the first time or again: the caches are empty and nothing is on its way. */
  predicate BridgeStart(b: Bridge) {
    && Convergence.Blank(Views(b.nodes)) && b.flight == []
    && forall i | 0 <= i < |b.nodes| :: b.nodes[i].recent == []
  }

  /** Orderly runs end as the last event that was sent or swallowed decides. */
  lemma BridgeDecides(b: Bridge, acts: seq<NetAction>, paths: seq<Path>, group: string, path: Path)
    requires BridgeStart(b) && |paths| <= b.size && AllPlain(paths) && AllWithin(acts, paths)
    requires BridgeLegal(b, acts) && BridgeOrderly(b, acts, group, path) && Overlap.GoodWrites(acts)
    requires Overlap.AtRest(BridgeRun(b, acts).Whole(), group, path)
    ensures Convergence.Agree(Views(BridgeRun(b, acts).nodes), group, path) <==>
      BridgeOnTrack(b, acts, group, path, Convergence.Aligned(Views(b.nodes), group, path))
  {
    RunRefines(b, acts, paths);
    TrackRefines(b, acts, paths, group, path, Convergence.Aligned(Views(b.nodes), group, path));
    assert b.Whole() == Net(Views(b.nodes), []);
    Overlap.NetRunDecides(Views(b.nodes), acts, group, path);
  }
}

/** Storage peers and the hub as objects; every method is tied to the functions of Bridge. */
module Hub {
  import opened Types
  import opened SyncPeers
  import opened Bridge
  import Ids
  import LruCache
  import Paths

  class StoragePeer {
    const name: string
    const group: string
    var files: map<Path, Bytes>
    var recent: Recent
    var pending: set<Path>

    constructor (name: string, group: string)
      ensures Value() == Node(name, group, map[], [], {})
    {
      this.name, this.group := name, group;
      files, recent, pending := map[], [], {};
    }

    function Value(): Node
      reads this
    {
      Node(name, group, files, recent, pending)
    }

    /** The lookup counts as a use of the path. */
    method IsRepeating(path: Path, data: Option<FileData>) returns (repeating: bool)
      modifies this`recent
      ensures repeating <==> Repeats(old(Value()), path, HashOf(data))
      ensures Value() == Looked(old(Value()), path)
    {
      var hash := HashOf(data);
      repeating := Lookup(LruCache.Contents(recent), path) == Some(hash);
      recent := LruCache.Used(recent, path);
    }

    method MarkProcessed(path: Path, data: Option<FileData>)
      modifies this`recent
      ensures Value() == Marked(old(Value()), CACHE_SIZE, path, HashOf(data))
    {
      recent := LruCache.Added(recent, CACHE_SIZE, path, HashOf(data));
    }

    method Put(path: Path, data: FileData, io: bool) returns (reply: Reply)
      modifies this
      ensures Result(Value(), reply) == PutAt(old(Value()), CACHE_SIZE, path, Paths.SpotOf(path), data, io)
    {
      var localPath := Paths.ToLocalPath(path, "");
      var storagePath := Ids.TrimPrefix(localPath, "/");
      var repeating := IsRepeating(path, Some(data));
      if repeating {
        return Answer(false);
      }
      if !io {
        return Failure;
      }
      files := files[storagePath := data.data];
      pending := pending + {storagePath};
      MarkProcessed(path, Some(data));
      reply := Answer(true);
    }

    method Delete(path: Path, io: bool) returns (reply: Reply)
      modifies this
      ensures Result(Value(), reply) == DeleteAt(old(Value()), CACHE_SIZE, path, Paths.SpotOf(path), io)
    {
      var localPath := Paths.ToLocalPath(path, "");
      var storagePath := Ids.TrimPrefix(localPath, "/");
      var repeating := IsRepeating(path, None);
      if repeating || storagePath !in files {
        return Answer(false);
      }
      if !io {
        return Failure;
      }
      files := files - {storagePath};
      pending := pending + {storagePath};
      MarkProcessed(path, None);
      reply := Answer(true);
    }
  }

  /** Where Hub.Dispatch sends a change: a change without a source goes to the peers of the empty group. */
  datatype Origin = External | From(name: string, group: string)

  predicate Routes(source: Origin, target: Node) {
    match source
    case External => target.group == ""
    case From(name, group) => target.name != name && target.group == group
  }

  function OriginOf(source: StoragePeer?): Origin {
    if source == null then External else From(source.name, source.group)
  }

  /** What one target makes of a change that the hub looks at. */
  function Offered(source: Origin, target: Node, path: Path, fd: FileData, io: bool): Result {
    if Routes(source, target) then ReceiveNode(target, CACHE_SIZE, path, fd, io) else Result(target, Answer(false))
  }

  /** A nil change is handled as a deletion. */
  function Marker(data: Option<FileData>): FileData {
    match data
    case None => FileData([], true)
    case Some(fd) => fd
  }

  function Replies(s: seq<Node>, source: Origin, path: Path, fd: FileData, io: seq<bool>): (r: seq<Reply>)
    requires |s| == |io|
    ensures |r| == |s|
  {
    seq(|s|, j requires 0 <= j < |s| => Offered(source, s[j], path, fd, io[j]).reply)
  }

  /** The names of those among the first k peers that failed, in the order of registration. */
  function FailedNames(s: seq<Node>, replies: seq<Reply>, k: nat): seq<string>
    requires k <= |s| == |replies|
  {
    if k == 0 then [] else FailedNames(s, replies, k - 1) + if replies[k - 1] == Failure then [s[k - 1].name] else []
  }

  /** Exactly the targets that refused the change are reported. */
  lemma {:induction false} FailedNamesExact(s: seq<Node>, replies: seq<Reply>, k: nat, name: string)
    requires k <= |s| == |replies|
    ensures name in FailedNames(s, replies, k) <==> exists j :: 0 <= j < k && s[j].name == name && replies[j] == Failure
  {
    if k > 0 {
      FailedNamesExact(s, replies, k - 1, name);
    }
  }

  lemma {:induction false} NoFailures(s: seq<Node>, replies: seq<Reply>, k: nat)
    requires k <= |s| == |replies| && forall j | 0 <= j < k :: replies[j] != Failure
    ensures FailedNames(s, replies, k) == []
  {
    if k > 0 {
      NoFailures(s, replies, k - 1);
    }
  }

  /** The peers after the hub has offered them a change, each by its own. */
  function Dispatched(s: seq<Node>, source: Origin, path: Path, fd: FileData, io: seq<bool>): (r: seq<Node>)
    requires |s| == |io|
    ensures |r| == |s|
  {
    seq(|s|, j requires 0 <= j < |s| => Offered(source, s[j], path, fd, io[j]).node)
  }

  datatype Outcome = Outcome(nodes: seq<Node>, errors: seq<string>)

  /** The handling of an event of peer i on path, targets that fail included. */
  function Handled(s: seq<Node>, i: nat, path: Path, io: seq<bool>): Outcome
    requires i < |s| == |io|
  {
    var fd := s[i].View().Payload(path);
    var taken := Taken(s[i], CACHE_SIZE, path);
    var marked, source := s[i := taken.0], From(s[i].name, s[i].group);
    if !taken.1 then Outcome(marked, [])
    else Outcome(Dispatched(marked, source, WireOf(path), fd, io), FailedNames(marked, Replies(marked, source, WireOf(path), fd, io), |s|))
  }

  /** The first k peers are in their new state, the others in their old one. */
  predicate Through(before: seq<Node>, after: seq<Node>, now: seq<Node>, k: nat) {
    && |now| == |before| == |after| && k <= |now|
    && (forall j | 0 <= j < k :: now[j] == after[j])
    && (forall j | k <= j < |now| :: now[j] == before[j])
  }

  lemma OneThrough(before: seq<Node>, after: seq<Node>, now: seq<Node>, k: nat)
    requires Through(before, after, now, k) && k < |now|
    ensures Through(before, after, now[k := after[k]], k + 1)
  {}

  class Hub {
    var peers: seq<StoragePeer>

    predicate Valid()
      reads this
    {
      forall i, j | 0 <= i < j < |peers| :: peers[i] != peers[j]
    }

    function Snapshot(): (s: seq<Node>)
      reads this, peers
    {
      seq(|peers|, i requires 0 <= i < |peers| reads this, peers => peers[i].Value())
    }

    constructor ()
      ensures Valid() && peers == []
    {
      peers := [];
    }

    method RegisterPeer(p: StoragePeer)
      requires Valid() && p !in peers
      modifies this
      ensures Valid() && peers == old(peers) + [p]
      ensures Snapshot() == old(Snapshot()) + [old(p.Value())]
    {
      peers := peers + [p];
    }

    /** The body of the loop in Dispatch, for the k-th peer as target. */
    method Offer(source: StoragePeer?, k: nat, path: Path, data: Option<FileData>, io: bool) returns (reply: Reply)
      requires Valid() && k < |peers|
      modifies peers[k]
      ensures reply == Offered(OriginOf(source), old(Snapshot()[k]), path, Marker(data), io).reply
      ensures Snapshot() ==
        old(Snapshot())[k := Offered(OriginOf(source), old(Snapshot()[k]), path, Marker(data), io).node]
    {
      var target := peers[k];
      var sourceGroup := if source != null then source.group else "";
      if (source != null && target.name == source.name) || target.group != sourceGroup {
        return Answer(false);
      }
      if data == None || data.value.deleted {
        reply := target.Delete(path, io);
      } else {
        reply := target.Put(path, data.value, io);
      }
    }

    /** One turn of the loop in Dispatch. */
    method OfferInTurn(source: StoragePeer?, k: nat, path: Path, data: Option<FileData>, io: seq<bool>, ghost before: seq<Node>)
        returns (reply: Reply)
      requires Valid() && k < |peers| == |io| == |before|
      requires Through(before, Dispatched(before, OriginOf(source), path, Marker(data), io), Snapshot(), k)
      modifies peers[k]
      ensures Through(before, Dispatched(before, OriginOf(source), path, Marker(data), io), Snapshot(), k + 1)
      ensures reply == Replies(before, OriginOf(source), path, Marker(data), io)[k]
    {
      ghost var now := Snapshot();
      ghost var after := Dispatched(before, OriginOf(source), path, Marker(data), io);
      reply := Offer(source, k, path, data, io[k]);
      assert Snapshot() == now[k := after[k]];
      OneThrough(before, after, now, k);
    }

    /** A failing target is noted, and the remaining targets still get the change. */
    method Dispatch(source: StoragePeer?, path: Path, data: Option<FileData>, io: seq<bool>)
        returns (errors: seq<string>)
      requires Valid() && |io| == |peers|
      modifies peers
      ensures errors == FailedNames(old(Snapshot()), Replies(old(Snapshot()), OriginOf(source), path, Marker(data), io), |io|)
      ensures Snapshot() == Dispatched(old(Snapshot()), OriginOf(source), path, Marker(data), io)
    {
      ghost var before := Snapshot();
      errors := [];
      for k := 0 to |peers|
        invariant Through(before, Dispatched(before, OriginOf(source), path, Marker(data), io), Snapshot(), k)
        invariant errors == FailedNames(before, Replies(before, OriginOf(source), path, Marker(data), io), k)
      {
        var name := peers[k].name;
        assert name == Snapshot()[k].name == before[k].name;
        var reply := OfferInTurn(source, k, path, data, io, before);
        if reply == Failure {
          errors := errors + [name];
        }
      }
    }

    /** processChange of the i-th peer: read the file, then DispatchFrom with the peer itself as source. */
    method ProcessChange(i: nat, path: Path, io: seq<bool>) returns (errors: seq<string>)
      requires Valid() && i < |peers| == |io|
      modifies peers
      ensures Outcome(Snapshot(), errors) == Handled(old(Snapshot()), i, path, io)
    {
      ghost var before := Snapshot();
      var self := peers[i];
      self.pending := self.pending - {path};
      var globalPath := Paths.ToGlobalPath(path, "");
      var fd := if path in self.files then FileData(self.files[path], false) else FileData([], true);
      var repeating := self.IsRepeating(globalPath, Some(fd));
      if repeating {
        assert Snapshot() == before[i := Taken(before[i], CACHE_SIZE, path).0];
        return [];
      }
      self.MarkProcessed(globalPath, Some(fd));
      assert Snapshot() == before[i := Taken(before[i], CACHE_SIZE, path).0];
      errors := Dispatch(self, Paths.ToGlobalPath(globalPath, ""), Some(fd), io);
    }
  }

  /** A write that fails leaves files, events and cached hashes alone. */
  lemma OfferFails(source: Origin, v: Node, path: Path, fd: FileData)
    ensures var r := Offered(source, v, path, fd, false);
      r.node.name == v.name && r.node.files == v.files && r.node.pending == v.pending
    ensures LruCache.DistinctKeys(v.recent) ==> Offered(source, v, path, fd, false).node.View() == v.View()
    ensures Offered(source, v, path, fd, true).reply != Failure
  {
    if LruCache.DistinctKeys(v.recent) {
      FailureKeepsHash(v, CACHE_SIZE, path, Paths.SpotOf(path), fd);
    }
  }

  /** A target fails exactly if it is routed to, is told something new, has the file to be deleted, and cannot write. */
  lemma FailsIff(name: string, group: string, v: Node, path: Path, fd: FileData, io: bool)
    ensures Offered(From(name, group), v, path, fd, io).reply == Failure <==>
      && v.name != name && v.group == group && !io
      && Lookup(LruCache.Contents(v.recent), path) != Some(if fd.deleted then DELETED_MARK else fd.data)
      && (fd.deleted ==> Paths.SpotOf(path) in v.files)
  {}

  /** Who is not routed to is left alone; a change without a source goes to the peers without a group. */
  lemma OthersAreLeftAlone(name: string, group: string, v: Node, path: Path, fd: FileData, io: bool)
    ensures v.name == name || v.group != group ==> Offered(From(name, group), v, path, fd, io) == Result(v, Answer(false))
    ensures v.group != "" ==> Offered(External, v, path, fd, io) == Result(v, Answer(false))
    ensures v.group == "" ==> Offered(External, v, path, fd, io) == ReceiveNode(v, CACHE_SIZE, path, fd, io)
  {}

  /** Offering a change again after a failure does what it would have done the first time. */
  lemma FailureCanBeRepeated(source: Origin, v: Node, path: Path, fd: FileData)
    requires CacheFits(v.recent)
    ensures var r := Offered(source, v, path, fd, false);
      SameEffect(Offered(source, r.node, path, fd, true), Offered(source, v, path, fd, true))
  {
    var w := Offered(source, v, path, fd, false).node;
    OfferFails(source, v, path, fd);
    assert w.name == w.View().name && w.group == w.View().group && Routes(source, w) == Routes(source, v);
    SameViewSameEffect(v, w, path, Paths.SpotOf(path), fd);
  }

  predicate SameEffect(a: Result, b: Result) {
    a.reply == b.reply && a.node.files == b.node.files && a.node.pending == b.node.pending
  }

  lemma SameViewSameEffect(v: Node, w: Node, path: Path, spot: Path, fd: FileData)
    requires v.View() == w.View()
    ensures SameEffect(ReceiveAt(w, CACHE_SIZE, path, spot, fd, true), ReceiveAt(v, CACHE_SIZE, path, spot, fd, true))
  {}

  /** What happens to one peer does not depend on which others fail; a failing one keeps its files, events and hashes. */
  lemma FailuresAreLocal(s: seq<Node>, i: nat, path: Path, io: seq<bool>, other: seq<bool>, j: nat)
    requires i < |s| == |io| == |other| && j < |s|
    ensures io[j] == other[j] ==> Handled(s, i, path, io).nodes[j] == Handled(s, i, path, other).nodes[j]
    ensures !io[j] && j != i ==> var w := Handled(s, i, path, io).nodes[j]; w.files == s[j].files && w.pending == s[j].pending
    ensures !io[j] && j != i && LruCache.DistinctKeys(s[j].recent) ==>
      Handled(s, i, path, io).nodes[j].View() == s[j].View()
  {
    if j != i {
      OfferFails(From(s[i].name, s[i].group), s[j], WireOf(path), s[i].View().Payload(path));
    }
  }

  /** A file whose event is no repeat is written at a target that can write it and does not know it, under the path sent. */
  lemma EventArrives(s: seq<Node>, i: nat, path: Path, io: seq<bool>, j: nat)
    requires i < |s| == |io| && j < |s| && j != i && s[j].name != s[i].name && s[j].group == s[i].group && io[j]
    requires path in s[i].files && Lookup(LruCache.Contents(s[i].recent), Paths.KeyOf(path)) != Some(s[i].files[path])
    requires Lookup(LruCache.Contents(s[j].recent), WireOf(path)) != Some(s[i].files[path])
    ensures var w := Handled(s, i, path, io).nodes[j];
      && w.files == s[j].files[Paths.SpotOf(WireOf(path)) := s[i].files[path]]
      && w.pending == s[j].pending + {Paths.SpotOf(WireOf(path))}
  {
    var fd, marked := s[i].View().Payload(path), s[i := Taken(s[i], CACHE_SIZE, path).0];
    assert fd == FileData(s[i].files[path], false) && marked[j] == s[j];
    assert Handled(s, i, path, io).nodes[j] == Offered(From(s[i].name, s[i].group), s[j], WireOf(path), fd, io[j]).node;
  }

  lemma ReceiveIsNoFailure(v: Node, paths: seq<Path>, path: Path, fd: FileData)
    requires RecentFits(v.recent, CACHE_SIZE, paths) && path in paths && |paths| <= CACHE_SIZE && Paths.Plain(path)
    ensures ReceiveNode(v, CACHE_SIZE, path, fd, true).node.View() == Receive(v.View(), path, fd, true).peer
  {
    ReceiveRefines(v, CACHE_SIZE, paths, path, fd, true);
  }

  /** Where all targets succeed, the paths fit into the caches and mean the same everywhere, this is SyncPeers.Change. */
  lemma HandledIsChange(s: seq<Node>, i: nat, path: Path, io: seq<bool>, paths: seq<Path>)
    requires i < |s| == |io| && (forall j | 0 <= j < |io| :: io[j])
    requires path in paths && |paths| <= CACHE_SIZE && Paths.Plain(path)
    requires forall j | 0 <= j < |s| :: RecentFits(s[j].recent, CACHE_SIZE, paths)
    ensures Views(Handled(s, i, path, io).nodes) == Change(Views(s), i, path) && Handled(s, i, path, io).errors == []
  {
    var fd, taken := s[i].View().Payload(path), TakenAs(s[i], CACHE_SIZE, path, path);
    assert Taken(s[i], CACHE_SIZE, path) == taken && WireOf(path) == path;
    TakenRefines(s[i], CACHE_SIZE, paths, path);
    var marked := s[i := taken.0];
    ViewsUpdate(s, i, taken.0);
    forall j | 0 <= j < |s|
      ensures Offered(From(s[i].name, s[i].group), marked[j], path, fd, true).node.View() ==
        if IsTarget(marked[j].View(), s[i].name, s[i].group) then Receive(marked[j].View(), path, fd, true).peer
        else marked[j].View()
      ensures Offered(From(s[i].name, s[i].group), marked[j], path, fd, true).reply != Failure
    {
      ReceiveIsNoFailure(marked[j], paths, path, fd);
      OfferFails(From(s[i].name, s[i].group), marked[j], path, fd);
    }
    NoFailures(marked, Replies(marked, From(s[i].name, s[i].group), path, fd, io), |s|);
  }
}

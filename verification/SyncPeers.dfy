/**
  The sync protocol on values. A storage peer is a directory of files, the content-hash cache of BasePeer,
  and the set of paths with a change event that has not been processed yet. The class in Hub.dfy is proved to
  compute these functions.
 */
module SyncPeers {
  import opened Types

  datatype Peer = Peer(
    name: string,
    group: string,
    files: map<Path, Bytes>,
    cache: map<Path, Hash>,
    pending: set<Path>)
  {
    function File(path: Path): Option<Bytes> { Lookup(files, path) }

    function Cached(path: Path): Option<Hash> { Lookup(cache, path) }

    predicate IsRepeating(path: Path, data: Option<FileData>) {
      Cached(path) == Some(HashOf(data))
    }

    function MarkProcessed(path: Path, data: Option<FileData>): Peer {
      this.(cache := cache[path := HashOf(data)])
    }

    /** What a change event on path reports: the file as it is now, or a deletion marker. */
    function Payload(path: Path): FileData {
      match File(path)
      case Some(c) => FileData(c, false)
      case None => FileData([], true)
    }
  }

  type System = seq<Peer>

  /** The answer of a target peer to the hub. */
  datatype Reply = Answer(success: bool) | Failure

  datatype Received = Received(peer: Peer, reply: Reply)

  /** StoragePeer.Put; io is false when the file system refuses the write. Writing raises a change event. */
  function Put(p: Peer, path: Path, fd: FileData, io: bool): Received {
    if p.IsRepeating(path, Some(fd)) then Received(p, Answer(false))
    else if !io then Received(p, Failure)
    else Received(p.(files := p.files[path := fd.data], pending := p.pending + {path}).MarkProcessed(path, Some(fd)),
                  Answer(true))
  }

  /** StoragePeer.Delete. A file that is already gone leaves the cache as it is. */
  function Delete(p: Peer, path: Path, io: bool): Received {
    if p.IsRepeating(path, None) then Received(p, Answer(false))
    else if path !in p.files then Received(p, Answer(false))
    else if !io then Received(p, Failure)
    else Received(p.(files := p.files - {path}, pending := p.pending + {path}).MarkProcessed(path, None),
                  Answer(true))
  }

  /** The branch that Hub.Dispatch takes for one target. */
  function Receive(p: Peer, path: Path, fd: FileData, io: bool): Received {
    if fd.deleted then Delete(p, path, io) else Put(p, path, fd, io)
  }

  predicate DistinctNames(s: System) {
    forall i, j | 0 <= i < j < |s| :: s[i].name != s[j].name
  }

  /** The peers to which the hub forwards a change that comes from a peer called name in the given group. */
  predicate IsTarget(p: Peer, name: string, group: string) {
    p.name != name && p.group == group
  }

  function Routed(s: System, name: string, group: string, path: Path, fd: FileData): (r: System)
    ensures |r| == |s|
    ensures forall j | 0 <= j < |s| ::
      r[j] == if IsTarget(s[j], name, group) then Receive(s[j], path, fd, true).peer else s[j]
  {
    seq(|s|, j requires 0 <= j < |s| =>
      if IsTarget(s[j], name, group) then Receive(s[j], path, fd, true).peer else s[j])
  }

  /** processChange with DispatchFrom: skip a repeat, else mark it as processed and send it to the group. */
  function Change(s: System, i: nat, path: Path): System
    requires i < |s|
  {
    var fd := s[i].Payload(path);
    var taken := s[i].(pending := s[i].pending - {path});
    if taken.IsRepeating(path, Some(fd)) then s[i := taken]
    else Routed(s[i := taken.MarkProcessed(path, Some(fd))], s[i].name, s[i].group, path, fd)
  }

  /** What users and the watcher do. The hub handles each Change to the end before the next action. */
  datatype Action =
    | UserWrite(peer: nat, path: Path, content: Bytes)
    | UserRemove(peer: nat, path: Path)
    | ProcessChange(peer: nat, path: Path)

  predicate Enabled(s: System, a: Action) {
    a.peer < |s| && (a.UserRemove? ==> a.path in s[a.peer].files)
  }

  function Step(s: System, a: Action): System
    requires Enabled(s, a)
  {
    var p := s[a.peer];
    match a
    case UserWrite(i, path, c) => s[i := p.(files := p.files[path := c], pending := p.pending + {path})]
    case UserRemove(i, path) => s[i := p.(files := p.files - {path}, pending := p.pending + {path})]
    case ProcessChange(i, path) => Change(s, i, path)
  }

  predicate Legal(s: System, acts: seq<Action>)
    decreases |acts|
  {
    acts == [] || (Enabled(s, acts[0]) && Legal(Step(s, acts[0]), acts[1..]))
  }

  function Run(s: System, acts: seq<Action>): System
    requires Legal(s, acts)
    decreases |acts|
  {
    if acts == [] then s else Run(Step(s, acts[0]), acts[1..])
  }

  lemma StepKeepsNames(s: System, a: Action)
    requires Enabled(s, a)
    ensures |Step(s, a)| == |s|
    ensures forall i | 0 <= i < |s| :: Step(s, a)[i].name == s[i].name && Step(s, a)[i].group == s[i].group
  {}

  /** An action on one path leaves every other path alone, at every peer. */
  lemma StepIsLocal(s: System, a: Action, q: Path)
    requires Enabled(s, a) && q != a.path
    ensures |Step(s, a)| == |s|
    ensures forall i | 0 <= i < |s| ::
      Step(s, a)[i].File(q) == s[i].File(q) && Step(s, a)[i].Cached(q) == s[i].Cached(q) &&
      (q in Step(s, a)[i].pending <==> q in s[i].pending)
  {}
}

/**
  Convergence across restarts of the bridge. Caches and open events are lost; what the startup scans report is decided
  by the index of file stats that every peer keeps. A stat stands for the content that it was taken of.
 */
module Restarts {
  import opened Types
  import opened SyncPeers
  import opened Convergence

  type Index = map<Path, Bytes>

  /** The running peers, and what each of them has stored about its files. */
  datatype Disk = Disk(peers: System, index: seq<Index>)

  datatype Deed = Act(action: Action) | Restart

  function SetTo(m: Index, path: Path, file: Option<Bytes>): Index {
    match file
    case None => m - {path}
    case Some(c) => m[path := c]
  }

  /** A peer stores the stat of a file that it sends or receives, and drops it on a deletion that it carries out. */
  function IndexAfter(d: Disk, i: nat, path: Path, j: nat): Index
    requires i < |d.peers| && j < |d.peers| == |d.index|
  {
    var fd := d.peers[i].Payload(path);
    if j == i then SetTo(d.index[j], path, d.peers[i].File(path))
    else if Dispatches(d.peers, i, path) && IsTarget(d.peers[j], d.peers[i].name, d.peers[i].group) &&
            Receive(d.peers[j], path, fd, true).reply == Answer(true)
      then SetTo(d.index[j], path, d.peers[i].File(path))
    else d.index[j]
  }

  /** What the two scans report: files whose stat differs from the stored one, and stored files that are gone. */
  function Reported(files: map<Path, Bytes>, index: Index): set<Path> {
    set path | path in files.Keys + index.Keys && Lookup(files, path) != Lookup(index, path)
  }

  function Restarted(d: Disk): Disk
    requires |d.peers| == |d.index|
  {
    d.(peers := seq(|d.peers|, i requires 0 <= i < |d.peers| =>
         d.peers[i].(cache := map[], pending := Reported(d.peers[i].files, d.index[i]))))
  }

  predicate CanDo(d: Disk, deed: Deed) {
    |d.peers| == |d.index| && (deed.Act? ==> Enabled(d.peers, deed.action))
  }

  function Next(d: Disk, deed: Deed): Disk
    requires CanDo(d, deed)
  {
    match deed
    case Restart => Restarted(d)
    case Act(a) =>
      Disk(Step(d.peers, a),
           if a.ProcessChange?
           then seq(|d.index|, j requires 0 <= j < |d.index| => IndexAfter(d, a.peer, a.path, j)) else d.index)
  }

  predicate CanDoAll(d: Disk, deeds: seq<Deed>)
    decreases |deeds|
  {
    deeds == [] || (CanDo(d, deeds[0]) && CanDoAll(Next(d, deeds[0]), deeds[1..]))
  }

  function After(d: Disk, deeds: seq<Deed>): Disk
    requires CanDoAll(d, deeds)
    decreases |deeds|
  {
    if deeds == [] then d else After(Next(d, deeds[0]), deeds[1..])
  }

  // -------- the index knows the last change --------

  function ValueOf(last: Last): Option<Bytes> {
    match last
    case Never(f) => f
    case LastPut(c) => Some(c)
    case LastDelete => None
  }

  /** A quiet file is the indexed one, and a cached hash is that of the indexed file. */
  predicate Coupled(p: Peer, index: Index, path: Path) {
    && (path in p.pending || p.File(path) == Lookup(index, path))
    && (GoodCached(p, path) ==> Lookup(index, path) == p.Cached(path))
    && (Tombstoned(p, path) ==> Lookup(index, path) == None)
  }

  /** A member that missed a deletion because its file was gone already still has the old stat, and an open event. */
  predicate Stale(p: Peer, index: Index, path: Path) {
    path in p.pending && p.File(path) != Lookup(index, path)
  }

  predicate IndexFits(d: Disk, group: string, path: Path, last: Last)
    requires |d.peers| == |d.index|
  {
    if ValueOf(last).Some? then
      forall i | 0 <= i < |d.peers| && d.peers[i].group == group :: Lookup(d.index[i], path) == ValueOf(last)
    else
      && (forall i | 0 <= i < |d.peers| && d.peers[i].group == group ::
            Lookup(d.index[i], path) == None || Stale(d.peers[i], d.index[i], path))
      && ((exists i :: 0 <= i < |d.peers| && d.peers[i].group == group) ==>
          exists i :: 0 <= i < |d.peers| && d.peers[i].group == group && Lookup(d.index[i], path) == None)
  }

  predicate Holds(d: Disk, group: string, path: Path, last: Last)
    requires |d.peers| == |d.index|
  {
    Settling(d.peers, group, path, last) && IndexFits(d, group, path, last)
  }

  ghost predicate Followed(d: Disk, group: string, path: Path) {
    |d.peers| == |d.index| && exists last :: Holds(d, group, path, last)
  }

  ghost predicate DiskInv(d: Disk) {
    && |d.peers| == |d.index|
    && Base(d.peers)
    && AllCoupled(d)
    && forall group, path :: Followed(d, group, path)
  }

  ghost predicate AllCoupled(d: Disk) {
    |d.peers| == |d.index| && forall i, path | 0 <= i < |d.peers| :: Coupled(d.peers[i], d.index[i], path)
  }

  /**
    A user does not bring back the bytes that the peer has stored a stat of, while another member of the group has
    stored something else: that is, while a deletion made elsewhere is known and the peer's own still waits.
   */
  predicate NoRevivalOnDisk(d: Disk, deed: Deed)
    requires CanDo(d, deed)
  {
    deed.Act? && deed.action.UserWrite? ==>
      var i, path := deed.action.peer, deed.action.path;
      Lookup(d.index[i], path) == Some(deed.action.content) ==>
        forall j | 0 <= j < |d.peers| && d.peers[j].group == d.peers[i].group ::
          Lookup(d.index[j], path) == Some(deed.action.content)
  }

  predicate Careful(d: Disk, deeds: seq<Deed>)
    requires CanDoAll(d, deeds)
    decreases |deeds|
  {
    deeds == [] || (NoRevivalOnDisk(d, deeds[0]) && Careful(Next(d, deeds[0]), deeds[1..]))
  }

  predicate GoodWrites(deeds: seq<Deed>) {
    forall k | 0 <= k < |deeds| && deeds[k].Act? && deeds[k].action.UserWrite? :: GoodContent(deeds[k].action.content)
  }

  /** The index rules swallowing out: the cached file would be the indexed one, and so not stale. */
  lemma IndexPreventsSwallowing(d: Disk, i: nat, path: Path, last: Last)
    requires |d.peers| == |d.index| && i < |d.peers| && Base(d.peers)
    requires Coupled(d.peers[i], d.index[i], path) && Holds(d, d.peers[i].group, path, last)
    ensures !Swallowed(d.peers, i, path)
  {
    if Swallowed(d.peers, i, path) {
      SwallowedLosesTrack(d.peers, i, path, last);
      assert GoodCached(d.peers[i], path);
    }
  }

  /** What a delivery does at one target, to the peer and to its index. */
  lemma CoupledAfterDelivery(p: Peer, index: Index, path: Path, fd: FileData, q: Path)
    requires Coupled(p, index, q)
    requires if fd.deleted then fd.data == [] else GoodContent(fd.data)
    ensures var r := Receive(p, path, fd, true);
      Coupled(r.peer,
              if r.reply == Answer(true) then SetTo(index, path, if fd.deleted then None else Some(fd.data)) else index, q)
  {}

  lemma CoupledAfterOpening(p: Peer, index: Index, path: Path, q: Path)
    requires Coupled(p, index, q) && (path in p.files ==> GoodContent(p.files[path]))
    ensures var taken := p.(pending := p.pending - {path});
      && Coupled(taken.MarkProcessed(path, Some(p.Payload(path))), SetTo(index, path, p.File(path)), q)
      && (p.Cached(path) == Some(p.Payload(path).data) ==> Coupled(taken, SetTo(index, path, p.File(path)), q))
  {}

  lemma CoupledAfterChange(d: Disk, i: nat, path: Path, j: nat, q: Path)
    requires |d.peers| == |d.index| && i < |d.peers| && j < |d.peers| && Base(d.peers)
    requires Coupled(d.peers[j], d.index[j], q)
    ensures var e := Next(d, Act(ProcessChange(i, path))); |e.peers| == |e.index| == |d.peers| && Coupled(e.peers[j], e.index[j], q)
  {
    if j == i {
      CoupledAfterOpening(d.peers[i], d.index[i], path, q);
    } else {
      CoupledAfterDelivery(d.peers[j], d.index[j], path, d.peers[i].Payload(path), q);
    }
  }

  lemma CoupledAfterUser(d: Disk, a: Action, j: nat, q: Path)
    requires CanDo(d, Act(a)) && !a.ProcessChange? && j < |d.peers|
    requires Coupled(d.peers[j], d.index[j], q)
    ensures var e := Next(d, Act(a)); |e.peers| == |e.index| == |d.peers| && Coupled(e.peers[j], e.index[j], q)
  {}

  lemma CoupledAfterRestart(d: Disk, j: nat, q: Path)
    requires |d.peers| == |d.index| && j < |d.peers|
    ensures var e := Restarted(d); Coupled(e.peers[j], e.index[j], q) && Known(e.peers[j], q)
    ensures var e := Restarted(d); q in e.peers[j].pending <==> d.peers[j].File(q) != Lookup(d.index[j], q)
  {}

  /** After an event is sent, every member of the group has the value in its index, or is stale on a deletion. */
  lemma SentIsIndexed(d: Disk, i: nat, path: Path, j: nat)
    requires |d.peers| == |d.index| && i < |d.peers| && j < |d.peers| && Base(d.peers)
    requires d.peers[j].group == d.peers[i].group && Dispatches(d.peers, i, path)
    requires Coupled(d.peers[j], d.index[j], path)
    ensures var e := Next(d, Act(ProcessChange(i, path)));
      var file := d.peers[i].File(path);
      Lookup(e.index[j], path) == file || (file == None && Stale(e.peers[j], e.index[j], path))
  {
    assert j != i ==> d.peers[j].name != d.peers[i].name;
    assert d.peers[i].File(path).Some? ==> GoodContent(d.peers[i].files[path]);
  }

  lemma SentHolds(d: Disk, i: nat, path: Path)
    requires |d.peers| == |d.index| && i < |d.peers| && Base(d.peers) && Dispatches(d.peers, i, path)
    requires forall j | 0 <= j < |d.peers| :: Coupled(d.peers[j], d.index[j], path)
    ensures Followed(Next(d, Act(ProcessChange(i, path))), d.peers[i].group, path)
  {
    var e, group := Next(d, Act(ProcessChange(i, path))), d.peers[i].group;
    forall j | 0 <= j < |d.peers| && d.peers[j].group == group
      ensures Lookup(e.index[j], path) == d.peers[i].File(path) ||
        (d.peers[i].File(path) == None && Stale(e.peers[j], e.index[j], path))
    {
      SentIsIndexed(d, i, path, j);
    }
    assert Lookup(e.index[i], path) == d.peers[i].File(path);
    StepKeepsNames(d.peers, ProcessChange(i, path));
    if d.peers[i].File(path).Some? {
      PutReaches(d.peers, i, path);
      assert Holds(e, group, path, LastPut(d.peers[i].files[path]));
    } else {
      DeleteReaches(d.peers, i, path);
      assert Holds(e, group, path, LastDelete);
    }
  }

  lemma SkippedHolds(d: Disk, i: nat, path: Path, last: Last)
    requires |d.peers| == |d.index| && i < |d.peers| && Base(d.peers) && !Dispatches(d.peers, i, path)
    requires Coupled(d.peers[i], d.index[i], path) && Holds(d, d.peers[i].group, path, last)
    ensures var e := Next(d, Act(ProcessChange(i, path))); |e.peers| == |e.index| && Holds(e, d.peers[i].group, path, last)
  {
    var e, group := Next(d, Act(ProcessChange(i, path))), d.peers[i].group;
    IndexPreventsSwallowing(d, i, path, last);
    SkipIsHarmless(d.peers, i, path, last);
    assert d.peers[i].File(path).Some? ==> GoodContent(d.peers[i].files[path]);
    assert Lookup(e.index[i], path) == d.peers[i].File(path) == Lookup(d.index[i], path);
    forall j | 0 <= j < |d.peers| && j != i
      ensures e.index[j] == d.index[j] && e.peers[j] == d.peers[j]
    { }
    if ValueOf(last).None? {
      var k :| 0 <= k < |d.peers| && d.peers[k].group == group && Lookup(d.index[k], path) == None;
      assert Lookup(e.index[k], path) == None;
    }
  }

  /** An action that does not handle an event of the group on the path keeps what is known about it. */
  lemma UntouchedHolds(d: Disk, a: Action, group: string, path: Path, last: Last)
    requires CanDo(d, Act(a)) && Holds(d, group, path, last) && !Concerns(d.peers, a, group, path)
    requires NoRevivalOnDisk(d, Act(a))
    ensures var e := Next(d, Act(a)); |e.peers| == |e.index| && Holds(e, group, path, last)
  {
    var e := Next(d, Act(a));
    UntouchedKeepsTrack(d.peers, a, group, path, last);
    StepKeepsNames(d.peers, a);
    forall j | 0 <= j < |d.peers| && d.peers[j].group == group
      ensures Lookup(e.index[j], path) == Lookup(d.index[j], path)
      ensures path in d.peers[j].pending ==> path in e.peers[j].pending
      ensures e.peers[j].File(path) == d.peers[j].File(path) || (a.peer == j && a.path == path && !a.ProcessChange?)
    {
      StepFrame(d.peers, a, j, path);
    }
    if ValueOf(last).None? {
      forall j | 0 <= j < |d.peers| && d.peers[j].group == group
        ensures Lookup(e.index[j], path) == None || Stale(e.peers[j], e.index[j], path)
      { }
      if exists i :: 0 <= i < |d.peers| && d.peers[i].group == group {
        var k :| 0 <= k < |d.peers| && d.peers[k].group == group && Lookup(d.index[k], path) == None;
        assert Lookup(e.index[k], path) == None;
      }
    }
  }

  /** A restart forgets the caches, and the index takes over: what it holds becomes what quiet members hold. */
  lemma RestartHolds(d: Disk, group: string, path: Path, last: Last)
    requires |d.peers| == |d.index| && Holds(d, group, path, last)
    ensures Holds(Restarted(d), group, path, Never(ValueOf(last)))
  {
    var e := Restarted(d);
    forall j | 0 <= j < |d.peers| && d.peers[j].group == group
      ensures path in e.peers[j].pending <==> e.peers[j].File(path) != Lookup(e.index[j], path)
    {
      CoupledAfterRestart(d, j, path);
    }
    if ValueOf(last).None? && exists i :: 0 <= i < |d.peers| && d.peers[i].group == group {
      var k :| 0 <= k < |d.peers| && d.peers[k].group == group && Lookup(d.index[k], path) == None;
      assert e.peers[k].group == group && Lookup(e.index[k], path) == None;
    }
  }

  lemma RestartBase(d: Disk)
    requires |d.peers| == |d.index| && DistinctNames(d.peers) && GoodFiles(d.peers)
    ensures Blank(Restarted(d).peers) && Base(Restarted(d).peers)
  {
    BlankIsJudged(Restarted(d).peers, "", "");
  }

  lemma ActFollowed(d: Disk, a: Action, group: string, path: Path)
    requires CanDo(d, Act(a)) && NoRevivalOnDisk(d, Act(a)) && Base(d.peers) && AllCoupled(d)
    requires Followed(d, group, path)
    ensures Followed(Next(d, Act(a)), group, path)
  {
    var e := Next(d, Act(a));
    var last :| Holds(d, group, path, last);
    if !Concerns(d.peers, a, group, path) {
      UntouchedHolds(d, a, group, path, last);
      assert Holds(e, group, path, last);
    } else if Dispatches(d.peers, a.peer, path) {
      SentHolds(d, a.peer, path);
    } else {
      SkippedHolds(d, a.peer, path, last);
      assert Holds(e, group, path, last);
    }
  }

  lemma ActCoupled(d: Disk, a: Action, i: nat, path: Path)
    requires CanDo(d, Act(a)) && i < |d.peers| && Base(d.peers) && Coupled(d.peers[i], d.index[i], path)
    ensures var e := Next(d, Act(a)); |e.peers| == |e.index| == |d.peers| && Coupled(e.peers[i], e.index[i], path)
  {
    if a.ProcessChange? {
      CoupledAfterChange(d, a.peer, a.path, i, path);
    } else {
      CoupledAfterUser(d, a, i, path);
    }
  }

  lemma ActKeepsInv(d: Disk, a: Action)
    requires DiskInv(d) && CanDo(d, Act(a)) && NoRevivalOnDisk(d, Act(a))
    requires a.UserWrite? ==> GoodContent(a.content)
    ensures DiskInv(Next(d, Act(a)))
  {
    var e := Next(d, Act(a));
    StepKeepsBase(d.peers, a);
    StepKeepsNames(d.peers, a);
    forall i, path | 0 <= i < |e.peers| ensures Coupled(e.peers[i], e.index[i], path) {
      assert Coupled(d.peers[i], d.index[i], path);
      ActCoupled(d, a, i, path);
    }
    forall group, path ensures Followed(e, group, path) {
      assert Followed(d, group, path);
      ActFollowed(d, a, group, path);
    }
  }

  lemma RestartKeepsInv(d: Disk)
    requires DiskInv(d)
    ensures DiskInv(Restarted(d))
  {
    var e := Restarted(d);
    RestartBase(d);
    forall i, path | 0 <= i < |e.peers| ensures Coupled(e.peers[i], e.index[i], path) {
      CoupledAfterRestart(d, i, path);
    }
    forall group, path ensures Followed(e, group, path) {
      assert Followed(d, group, path);
      var last :| Holds(d, group, path, last);
      RestartHolds(d, group, path, last);
    }
  }

  lemma DeedKeepsInv(d: Disk, deed: Deed)
    requires DiskInv(d) && CanDo(d, deed) && NoRevivalOnDisk(d, deed)
    requires deed.Act? && deed.action.UserWrite? ==> GoodContent(deed.action.content)
    ensures DiskInv(Next(d, deed))
  {
    match deed {
      case Restart => RestartKeepsInv(d);
      case Act(a) => ActKeepsInv(d, a);
    }
  }

  lemma {:induction false} DeedsKeepInv(d: Disk, deeds: seq<Deed>)
    requires DiskInv(d) && CanDoAll(d, deeds) && Careful(d, deeds) && GoodWrites(deeds)
    ensures DiskInv(After(d, deeds))
    decreases |deeds|
  {
    if deeds != [] {
      DeedKeepsInv(d, deeds[0]);
      DeedsKeepInv(Next(d, deeds[0]), deeds[1..]);
    }
  }

  /** The very first start: nothing is cached or stored, and the scans report every file. */
  predicate FirstStart(d: Disk) {
    && Blank(d.peers) && |d.peers| == |d.index|
    && forall i | 0 <= i < |d.peers| :: d.index[i] == map[] && d.peers[i].pending == d.peers[i].files.Keys
  }

  lemma FirstStartInv(d: Disk)
    requires FirstStart(d)
    ensures DiskInv(d)
  {
    BlankIsJudged(d.peers, "", "");
    forall group, path ensures Followed(d, group, path) {
      assert Holds(d, group, path, Never(None));
    }
  }

  /**
    Convergence across any number of restarts, at any moment between two actions: with ordinary contents and without
    revival, whenever a group has no event left on a path, its members hold the same file or none.
   */
  lemma ConvergenceAcrossRestarts(d: Disk, deeds: seq<Deed>, group: string, path: Path)
    requires FirstStart(d) && CanDoAll(d, deeds) && Careful(d, deeds) && GoodWrites(deeds)
    requires Quiet(After(d, deeds).peers, group, path)
    ensures Agree(After(d, deeds).peers, group, path)
  {
    FirstStartInv(d);
    DeedsKeepInv(d, deeds);
    assert Followed(After(d, deeds), group, path);
    var last :| Holds(After(d, deeds), group, path, last);
    QuietAgrees(After(d, deeds).peers, group, path);
  }

  /** No matter what came before a restart, what follows it is decided by what the scans left unreported. */
  lemma RestartDecides(d: Disk, acts: seq<Action>, group: string, path: Path)
    requires |d.peers| == |d.index| && DistinctNames(d.peers) && GoodFiles(d.peers)
    requires Legal(Restarted(d).peers, acts) && WritesAmong(acts, iset c | GoodContent(c))
    requires Quiet(Run(Restarted(d).peers, acts), group, path)
    ensures Agree(Run(Restarted(d).peers, acts), group, path) <==>
      OnTrack(Restarted(d).peers, acts, group, path,
              forall i, j | 0 <= i < |d.peers| && 0 <= j < |d.peers| && d.peers[i].group == d.peers[j].group == group &&
                            d.peers[i].File(path) == Lookup(d.index[i], path) &&
                            d.peers[j].File(path) == Lookup(d.index[j], path) ::
                d.peers[i].File(path) == d.peers[j].File(path))
  {
    RestartBase(d);
    var s := Restarted(d).peers;
    forall j | 0 <= j < |d.peers|
      ensures path in s[j].pending <==> d.peers[j].File(path) != Lookup(d.index[j], path)
    {
      CoupledAfterRestart(d, j, path);
    }
    RunDecides(s, acts, group, path);
  }
}

/**
  Convergence when the handling of an event is cut short: a crash between its deliveries, or deliveries that fail. The
  source then has not stored the stat of its file, and the scans after the next start report the file again.
 */
module Crashes {
  import opened Types
  import opened SyncPeers
  import opened Convergence
  import opened Restarts

  /** The event of peer i reaches the targets in got only; the source has marked it, and does not store its stat. */
  function Failed(d: Disk, i: nat, path: Path, got: set<nat>): Disk
    requires |d.peers| == |d.index| && i < |d.peers|
  {
    Disk(seq(|d.peers|, j requires 0 <= j < |d.peers| => PeerAfterFailure(d, i, path, got, j)),
         seq(|d.peers|, j requires 0 <= j < |d.peers| => IndexAfterFailure(d, i, path, got, j)))
  }

  function PeerAfterFailure(d: Disk, i: nat, path: Path, got: set<nat>, j: nat): Peer
    requires |d.peers| == |d.index| && i < |d.peers| && j < |d.peers|
  {
    if j == i || j in got then Change(d.peers, i, path)[j] else d.peers[j]
  }

  function IndexAfterFailure(d: Disk, i: nat, path: Path, got: set<nat>, j: nat): Index
    requires |d.peers| == |d.index| && i < |d.peers| && j < |d.peers|
  {
    if j != i && j in got then IndexAfter(d, i, path, j) else d.index[j]
  }

  /** A crash or a restart after that. */
  function CutShort(d: Disk, i: nat, path: Path, got: set<nat>): Disk
    requires |d.peers| == |d.index| && i < |d.peers|
  {
    Restarted(Failed(d, i, path, got))
  }

  datatype Turn = Do(deed: Deed) | Cut(peer: nat, path: Path, got: set<nat>)

  predicate CanTurn(d: Disk, turn: Turn) {
    match turn
    case Do(deed) => CanDo(d, deed)
    case Cut(i, path, _) => |d.peers| == |d.index| && i < |d.peers| && path in d.peers[i].pending
  }

  function Turned(d: Disk, turn: Turn): Disk
    requires CanTurn(d, turn)
  {
    match turn
    case Do(deed) => Next(d, deed)
    case Cut(i, path, got) => CutShort(d, i, path, got)
  }

  predicate CanTurnAll(d: Disk, turns: seq<Turn>)
    decreases |turns|
  {
    turns == [] || (CanTurn(d, turns[0]) && CanTurnAll(Turned(d, turns[0]), turns[1..]))
  }

  function TurnedAll(d: Disk, turns: seq<Turn>): Disk
    requires CanTurnAll(d, turns)
    decreases |turns|
  {
    if turns == [] then d else TurnedAll(Turned(d, turns[0]), turns[1..])
  }

  /**
    A user does not take a file away again that the peer has not stored a stat of yet, while another member has: the
    file may have reached that one before a crash.
   */
  predicate NoRetreat(d: Disk, a: Action)
    requires CanDo(d, Act(a))
  {
    a.UserRemove? && Lookup(d.index[a.peer], a.path) == None ==>
      forall j | 0 <= j < |d.peers| && d.peers[j].group == d.peers[a.peer].group ::
        Lookup(d.index[j], a.path) == None || Stale(d.peers[j], d.index[j], a.path)
  }

  predicate CarefulTurn(d: Disk, turn: Turn)
    requires CanTurn(d, turn)
  {
    turn.Do? ==> NoRevivalOnDisk(d, turn.deed) && (turn.deed.Act? ==> NoRetreat(d, turn.deed.action))
  }

  predicate CarefulTurns(d: Disk, turns: seq<Turn>)
    requires CanTurnAll(d, turns)
    decreases |turns|
  {
    turns == [] || (CarefulTurn(d, turns[0]) && CarefulTurns(Turned(d, turns[0]), turns[1..]))
  }

  predicate GoodTurn(turn: Turn) {
    turn.Do? && turn.deed.Act? && turn.deed.action.UserWrite? ==> GoodContent(turn.deed.action.content)
  }

  // -------- what is known --------

  predicate NotCached(d: Disk, group: string, path: Path) {
    forall j | 0 <= j < |d.peers| && d.peers[j].group == group :: d.peers[j].Cached(path) == None
  }

  /** After the cut, some member has a file to report that it has not stored, and nothing else is reported. */
  predicate Owed(d: Disk, group: string, path: Path) {
    && |d.peers| == |d.index| && NotCached(d, group, path)
    && (exists j :: 0 <= j < |d.peers| && d.peers[j].group == group && path in d.peers[j].pending)
    && forall j | 0 <= j < |d.peers| && d.peers[j].group == group && path in d.peers[j].pending ::
         Stale(d.peers[j], d.index[j], path)
  }

  ghost predicate Kept(d: Disk, group: string, path: Path) {
    Followed(d, group, path) || Owed(d, group, path)
  }

  ghost predicate CrashInv(d: Disk) {
    Base(d.peers) && AllCoupled(d) && forall group, path :: Kept(d, group, path)
  }

  // -------- a cut --------

  lemma FailedKeepsGood(d: Disk, i: nat, path: Path, got: set<nat>)
    requires |d.peers| == |d.index| && i < |d.peers| && DistinctNames(d.peers) && GoodFiles(d.peers)
    ensures DistinctNames(Failed(d, i, path, got).peers) && GoodFiles(Failed(d, i, path, got).peers)
  {
    StepKeepsGoodFiles(d.peers, ProcessChange(i, path));
    StepKeepsNames(d.peers, ProcessChange(i, path));
  }

  /** Elsewhere nothing has happened. */
  lemma FailedElsewhere(d: Disk, i: nat, path: Path, got: set<nat>, j: nat, q: Path)
    requires |d.peers| == |d.index| && i < |d.peers| && j < |d.peers|
    requires q != path || d.peers[j].group != d.peers[i].group
    ensures var e := Failed(d, i, path, got);
      && e.peers[j].group == d.peers[j].group && Lookup(e.index[j], q) == Lookup(d.index[j], q)
      && e.peers[j].Cached(q) == d.peers[j].Cached(q) && e.peers[j].File(q) == d.peers[j].File(q)
      && (q in e.peers[j].pending <==> q in d.peers[j].pending)
  {}

  predicate SameOn(d: Disk, e: Disk, group: string, path: Path)
    requires |d.peers| == |d.index| && |e.peers| == |e.index|
  {
    && |e.peers| == |d.peers|
    && (forall j | 0 <= j < |d.peers| :: e.peers[j].group == d.peers[j].group)
    && forall j | 0 <= j < |d.peers| && d.peers[j].group == group ::
         && Lookup(e.index[j], path) == Lookup(d.index[j], path)
         && e.peers[j].Cached(path) == d.peers[j].Cached(path) && e.peers[j].File(path) == d.peers[j].File(path)
         && (path in e.peers[j].pending <==> path in d.peers[j].pending)
  }

  lemma SameHolds(d: Disk, e: Disk, group: string, path: Path, last: Last)
    requires |d.peers| == |d.index| && |e.peers| == |e.index| && SameOn(d, e, group, path) && Holds(d, group, path, last)
    ensures Holds(e, group, path, last)
  {
    SameSettling(d, e, group, path, last);
    SameIndexFits(d, e, group, path, last);
  }

  lemma SameSettling(d: Disk, e: Disk, group: string, path: Path, last: Last)
    requires |d.peers| == |d.index| && |e.peers| == |e.index| && SameOn(d, e, group, path)
    requires Settling(d.peers, group, path, last)
    ensures Settling(e.peers, group, path, last)
  {
    if last.LastDelete? {
      var k :| 0 <= k < |d.peers| && d.peers[k].group == group && Tombstoned(d.peers[k], path);
      assert Tombstoned(e.peers[k], path);
    }
  }

  lemma SameIndexFits(d: Disk, e: Disk, group: string, path: Path, last: Last)
    requires |d.peers| == |d.index| && |e.peers| == |e.index| && SameOn(d, e, group, path) && IndexFits(d, group, path, last)
    ensures IndexFits(e, group, path, last)
  {
    if ValueOf(last).None? && exists k :: 0 <= k < |d.peers| && d.peers[k].group == group {
      var k :| 0 <= k < |d.peers| && d.peers[k].group == group && Lookup(d.index[k], path) == None;
      assert e.peers[k].group == group && Lookup(e.index[k], path) == None;
    }
  }

  /** A restart turns what is not stored into open events, and keeps what is owed. */
  lemma RestartOwed(d: Disk, group: string, path: Path, k: nat)
    requires |d.peers| == |d.index| && k < |d.peers| && d.peers[k].group == group
    requires d.peers[k].File(path) != Lookup(d.index[k], path)
    ensures Owed(Restarted(d), group, path)
  {
    var e := Restarted(d);
    forall j | 0 <= j < |d.peers|
      ensures path in e.peers[j].pending <==> e.peers[j].File(path) != Lookup(e.index[j], path)
    {
      CoupledAfterRestart(d, j, path);
    }
    assert e.peers[k].group == group && path in e.peers[k].pending;
  }

  lemma RestartKept(d: Disk, group: string, path: Path)
    requires |d.peers| == |d.index| && Kept(d, group, path)
    ensures Kept(Restarted(d), group, path)
  {
    if Followed(d, group, path) {
      var last :| Holds(d, group, path, last);
      RestartHolds(d, group, path, last);
    } else {
      var k :| 0 <= k < |d.peers| && d.peers[k].group == group && path in d.peers[k].pending;
      RestartOwed(d, group, path, k);
    }
  }

  lemma ElsewhereSame(d: Disk, i: nat, path: Path, got: set<nat>, group: string, q: Path)
    requires |d.peers| == |d.index| && i < |d.peers| && (q != path || group != d.peers[i].group)
    ensures var e := Failed(d, i, path, got); |e.peers| == |e.index| && SameOn(d, e, group, q)
  {
    StepKeepsNames(d.peers, ProcessChange(i, path));
    forall j | 0 <= j < |d.peers| && d.peers[j].group == group
      ensures var e := Failed(d, i, path, got);
        && Lookup(e.index[j], q) == Lookup(d.index[j], q)
        && e.peers[j].Cached(q) == d.peers[j].Cached(q) && e.peers[j].File(q) == d.peers[j].File(q)
        && (q in e.peers[j].pending <==> q in d.peers[j].pending)
    {
      FailedElsewhere(d, i, path, got, j, q);
    }
  }

  lemma ElsewhereKept(d: Disk, i: nat, path: Path, got: set<nat>, group: string, q: Path)
    requires |d.peers| == |d.index| && i < |d.peers| && (q != path || group != d.peers[i].group) && Kept(d, group, q)
    ensures Kept(CutShort(d, i, path, got), group, q)
  {
    var e := Failed(d, i, path, got);
    ElsewhereSame(d, i, path, got, group, q);
    if Followed(d, group, q) {
      var last :| Holds(d, group, q, last);
      SameHolds(d, e, group, q, last);
    } else {
      SameOwed(d, e, group, q);
    }
    RestartKept(e, group, q);
  }

  /** A target that the cut event has reached stores what it is sent; a file that is gone keeps its old stat. */
  lemma GotIsIndexed(d: Disk, i: nat, path: Path, got: set<nat>, j: nat)
    requires |d.peers| == |d.index| && i < |d.peers| && j < |d.peers| && j != i && Base(d.peers)
    requires Coupled(d.peers[j], d.index[j], path) && d.peers[i].File(path) == Lookup(d.index[i], path)
    ensures var e := Failed(d, i, path, got);
      || Lookup(e.index[j], path) == d.peers[i].File(path)
      || (Lookup(e.index[j], path) == Lookup(d.index[j], path) &&
          (Stale(d.peers[j], d.index[j], path) ==> e.peers[j].File(path) == d.peers[j].File(path)))
  {
    assert Coupled(d.peers[j], d.index[j], path);
  }

  /** The cut event was of a file that is stored already: the others have that value, too, or are owed. */
  lemma StoredIsKept(d: Disk, i: nat, path: Path, got: set<nat>, last: Last)
    requires |d.peers| == |d.index| && i < |d.peers| && Base(d.peers) && AllCoupled(d)
    requires Holds(d, d.peers[i].group, path, last) && d.peers[i].File(path) == Lookup(d.index[i], path)
    ensures Followed(CutShort(d, i, path, got), d.peers[i].group, path)
  {
    var e, group := Failed(d, i, path, got), d.peers[i].group;
    StepKeepsNames(d.peers, ProcessChange(i, path));
    assert Lookup(d.index[i], path) == ValueOf(last);
    forall j | 0 <= j < |d.peers| && d.peers[j].group == group
      ensures Lookup(e.index[j], path) == ValueOf(last) || (ValueOf(last) == None && e.peers[j].File(path) != Lookup(e.index[j], path))
    {
      assert Coupled(d.peers[j], d.index[j], path);
      if j != i {
        GotIsIndexed(d, i, path, got, j);
      }
    }
    IndexDecides(e, group, path, ValueOf(last), i);
  }

  /** After a restart, what the index of every member says, but for those that report, is what the group follows. */
  lemma IndexDecides(d: Disk, group: string, path: Path, value: Option<Bytes>, i: nat)
    requires |d.peers| == |d.index| && i < |d.peers| && d.peers[i].group == group && Lookup(d.index[i], path) == value
    requires forall j | 0 <= j < |d.peers| && d.peers[j].group == group ::
      Lookup(d.index[j], path) == value || (value == None && d.peers[j].File(path) != Lookup(d.index[j], path))
    ensures Followed(Restarted(d), group, path)
  {
    var e := Restarted(d);
    forall j | 0 <= j < |d.peers|
      ensures path in e.peers[j].pending <==> e.peers[j].File(path) != Lookup(e.index[j], path)
    {
      CoupledAfterRestart(d, j, path);
    }
    assert e.peers[i].group == group && Lookup(e.index[i], path) == value;
    assert Holds(e, group, path, Never(value));
  }

  /** A cut event leaves its source owing the change, unless the group had it stored before. */
  lemma CutKept(d: Disk, i: nat, path: Path, got: set<nat>)
    requires CanTurn(d, Cut(i, path, got)) && Base(d.peers) && AllCoupled(d) && Kept(d, d.peers[i].group, path)
    ensures Kept(CutShort(d, i, path, got), d.peers[i].group, path)
  {
    var e, group := Failed(d, i, path, got), d.peers[i].group;
    if d.peers[i].File(path) != Lookup(d.index[i], path) {
      RestartOwed(e, group, path, i);
    } else {
      var last :| Holds(d, group, path, last);
      StoredIsKept(d, i, path, got, last);
    }
  }

  lemma CutKeepsInv(d: Disk, i: nat, path: Path, got: set<nat>)
    requires CrashInv(d) && CanTurn(d, Cut(i, path, got))
    ensures CrashInv(CutShort(d, i, path, got))
  {
    var e := Failed(d, i, path, got);
    FailedKeepsGood(d, i, path, got);
    RestartBase(e);
    RestartCoupled(e);
    forall group, q ensures Kept(CutShort(d, i, path, got), group, q) {
      assert Kept(d, group, q);
      if q == path && group == d.peers[i].group {
        CutKept(d, i, path, got);
      } else {
        ElsewhereKept(d, i, path, got, group, q);
      }
    }
  }

  lemma RestartCoupled(d: Disk)
    requires |d.peers| == |d.index|
    ensures AllCoupled(Restarted(d))
  {
    forall i, path | 0 <= i < |d.peers| ensures Coupled(Restarted(d).peers[i], Restarted(d).index[i], path) {
      CoupledAfterRestart(d, i, path);
    }
  }

  // -------- other turns --------

  /** The first event of the group sends its file, for nothing is cached, and settles what was owed. */
  lemma OwedIsSettled(d: Disk, i: nat, path: Path)
    requires |d.peers| == |d.index| && i < |d.peers| && Base(d.peers) && AllCoupled(d)
    requires Owed(d, d.peers[i].group, path)
    ensures Followed(Next(d, Act(ProcessChange(i, path))), d.peers[i].group, path)
  {
    assert Dispatches(d.peers, i, path);
    forall j | 0 <= j < |d.peers| ensures Coupled(d.peers[j], d.index[j], path) { }
    SentHolds(d, i, path);
  }

  /** All members have stored the same, but for those that report a change: then the group follows that. */
  lemma SameIndexFollowed(d: Disk, group: string, path: Path, value: Option<Bytes>, i: nat)
    requires AllCoupled(d) && NotCached(d, group, path)
    requires i < |d.peers| && d.peers[i].group == group && Lookup(d.index[i], path) == value
    requires forall j | 0 <= j < |d.peers| && d.peers[j].group == group ::
      Lookup(d.index[j], path) == value || (value == None && Stale(d.peers[j], d.index[j], path))
    ensures Followed(d, group, path)
  {
    forall j | 0 <= j < |d.peers| && d.peers[j].group == group ensures Coupled(d.peers[j], d.index[j], path) { }
    assert Holds(d, group, path, Never(value));
  }

  lemma UserElsewhere(d: Disk, a: Action, j: nat, path: Path)
    requires CanDo(d, Act(a)) && !a.ProcessChange? && j < |d.peers| && (a.peer != j || a.path != path)
    ensures var e := Next(d, Act(a));
      && |e.peers| == |e.index| == |d.peers| && e.index == d.index && e.peers[j].group == d.peers[j].group
      && e.peers[j].Cached(path) == d.peers[j].Cached(path) && e.peers[j].File(path) == d.peers[j].File(path)
      && (path in e.peers[j].pending <==> path in d.peers[j].pending)
  {}

  /** A user step on the path: the user's file is owed now, or it is the one that all have stored. */
  lemma UserKept(d: Disk, a: Action, path: Path)
    requires CanDo(d, Act(a)) && !a.ProcessChange? && a.path == path && AllCoupled(d)
    requires NoRevivalOnDisk(d, Act(a)) && NoRetreat(d, a) && Owed(d, d.peers[a.peer].group, path)
    ensures Kept(Next(d, Act(a)), d.peers[a.peer].group, path)
  {
    var e, i, group := Next(d, Act(a)), a.peer, d.peers[a.peer].group;
    StepKeepsNames(d.peers, a);
    forall j | 0 <= j < |d.peers| && j != i ensures e.peers[j] == d.peers[j] && e.index[j] == d.index[j] {
      UserElsewhere(d, a, j, path);
    }
    assert e.peers[i].group == group && path in e.peers[i].pending && NotCached(e, group, path);
    if e.peers[i].File(path) == Lookup(d.index[i], path) {
      forall j, q | 0 <= j < |d.peers| ensures Coupled(e.peers[j], e.index[j], q) {
        CoupledAfterUser(d, a, j, q);
      }
      SameIndexFollowed(e, group, path, Lookup(d.index[i], path), i);
    }
  }

  lemma OtherActAt(d: Disk, a: Action, j: nat, path: Path)
    requires CanDo(d, Act(a)) && j < |d.peers| && (a.path != path || d.peers[a.peer].group != d.peers[j].group)
    ensures var e := Next(d, Act(a));
      && |e.peers| == |e.index| == |d.peers| && Lookup(e.index[j], path) == Lookup(d.index[j], path)
      && e.peers[j].Cached(path) == d.peers[j].Cached(path) && e.peers[j].File(path) == d.peers[j].File(path)
      && (path in e.peers[j].pending <==> path in d.peers[j].pending)
  {}

  lemma SameOwed(d: Disk, e: Disk, group: string, path: Path)
    requires |d.peers| == |d.index| && |e.peers| == |e.index| && SameOn(d, e, group, path) && Owed(d, group, path)
    ensures Owed(e, group, path)
  {
    var k :| 0 <= k < |d.peers| && d.peers[k].group == group && path in d.peers[k].pending;
    assert path in e.peers[k].pending;
  }

  /** Steps on other paths and in other groups do not matter. */
  lemma OtherActOwed(d: Disk, a: Action, group: string, path: Path)
    requires CanDo(d, Act(a)) && Owed(d, group, path) && (a.path != path || d.peers[a.peer].group != group)
    ensures Owed(Next(d, Act(a)), group, path)
  {
    StepKeepsNames(d.peers, a);
    forall j | 0 <= j < |d.peers| && d.peers[j].group == group
      ensures var e := Next(d, Act(a));
        && Lookup(e.index[j], path) == Lookup(d.index[j], path)
        && e.peers[j].Cached(path) == d.peers[j].Cached(path) && e.peers[j].File(path) == d.peers[j].File(path)
        && (path in e.peers[j].pending <==> path in d.peers[j].pending)
    {
      OtherActAt(d, a, j, path);
    }
    SameOwed(d, Next(d, Act(a)), group, path);
  }

  lemma ActKept(d: Disk, a: Action, group: string, path: Path)
    requires CanDo(d, Act(a)) && NoRevivalOnDisk(d, Act(a)) && NoRetreat(d, a)
    requires Base(d.peers) && AllCoupled(d) && Kept(d, group, path)
    ensures Kept(Next(d, Act(a)), group, path)
  {
    if Followed(d, group, path) {
      ActFollowed(d, a, group, path);
    } else if a.path != path || d.peers[a.peer].group != group {
      OtherActOwed(d, a, group, path);
    } else if a.ProcessChange? {
      OwedIsSettled(d, a.peer, path);
    } else {
      UserKept(d, a, path);
    }
  }

  lemma ActKeepsCrashInv(d: Disk, a: Action)
    requires CrashInv(d) && CanDo(d, Act(a)) && NoRevivalOnDisk(d, Act(a)) && NoRetreat(d, a)
    requires a.UserWrite? ==> GoodContent(a.content)
    ensures CrashInv(Next(d, Act(a)))
  {
    var e := Next(d, Act(a));
    StepKeepsBase(d.peers, a);
    StepKeepsNames(d.peers, a);
    forall i, path | 0 <= i < |e.peers| ensures Coupled(e.peers[i], e.index[i], path) {
      assert Coupled(d.peers[i], d.index[i], path);
      ActCoupled(d, a, i, path);
    }
    forall group, path ensures Kept(e, group, path) {
      assert Kept(d, group, path);
      ActKept(d, a, group, path);
    }
  }

  lemma RestartKeepsCrashInv(d: Disk)
    requires CrashInv(d)
    ensures CrashInv(Restarted(d))
  {
    RestartBase(d);
    RestartCoupled(d);
    forall group, path ensures Kept(Restarted(d), group, path) {
      assert Kept(d, group, path);
      RestartKept(d, group, path);
    }
  }

  lemma TurnKeepsInv(d: Disk, turn: Turn)
    requires CrashInv(d) && CanTurn(d, turn) && CarefulTurn(d, turn) && GoodTurn(turn)
    ensures CrashInv(Turned(d, turn))
  {
    match turn {
      case Cut(i, path, got) => CutKeepsInv(d, i, path, got);
      case Do(deed) =>
        match deed {
          case Restart => RestartKeepsCrashInv(d);
          case Act(a) => ActKeepsCrashInv(d, a);
        }
    }
  }

  // -------- whole runs --------

  lemma {:induction false} TurnsKeepInv(d: Disk, turns: seq<Turn>)
    requires CrashInv(d) && CanTurnAll(d, turns) && CarefulTurns(d, turns) && forall t | t in turns :: GoodTurn(t)
    ensures CrashInv(TurnedAll(d, turns))
    decreases |turns|
  {
    if turns != [] {
      assert GoodTurn(turns[0]);
      TurnKeepsInv(d, turns[0]);
      TurnsKeepInv(Turned(d, turns[0]), turns[1..]);
    }
  }

  /**
    Convergence across crashes at any moment, also between the deliveries of an event: whenever a group has no event
    left on a path, its members hold the same file or none.
   */
  lemma ConvergenceAcrossCrashes(d: Disk, turns: seq<Turn>, group: string, path: Path)
    requires FirstStart(d) && CanTurnAll(d, turns) && CarefulTurns(d, turns) && forall t | t in turns :: GoodTurn(t)
    requires Quiet(TurnedAll(d, turns).peers, group, path)
    ensures Agree(TurnedAll(d, turns).peers, group, path)
  {
    FirstStartInv(d);
    forall group, path ensures Kept(d, group, path) {
      assert Followed(d, group, path);
    }
    TurnsKeepInv(d, turns);
    var e := TurnedAll(d, turns);
    assert Kept(e, group, path);
    var last :| Holds(e, group, path, last);
    QuietAgrees(e.peers, group, path);
  }

  /** What the failure leaves at the source, and at a target that the event did not reach. */
  lemma FailedAt(d: Disk, i: nat, path: Path, got: set<nat>, j: nat)
    requires |d.peers| == |d.index| && i < |d.peers| && j < |d.peers| && j != i && j !in got
    ensures var e := Failed(d, i, path, got);
      && |e.peers| == |e.index| == |d.peers| && e.peers[j] == d.peers[j] && e.index[i] == d.index[i]
      && e.peers[i].group == d.peers[i].group && e.peers[i].File(path) == d.peers[i].File(path) && path !in e.peers[i].pending
  {}

  /** Without a restart, a quiet group stays apart after a delivery that failed; the restart makes the source report again. */
  lemma FailureNeedsRestart(d: Disk, i: nat, path: Path, got: set<nat>, j: nat)
    requires |d.peers| == |d.index| && i < |d.peers| && j < |d.peers| && j != i && j !in got
    requires d.peers[j].group == d.peers[i].group && d.peers[j].File(path) != d.peers[i].File(path)
    requires d.peers[i].File(path) != Lookup(d.index[i], path)
    ensures !Agree(Failed(d, i, path, got).peers, d.peers[i].group, path)
    ensures path !in Failed(d, i, path, got).peers[i].pending
    ensures path in CutShort(d, i, path, got).peers[i].pending && Owed(CutShort(d, i, path, got), d.peers[i].group, path)
  {
    var e := Failed(d, i, path, got);
    FailedAt(d, i, path, got, j);
    RestartOwed(e, d.peers[i].group, path, i);
    CoupledAfterRestart(e, i, path);
  }

  const SENDER := Peer("a", "", map["n.md" := [1]], map[], {"n.md"})
  const REFUSES := Peer("b", "", map[], map[], {})
  const PAIR := Disk([SENDER, REFUSES], [map[], map[]])

  lemma PairStarts()
    ensures FirstStart(PAIR)
  {
    assert SENDER.files.Keys == {"n.md"} && REFUSES.files.Keys == {};
    assert SENDER.name[0] != REFUSES.name[0];
  }

  /** Such a run: the only delivery of the only event fails, and the group is quiet and apart. */
  lemma FailureLeavesApart()
    ensures FirstStart(PAIR)
    ensures var e := Failed(PAIR, 0, "n.md", {}); Quiet(e.peers, "", "n.md") && !Agree(e.peers, "", "n.md")
  {
    PairStarts();
    FailedAt(PAIR, 0, "n.md", {}, 1);
    FailureNeedsRestart(PAIR, 0, "n.md", {}, 1);
  }
}

/**
  Convergence on one path in one group when deliveries overlap: users, other paths, other groups and arrivals fall
  between the deliveries of one event. The one thing asked for is that an event of this path in this group is opened
  only when no earlier change of it is still on its way.
 */
module Overlap {
  import opened Types
  import opened SyncPeers
  import opened Convergence
  import opened Echo

  /** The parcel brings a change of path to a member of the group. */
  predicate For(s: System, x: Parcel, group: string, path: Path) {
    x.path == path && x.target < |s| && s[x.target].group == group
  }

  /** No change of path is on its way to the group. */
  predicate Clear(n: Net, group: string, path: Path) {
    forall x | x in n.flight :: !For(n.peers, x, group, path)
  }

  predicate Coming(n: Net, j: int, path: Path) {
    exists x | x in n.flight :: x.target == j && x.path == path
  }

  predicate FileComing(n: Net, j: int, path: Path) {
    exists x | x in n.flight :: x.target == j && x.path == path && !x.fd.deleted
  }

  // -------- what is known about a group and a path --------

  predicate Carries(last: Last, fd: FileData) {
    match last
    case Never(_) => false
    case LastPut(c) => fd == FileData(c, false)
    case LastDelete => fd.deleted
  }

  /** The hash for which a target skips the last change. */
  function SkipHash(last: Last): Hash {
    match last
    case LastPut(c) => c
    case _ => DELETED_MARK
  }

  predicate CachesComing(n: Net, group: string, path: Path, last: Last) {
    match last
    case LastPut(c) => GoodContent(c) && forall j | 0 <= j < |n.peers| && n.peers[j].group == group ::
      n.peers[j].Cached(path) == Some(c) || Coming(n, j, path)
    case _ => CachesFit(n.peers, group, path, last)
  }

  /** Every member has an event open, or matches the last change, or will take it when it arrives. */
  predicate Reaching(n: Net, group: string, path: Path, last: Last) {
    forall j | 0 <= j < |n.peers| && n.peers[j].group == group ::
      || path in n.peers[j].pending
      || Matches(n.peers[j].File(path), last)
      || (Coming(n, j, path) && n.peers[j].Cached(path) != Some(SkipHash(last)))
  }

  predicate Following(n: Net, group: string, path: Path, last: Last) {
    && (forall x | x in n.flight && For(n.peers, x, group, path) :: Carries(last, x.fd))
    && CachesComing(n, group, path, last)
    && Reaching(n, group, path, last)
  }

  /** Once a file is on its way or has gone round, every member has cached something or will. */
  predicate GoneOrComing(n: Net, group: string, path: Path) {
    (|| (exists i :: 0 <= i < |n.peers| && n.peers[i].group == group && GoodCached(n.peers[i], path))
     || (exists x | x in n.flight :: For(n.peers, x, group, path) && !x.fd.deleted)) ==>
      forall j | 0 <= j < |n.peers| && n.peers[j].group == group ::
        n.peers[j].Cached(path).Some? || FileComing(n, j, path)
  }

  predicate GoodParcel(n: Net, x: Parcel) {
    x.target < |n.peers| && if x.fd.deleted then x.fd.data == [] else GoodContent(x.fd.data)
  }

  predicate Sound(n: Net) {
    && DistinctNames(n.peers)
    && GoodFiles(n.peers)
    && forall x | x in n.flight :: GoodParcel(n, x)
  }

  ghost predicate AllKnown(s: System) {
    forall i, path | 0 <= i < |s| :: Known(s[i], path)
  }

  ghost predicate NetJudged(n: Net, group: string, path: Path, onTrack: bool) {
    && Sound(n) && AllKnown(n.peers) && GoneOrComing(n, group, path)
    && if onTrack then exists last :: Following(n, group, path, last)
       else Clear(n, group, path) && Lost(n.peers, group, path)
  }

  // -------- steps that do not concern the group and the path --------

  /** Nothing happened on the path in the group but user actions, which leave an event open. */
  ghost predicate SameFor(n: Net, m: Net, group: string, path: Path) {
    && |m.peers| == |n.peers|
    && (forall i | 0 <= i < |n.peers| :: m.peers[i].group == n.peers[i].group)
    && (forall i | 0 <= i < |n.peers| && n.peers[i].group == group ::
          && m.peers[i].Cached(path) == n.peers[i].Cached(path)
          && (path in n.peers[i].pending ==> path in m.peers[i].pending)
          && (path in m.peers[i].pending || m.peers[i].File(path) == n.peers[i].File(path)))
    && (forall x | For(n.peers, x, group, path) :: x in m.flight <==> x in n.flight)
  }

  lemma SameComing(n: Net, m: Net, group: string, path: Path, j: int)
    requires SameFor(n, m, group, path) && 0 <= j < |n.peers| && n.peers[j].group == group
    ensures Coming(n, j, path) <==> Coming(m, j, path)
    ensures FileComing(n, j, path) <==> FileComing(m, j, path)
  {
    forall x: Parcel | x.target == j && x.path == path ensures x in n.flight <==> x in m.flight {
      assert For(n.peers, x, group, path);
    }
  }

  lemma SameFollowing(n: Net, m: Net, group: string, path: Path, last: Last)
    requires SameFor(n, m, group, path) && Following(n, group, path, last)
    ensures Following(m, group, path, last)
  {
    forall x | x in m.flight && For(m.peers, x, group, path) ensures Carries(last, x.fd) {
      assert For(n.peers, x, group, path);
    }
    forall j | 0 <= j < |n.peers| && n.peers[j].group == group ensures Coming(n, j, path) <==> Coming(m, j, path) {
      SameComing(n, m, group, path, j);
    }
    if last.LastDelete? {
      var i :| 0 <= i < |n.peers| && n.peers[i].group == group && Tombstoned(n.peers[i], path);
      assert Tombstoned(m.peers[i], path);
    }
  }

  lemma SameGone(n: Net, m: Net, group: string, path: Path)
    requires SameFor(n, m, group, path) && GoneOrComing(n, group, path)
    ensures GoneOrComing(m, group, path)
  {
    forall j | 0 <= j < |n.peers| && n.peers[j].group == group
      ensures FileComing(n, j, path) <==> FileComing(m, j, path)
    {
      SameComing(n, m, group, path, j);
    }
    forall x | x in m.flight && For(m.peers, x, group, path) ensures x in n.flight && For(n.peers, x, group, path) {
      assert For(n.peers, x, group, path);
    }
    forall i | 0 <= i < |n.peers| && n.peers[i].group == group
      ensures GoodCached(m.peers[i], path) <==> GoodCached(n.peers[i], path)
    { }
  }

  lemma SameLost(n: Net, m: Net, group: string, path: Path)
    requires SameFor(n, m, group, path) && Clear(n, group, path) && Lost(n.peers, group, path)
    ensures Clear(m, group, path) && Lost(m.peers, group, path)
  {
    forall x | x in m.flight ensures !For(m.peers, x, group, path) {
      assert For(m.peers, x, group, path) ==> For(n.peers, x, group, path);
    }
    if i, j :| 0 <= i < |n.peers| && 0 <= j < |n.peers| && CachesSplit(n.peers, group, path, i, j) {
      assert CachesSplit(m.peers, group, path, i, j);
    } else {
      assert Unaligned(n.peers, group, path);
      assert Unaligned(m.peers, group, path);
    }
  }

  predicate Touches(n: Net, a: NetAction, group: string, path: Path)
    requires NetEnabled(n, a)
  {
    match a
    case User(_) => false
    case Open(i, q) => q == path && n.peers[i].group == group
    case Arrive(k) => For(n.peers, n.flight[k], group, path)
  }

  /** An event of the group on the path is opened only when no change of it is on its way there. */
  predicate Orderly(n: Net, a: NetAction, group: string, path: Path)
    requires NetEnabled(n, a)
  {
    a.Open? && Touches(n, a, group, path) ==> Clear(n, group, path)
  }

  predicate OrderlyRun(n: Net, acts: seq<NetAction>, group: string, path: Path)
    requires NetLegal(n, acts)
    decreases |acts|
  {
    acts == [] || (Orderly(n, acts[0], group, path) && OrderlyRun(NetStep(n, acts[0]), acts[1..], group, path))
  }

  lemma UserIsSame(n: Net, act: Action, group: string, path: Path)
    requires NetEnabled(n, User(act))
    ensures SameFor(n, NetStep(n, User(act)), group, path)
  {}

  lemma OpenIsSame(n: Net, i: nat, q: Path, group: string, path: Path)
    requires NetEnabled(n, Open(i, q)) && !Touches(n, Open(i, q), group, path)
    ensures SameFor(n, Opened(n, i, q), group, path)
  {
    var fd := n.peers[i].Payload(q);
    forall x | For(n.peers, x, group, path) ensures x in Opened(n, i, q).flight <==> x in n.flight {
      ParcelsAre(n.peers, i, q, fd, 0, x);
    }
  }

  lemma {:induction false} ParcelsAre(s: System, i: nat, path: Path, fd: FileData, k: nat, x: Parcel)
    requires i < |s| && k <= |s|
    ensures x in Parcels(s, i, path, fd, k) <==>
      x.path == path && x.fd == fd && k <= x.target < |s| && IsTarget(s[x.target], s[i].name, s[i].group)
    decreases |s| - k
  {
    if k < |s| {
      ParcelsAre(s, i, path, fd, k + 1, x);
    }
  }

  /** What is left in flight once the k-th parcel has arrived. */
  lemma Remaining(flight: seq<Parcel>, k: nat, x: Parcel)
    requires k < |flight|
    ensures x in flight[..k] + flight[k + 1..] ==> x in flight
    ensures x in flight && x != flight[k] ==> x in flight[..k] + flight[k + 1..]
  {
    if x in flight && x != flight[k] {
      var i :| 0 <= i < |flight| && flight[i] == x;
      if i < k {
        assert flight[..k][i] == x;
      } else {
        assert flight[k + 1..][i - k - 1] == x;
      }
    }
  }

  lemma ArriveIsSame(n: Net, k: nat, group: string, path: Path)
    requires NetEnabled(n, Arrive(k)) && !Touches(n, Arrive(k), group, path)
    ensures SameFor(n, NetStep(n, Arrive(k)), group, path)
  {
    forall x | For(n.peers, x, group, path)
      ensures x in NetStep(n, Arrive(k)).flight <==> x in n.flight
    {
      Remaining(n.flight, k, x);
    }
  }

  lemma OtherIsSame(n: Net, a: NetAction, group: string, path: Path)
    requires NetEnabled(n, a) && !Touches(n, a, group, path)
    ensures SameFor(n, NetStep(n, a), group, path)
  {
    match a {
      case User(act) => UserIsSame(n, act, group, path);
      case Open(i, q) => OpenIsSame(n, i, q, group, path);
      case Arrive(k) => ArriveIsSame(n, k, group, path);
    }
  }

  // -------- what every step keeps --------

  predicate GoodWrite(a: NetAction) {
    a.User? && a.act.UserWrite? ==> GoodContent(a.act.content)
  }

  lemma OpenStaysSound(n: Net, i: nat, path: Path)
    requires NetEnabled(n, Open(i, path)) && Sound(n)
    ensures Sound(Opened(n, i, path))
  {
    var t := Opened(n, i, path);
    var fd := n.peers[i].Payload(path);
    assert n.peers[i].File(path).Some? ==> GoodContent(n.peers[i].files[path]);
    forall x | x in t.flight ensures GoodParcel(t, x) {
      ParcelsAre(n.peers, i, path, fd, 0, x);
      assert x in n.flight ==> GoodParcel(n, x);
    }
  }

  lemma ArriveStaysSound(n: Net, k: nat)
    requires NetEnabled(n, Arrive(k)) && Sound(n)
    ensures Sound(NetStep(n, Arrive(k)))
  {
    var t := NetStep(n, Arrive(k));
    assert n.flight[k] in n.flight && GoodParcel(n, n.flight[k]);
    forall x | x in t.flight ensures GoodParcel(t, x) {
      Remaining(n.flight, k, x);
      assert GoodParcel(n, x);
    }
  }

  lemma UserStaysSound(n: Net, act: Action)
    requires NetEnabled(n, User(act)) && Sound(n) && GoodWrite(User(act))
    ensures Sound(NetStep(n, User(act)))
  {
    StepKeepsGoodFiles(n.peers, act);
    StepKeepsNames(n.peers, act);
    forall x | x in n.flight ensures GoodParcel(NetStep(n, User(act)), x) {
      assert GoodParcel(n, x);
    }
  }

  lemma NetStepKeepsKnown(n: Net, a: NetAction)
    requires NetEnabled(n, a) && AllKnown(n.peers)
    ensures AllKnown(NetStep(n, a).peers)
  {
    var t := NetStep(n, a);
    forall i, path | 0 <= i < |t.peers| ensures Known(t.peers[i], path) {
      assert Known(n.peers[i], path);
    }
  }

  lemma NetStepStaysSound(n: Net, a: NetAction)
    requires NetEnabled(n, a) && Sound(n) && GoodWrite(a)
    ensures Sound(NetStep(n, a))
  {
    match a {
      case User(act) => UserStaysSound(n, act);
      case Open(i, path) => OpenStaysSound(n, i, path);
      case Arrive(k) => ArriveStaysSound(n, k);
    }
  }

  // -------- opening an event of the group and the path --------

  lemma OthersGetIt(n: Net, i: nat, path: Path, j: nat)
    requires NetEnabled(n, Open(i, path)) && Sound(n) && Dispatches(n.peers, i, path)
    requires j < |n.peers| && j != i && n.peers[j].group == n.peers[i].group
    ensures Coming(Opened(n, i, path), j, path)
    ensures n.peers[i].File(path).Some? ==> FileComing(Opened(n, i, path), j, path)
  {
    var x := Parcel(j, path, n.peers[i].Payload(path));
    assert n.peers[j].name != n.peers[i].name;
    ParcelsAre(n.peers, i, path, n.peers[i].Payload(path), 0, x);
    assert x in Opened(n, i, path).flight;
  }

  function Sent(n: Net, i: nat, path: Path): Last
    requires i < |n.peers|
  {
    match n.peers[i].File(path)
    case Some(c) => LastPut(c)
    case None => LastDelete
  }

  lemma SendFollows(n: Net, i: nat, path: Path)
    requires NetEnabled(n, Open(i, path)) && Sound(n) && AllKnown(n.peers)
    requires Dispatches(n.peers, i, path) && Clear(n, n.peers[i].group, path)
    ensures Following(Opened(n, i, path), n.peers[i].group, path, Sent(n, i, path))
  {
    var t, group := Opened(n, i, path), n.peers[i].group;
    var last, fd := Sent(n, i, path), n.peers[i].Payload(path);
    assert n.peers[i].File(path).Some? ==> GoodContent(n.peers[i].files[path]);
    forall x | x in t.flight && For(t.peers, x, group, path) ensures Carries(last, x.fd) {
      ParcelsAre(n.peers, i, path, fd, 0, x);
      assert For(n.peers, x, group, path);
    }
    forall j | 0 <= j < |n.peers| && n.peers[j].group == group && j != i ensures Coming(t, j, path) {
      OthersGetIt(n, i, path, j);
    }
    if last.LastDelete? {
      assert Tombstoned(t.peers[i], path);
    }
    forall j | 0 <= j < |n.peers| && n.peers[j].group == group
      ensures path in t.peers[j].pending || Matches(t.peers[j].File(path), last) ||
        (Coming(t, j, path) && t.peers[j].Cached(path) != Some(SkipHash(last)))
    {
      assert Known(n.peers[j], path);
      assert n.peers[j].File(path).Some? ==> GoodContent(n.peers[j].files[path]);
    }
  }

  lemma SendGone(n: Net, i: nat, path: Path)
    requires NetEnabled(n, Open(i, path)) && Sound(n) && Dispatches(n.peers, i, path)
    requires Clear(n, n.peers[i].group, path) && GoneOrComing(n, n.peers[i].group, path)
    ensures GoneOrComing(Opened(n, i, path), n.peers[i].group, path)
  {
    var t, group := Opened(n, i, path), n.peers[i].group;
    var fd := n.peers[i].Payload(path);
    if n.peers[i].File(path).Some? {
      forall j | 0 <= j < |n.peers| && n.peers[j].group == group && j != i ensures FileComing(t, j, path) {
        OthersGetIt(n, i, path, j);
      }
    } else {
      assert !GoodCached(t.peers[i], path);
      forall x | x in t.flight && For(t.peers, x, group, path) ensures x.fd.deleted {
        ParcelsAre(n.peers, i, path, fd, 0, x);
        assert For(n.peers, x, group, path);
      }
      forall j | 0 <= j < |n.peers| && n.peers[j].group == group && j != i
        ensures t.peers[j] == n.peers[j] && !FileComing(n, j, path)
      {
        forall x | x in n.flight ensures !(x.target == j && x.path == path) {
          assert !For(n.peers, x, group, path);
        }
      }
    }
  }

  lemma SkipKeepsPeers(n: Net, i: nat, path: Path)
    requires NetEnabled(n, Open(i, path)) && !Dispatches(n.peers, i, path)
    ensures var t := Opened(n, i, path);
      && t.flight == n.flight && |t.peers| == |n.peers|
      && t.peers == Change(n.peers, i, path)
      && forall j | 0 <= j < |n.peers| ::
           && t.peers[j].group == n.peers[j].group && t.peers[j].Cached(path) == n.peers[j].Cached(path)
           && t.peers[j].File(path) == n.peers[j].File(path)
  {}

  /** Nothing is on its way, so the group is as in the protocol with events handled in one go. */
  lemma ClearIsSettling(n: Net, group: string, path: Path, last: Last)
    requires Clear(n, group, path)
    ensures Following(n, group, path, last) <==> Settling(n.peers, group, path, last)
  {
    forall j | 0 <= j < |n.peers| && n.peers[j].group == group ensures !Coming(n, j, path) {
      forall x | x in n.flight ensures !(x.target == j && x.path == path) {
        assert !For(n.peers, x, group, path);
      }
    }
  }

  lemma OpenIsJudged(n: Net, i: nat, path: Path, before: bool)
    requires NetEnabled(n, Open(i, path)) && Clear(n, n.peers[i].group, path)
    requires NetJudged(n, n.peers[i].group, path, before)
    ensures NetJudged(Opened(n, i, path), n.peers[i].group, path,
                      Dispatches(n.peers, i, path) || (before && !Swallowed(n.peers, i, path)))
  {
    var t, group := Opened(n, i, path), n.peers[i].group;
    NetStepStaysSound(n, Open(i, path));
    NetStepKeepsKnown(n, Open(i, path));
    if Dispatches(n.peers, i, path) {
      SendFollows(n, i, path);
      SendGone(n, i, path);
    } else {
      SkipKeepsPeers(n, i, path);
      SkipGone(n, i, path);
      SkipIsJudged(n, i, path, before);
    }
  }

  lemma SkipGone(n: Net, i: nat, path: Path)
    requires NetEnabled(n, Open(i, path)) && !Dispatches(n.peers, i, path)
    requires Clear(n, n.peers[i].group, path) && GoneOrComing(n, n.peers[i].group, path)
    ensures GoneOrComing(Opened(n, i, path), n.peers[i].group, path)
  {
    var t, group := Opened(n, i, path), n.peers[i].group;
    SkipKeepsPeers(n, i, path);
    forall x | x in t.flight ensures For(t.peers, x, group, path) <==> For(n.peers, x, group, path) { }
    forall j | 0 <= j < |n.peers| ensures FileComing(t, j, path) <==> FileComing(n, j, path) { }
    forall j | 0 <= j < |n.peers| ensures GoodCached(t.peers[j], path) <==> GoodCached(n.peers[j], path) { }
  }

  lemma SkipIsJudged(n: Net, i: nat, path: Path, before: bool)
    requires NetEnabled(n, Open(i, path)) && !Dispatches(n.peers, i, path) && Clear(n, n.peers[i].group, path)
    requires NetJudged(n, n.peers[i].group, path, before)
    ensures var t := Opened(n, i, path);
      && Clear(t, n.peers[i].group, path)
      && if before && !Swallowed(n.peers, i, path) then exists last :: Following(t, n.peers[i].group, path, last)
         else Lost(t.peers, n.peers[i].group, path)
  {
    var t, group := Opened(n, i, path), n.peers[i].group;
    SkipKeepsPeers(n, i, path);
    forall x | x in t.flight ensures !For(t.peers, x, group, path) {
      assert !For(n.peers, x, group, path);
    }
    if Swallowed(n.peers, i, path) {
      SwallowedSplits(n, i, path);
    } else if before {
      var last :| Following(n, group, path, last);
      ClearIsSettling(n, group, path, last);
      SkipIsHarmless(n.peers, i, path, last);
      ClearIsSettling(t, group, path, last);
    } else {
      SkipStaysLost(n.peers, i, path);
    }
  }

  lemma SwallowedSplits(n: Net, i: nat, path: Path)
    requires NetEnabled(n, Open(i, path)) && Sound(n) && Swallowed(n.peers, i, path)
    requires Clear(n, n.peers[i].group, path) && GoneOrComing(n, n.peers[i].group, path)
    ensures Lost(Opened(n, i, path).peers, n.peers[i].group, path)
  {
    var t, group := Opened(n, i, path), n.peers[i].group;
    SkipKeepsPeers(n, i, path);
    var j :| 0 <= j < |n.peers| && n.peers[j].group == group && n.peers[j].Cached(path) != n.peers[i].Cached(path);
    assert GoodCached(n.peers[i], path);
    assert !FileComing(n, j, path) by {
      forall x | x in n.flight ensures !(x.target == j && x.path == path) {
        assert !For(n.peers, x, group, path);
      }
    }
    assert CachesSplit(t.peers, group, path, i, j);
  }

  // -------- an arrival for the group and the path --------

  /** Others still wait for what they waited for; the target may not. */
  lemma StillComing(n: Net, k: nat, j: int, path: Path)
    requires NetEnabled(n, Arrive(k))
    ensures var t := NetStep(n, Arrive(k));
      && (j != n.flight[k].target ==>
            (Coming(t, j, path) <==> Coming(n, j, path)) && (FileComing(t, j, path) <==> FileComing(n, j, path)))
      && (Coming(t, j, path) ==> Coming(n, j, path))
      && (FileComing(n, j, path) && (n.flight[k].target != j || n.flight[k].fd.deleted) ==> FileComing(t, j, path))
  {
    var t := NetStep(n, Arrive(k));
    forall x ensures x in t.flight ==> x in n.flight
             ensures x in n.flight && x != n.flight[k] ==> x in t.flight
    {
      Remaining(n.flight, k, x);
    }
  }

  /** What the arrival does to the target, when it carries the last change. */
  lemma TargetReaches(p: Peer, path: Path, last: Last, fd: FileData)
    requires Carries(last, fd) && (last.LastPut? ==> GoodContent(last.content))
    requires || path in p.pending || Matches(p.File(path), last) || p.Cached(path) != Some(SkipHash(last))
    ensures var q := Receive(p, path, fd, true).peer;
      && (path in q.pending || Matches(q.File(path), last))
      && (last.LastPut? ==> q.Cached(path) == Some(last.content))
      && (Tombstoned(p, path) && last.LastDelete? ==> Tombstoned(q, path))
  {}

  lemma ArrivalFollows(n: Net, k: nat, group: string, path: Path, last: Last)
    requires NetEnabled(n, Arrive(k)) && For(n.peers, n.flight[k], group, path)
    requires Following(n, group, path, last)
    ensures Following(NetStep(n, Arrive(k)), group, path, last)
  {
    var t, x := NetStep(n, Arrive(k)), n.flight[k];
    assert x in n.flight;
    TargetReaches(n.peers[x.target], path, last, x.fd);
    forall y | y in t.flight && For(t.peers, y, group, path) ensures Carries(last, y.fd) {
      Remaining(n.flight, k, y);
      assert For(n.peers, y, group, path);
    }
    forall j | 0 <= j < |n.peers| && j != x.target
      ensures t.peers[j] == n.peers[j] && (Coming(t, j, path) <==> Coming(n, j, path))
    {
      StillComing(n, k, j, path);
    }
    if last.LastDelete? {
      var i :| 0 <= i < |n.peers| && n.peers[i].group == group && Tombstoned(n.peers[i], path);
      assert Tombstoned(t.peers[i], path);
    }
  }

  lemma TargetCaches(p: Peer, path: Path, fd: FileData)
    requires if fd.deleted then fd.data == [] else GoodContent(fd.data)
    ensures var q := Receive(p, path, fd, true).peer;
      && (p.Cached(path).Some? || !fd.deleted ==> q.Cached(path).Some?)
      && (fd.deleted && GoodCached(q, path) ==> GoodCached(p, path))
  {}

  lemma ArrivalGone(n: Net, k: nat, group: string, path: Path)
    requires NetEnabled(n, Arrive(k)) && For(n.peers, n.flight[k], group, path)
    requires Sound(n) && GoneOrComing(n, group, path)
    ensures GoneOrComing(NetStep(n, Arrive(k)), group, path)
  {
    var t, x := NetStep(n, Arrive(k)), n.flight[k];
    assert x in n.flight && GoodParcel(n, x);
    TargetCaches(n.peers[x.target], path, x.fd);
    forall y | y in t.flight && For(t.peers, y, group, path) ensures y in n.flight && For(n.peers, y, group, path) {
      Remaining(n.flight, k, y);
    }
    forall j | 0 <= j < |n.peers| && n.peers[j].group == group
      ensures FileComing(n, j, path) ==> FileComing(t, j, path) || t.peers[j].Cached(path).Some?
      ensures n.peers[j].Cached(path).Some? ==> t.peers[j].Cached(path).Some?
    {
      StillComing(n, k, j, path);
    }
    if i :| 0 <= i < |t.peers| && t.peers[i].group == group && GoodCached(t.peers[i], path) {
      assert GoodCached(n.peers[i], path) || (i == x.target && !x.fd.deleted);
    }
  }

  // -------- whole runs --------

  predicate NetTrackAfter(n: Net, a: NetAction, group: string, path: Path, before: bool)
    requires NetEnabled(n, a)
  {
    if a.Open? && Touches(n, a, group, path)
    then Dispatches(n.peers, a.peer, path) || (before && !Swallowed(n.peers, a.peer, path))
    else before
  }

  predicate NetOnTrack(n: Net, acts: seq<NetAction>, group: string, path: Path, before: bool)
    requires NetLegal(n, acts)
    decreases |acts|
  {
    if acts == [] then before
    else NetOnTrack(NetStep(n, acts[0]), acts[1..], group, path, NetTrackAfter(n, acts[0], group, path, before))
  }

  lemma OtherIsJudged(n: Net, a: NetAction, group: string, path: Path, before: bool)
    requires NetEnabled(n, a) && GoodWrite(a) && !Touches(n, a, group, path)
    requires NetJudged(n, group, path, before)
    ensures NetJudged(NetStep(n, a), group, path, before)
  {
    NetStepStaysSound(n, a);
    NetStepKeepsKnown(n, a);
    OtherIsSame(n, a, group, path);
    SameGone(n, NetStep(n, a), group, path);
    if before {
      var last :| Following(n, group, path, last);
      SameFollowing(n, NetStep(n, a), group, path, last);
    } else {
      SameLost(n, NetStep(n, a), group, path);
    }
  }

  lemma ArrivalIsJudged(n: Net, k: nat, group: string, path: Path, before: bool)
    requires NetEnabled(n, Arrive(k)) && For(n.peers, n.flight[k], group, path)
    requires NetJudged(n, group, path, before)
    ensures NetJudged(NetStep(n, Arrive(k)), group, path, before)
  {
    NetStepStaysSound(n, Arrive(k));
    NetStepKeepsKnown(n, Arrive(k));
    ArrivalGone(n, k, group, path);
    assert n.flight[k] in n.flight;
    var last :| Following(n, group, path, last);
    ArrivalFollows(n, k, group, path, last);
  }

  lemma NetStepIsJudged(n: Net, a: NetAction, group: string, path: Path, before: bool)
    requires NetEnabled(n, a) && GoodWrite(a) && Orderly(n, a, group, path) && NetJudged(n, group, path, before)
    ensures NetJudged(NetStep(n, a), group, path, NetTrackAfter(n, a, group, path, before))
  {
    if !Touches(n, a, group, path) {
      OtherIsJudged(n, a, group, path, before);
    } else {
      match a {
        case User(_) => assert false;
        case Open(i, q) => OpenIsJudged(n, i, path, before);
        case Arrive(k) => ArrivalIsJudged(n, k, group, path, before);
      }
    }
  }

  predicate GoodWrites(acts: seq<NetAction>) {
    forall a | a in acts :: GoodWrite(a)
  }

  lemma {:induction false} NetRunIsJudged(n: Net, acts: seq<NetAction>, group: string, path: Path, before: bool)
    requires NetLegal(n, acts) && OrderlyRun(n, acts, group, path) && GoodWrites(acts) && NetJudged(n, group, path, before)
    ensures NetJudged(NetRun(n, acts), group, path, NetOnTrack(n, acts, group, path, before))
    decreases |acts|
  {
    if acts != [] {
      assert GoodWrite(acts[0]) && GoodWrites(acts[1..]);
      NetStepIsJudged(n, acts[0], group, path, before);
      NetRunIsJudged(NetStep(n, acts[0]), acts[1..], group, path, NetTrackAfter(n, acts[0], group, path, before));
    }
  }

  lemma BlankNetIsJudged(s: System, group: string, path: Path)
    requires Blank(s)
    ensures NetJudged(Net(s, []), group, path, Aligned(s, group, path))
  {
    var n := Net(s, []);
    BlankIsJudged(s, group, path);
    if Aligned(s, group, path) {
      var last :| Settling(s, group, path, last);
      ClearIsSettling(n, group, path, last);
    }
  }

  /** No event is left and no change is on its way. */
  predicate AtRest(n: Net, group: string, path: Path) {
    Quiet(n.peers, group, path) && Clear(n, group, path)
  }

  /**
    The exact outcome of every orderly run, however deliveries, users and other paths interleave: a group at rest on a
    path holds one file, or none, if and only if the last event that was sent or swallowed was sent; without any, if
    and only if the quiet members agreed at the start.
   */
  lemma NetRunDecides(s: System, acts: seq<NetAction>, group: string, path: Path)
    requires Blank(s) && NetLegal(Net(s, []), acts) && OrderlyRun(Net(s, []), acts, group, path) && GoodWrites(acts)
    requires AtRest(NetRun(Net(s, []), acts), group, path)
    ensures Agree(NetRun(Net(s, []), acts).peers, group, path) <==>
      NetOnTrack(Net(s, []), acts, group, path, Aligned(s, group, path))
  {
    var n, t := Net(s, []), NetRun(Net(s, []), acts);
    var aligned := Aligned(s, group, path);
    BlankNetIsJudged(s, group, path);
    NetRunIsJudged(n, acts, group, path, aligned);
    if NetOnTrack(n, acts, group, path, aligned) {
      var last :| Following(t, group, path, last);
      ClearIsSettling(t, group, path, last);
      QuietAgrees(t.peers, group, path);
    } else {
      QuietDisagrees(t.peers, group, path);
    }
  }

  predicate NetNothingSwallowed(n: Net, acts: seq<NetAction>)
    requires NetLegal(n, acts)
    decreases |acts|
  {
    acts == [] ||
    ((acts[0].Open? ==> !Swallowed(n.peers, acts[0].peer, acts[0].path)) &&
     NetNothingSwallowed(NetStep(n, acts[0]), acts[1..]))
  }

  lemma {:induction false} NetStaysOnTrack(n: Net, acts: seq<NetAction>, group: string, path: Path)
    requires NetLegal(n, acts) && NetNothingSwallowed(n, acts)
    ensures NetOnTrack(n, acts, group, path, true)
    decreases |acts|
  {
    if acts != [] {
      NetStaysOnTrack(NetStep(n, acts[0]), acts[1..], group, path);
    }
  }

  /** Where no event is swallowed, every orderly run leaves a group that is at rest with one file, or none. */
  lemma OrderlyRunsConverge(s: System, acts: seq<NetAction>, group: string, path: Path)
    requires Blank(s) && Aligned(s, group, path)
    requires NetLegal(Net(s, []), acts) && OrderlyRun(Net(s, []), acts, group, path) && GoodWrites(acts)
    requires NetNothingSwallowed(Net(s, []), acts) && AtRest(NetRun(Net(s, []), acts), group, path)
    ensures Agree(NetRun(Net(s, []), acts).peers, group, path)
  {
    NetStaysOnTrack(Net(s, []), acts, group, path);
    NetRunDecides(s, acts, group, path);
  }
}

/** Convergence and termination together: once users are idle, the group settles after boundedly many events. */
module Settling {
  import opened Types
  import opened SyncPeers
  import opened Convergence
  import opened Echo

  /** Only the watcher acts: every action handles an open event. */
  predicate EventsOnly(s: System, acts: seq<Action>)
    requires Legal(s, acts)
    decreases |acts|
  {
    acts == [] ||
    (acts[0].ProcessChange? && acts[0].path in s[acts[0].peer].pending && EventsOnly(Step(s, acts[0]), acts[1..]))
  }

  predicate PendingWithin(s: System, paths: seq<Path>) {
    forall i, path | 0 <= i < |s| && path in s[i].pending :: path in paths
  }

  lemma DrainCost(s: System, i: nat, path: Path, paths: seq<Path>, k: nat)
    requires i < |s| && path in s[i].pending && path in paths && Distinct(paths)
    requires NetLegal(Net(s, []), [Open(i, path)] + ArriveAll(k))
    ensures var n := NetRun(Net(s, []), [Open(i, path)] + ArriveAll(k));
      |n.peers| == |s| && Potential(n, paths) < Potential(Net(s, []), paths)
  {
    var acts := [Open(i, path)] + ArriveAll(k);
    forall a | a in acts ensures Within(a, paths) && !a.User? { }
    EchoBound(Net(s, []), acts, paths, |s| - 1);
    NoWrites(acts);
    assert BridgeSteps(acts) >= 1;
    assert WriteCost(|s| - 1) * 0 == 0;
  }

  lemma AtomicStepCost(s: System, i: nat, path: Path, paths: seq<Path>)
    requires i < |s| && path in s[i].pending && path in paths && Distinct(paths)
    ensures |Change(s, i, path)| == |s|
    ensures Potential(Net(Change(s, i, path), []), paths) < Potential(Net(s, []), paths)
  {
    var k := AtomicIsInterleaved(s, i, path);
    DrainCost(s, i, path, paths, k);
  }

  lemma {:induction false} NoWrites(acts: seq<NetAction>)
    requires forall a | a in acts :: !a.User?
    ensures Writes(acts) == 0
  {
    if acts != [] {
      assert acts[0] in acts && forall a | a in acts[1..] :: a in acts;
      NoWrites(acts[1..]);
    }
  }

  lemma EventKeepsPendingWithin(s: System, i: nat, path: Path, paths: seq<Path>)
    requires i < |s| && path in paths && PendingWithin(s, paths)
    ensures PendingWithin(Change(s, i, path), paths)
  {}

  /** However the open events are ordered, no more of them can be handled than the potential allows. */
  lemma {:induction false} EventsAreBounded(s: System, acts: seq<Action>, paths: seq<Path>)
    requires s != [] && Distinct(paths) && PendingWithin(s, paths) && Legal(s, acts) && EventsOnly(s, acts)
    ensures |acts| <= Potential(Net(s, []), paths)
    decreases |acts|
  {
    if acts != [] {
      var i, path := acts[0].peer, acts[0].path;
      AtomicStepCost(s, i, path, paths);
      EventKeepsPendingWithin(s, i, path, paths);
      EventsAreBounded(Step(s, acts[0]), acts[1..], paths);
    }
  }

  ghost predicate AllAgree(s: System) {
    forall group: string, path: Path :: Agree(s, group, path)
  }

  predicate NothingPending(s: System) {
    forall i | 0 <= i < |s| :: s[i].pending == {}
  }

  lemma {:induction false} EventsKeepTrack(s: System, acts: seq<Action>)
    requires Inv(s) && NoneSwallowed(s) && Legal(s, acts) && EventsOnly(s, acts)
    ensures Inv(Run(s, acts)) && NoneSwallowed(Run(s, acts))
    decreases |acts|
  {
    if acts != [] {
      assert !Swallowed(s, acts[0].peer, acts[0].path) by {
        if s[acts[0].peer].File(acts[0].path).Some? {
          assert acts[0].path in s[acts[0].peer].files;
        }
      }
      StepKeepsInv(s, acts[0]);
      DisciplineStep(s, acts[0]);
      EventsKeepTrack(Step(s, acts[0]), acts[1..]);
    }
  }

  /**
    From every state that disciplined users can reach, handling open events in any order stops after at most
    Potential steps; and wherever it stops, all peers of every group agree on every path.
   */
  lemma IdleGroupSettles(s: System, acts: seq<Action>, paths: seq<Path>)
    requires s != [] && Inv(s) && NoneSwallowed(s) && Distinct(paths) && PendingWithin(s, paths)
    requires Legal(s, acts) && EventsOnly(s, acts)
    ensures |acts| <= Potential(Net(s, []), paths)
    ensures NothingPending(Run(s, acts)) ==> AllAgree(Run(s, acts))
  {
    EventsAreBounded(s, acts, paths);
    EventsKeepTrack(s, acts);
    if NothingPending(Run(s, acts)) {
      forall group: string, path: Path ensures Agree(Run(s, acts), group, path) {
        assert Tracked(Run(s, acts), group, path);
        QuietAgrees(Run(s, acts), group, path);
      }
    }
  }

  /** So it is after every start whose quiet members agree, the first one or a later one. */
  lemma AlignedStartSettles(s: System, acts: seq<Action>, paths: seq<Path>)
    requires s != [] && Blank(s) && AllAligned(s) && Distinct(paths) && PendingWithin(s, paths)
    requires Legal(s, acts) && EventsOnly(s, acts)
    ensures |acts| <= Potential(Net(s, []), paths)
    ensures NothingPending(Run(s, acts)) ==> AllAgree(Run(s, acts))
  {
    BlankInv(s);
    assert forall i, path | 0 <= i < |s| && path in s[i].files :: s[i].Cached(path) == None;
    IdleGroupSettles(s, acts, paths);
  }

  /** And a run that stops exists: keep handling some open event. */
  lemma {:induction false} SettlingRunExists(s: System, paths: seq<Path>) returns (acts: seq<Action>)
    requires s != [] && Distinct(paths) && PendingWithin(s, paths)
    ensures Legal(s, acts) && EventsOnly(s, acts) && NothingPending(Run(s, acts))
    decreases Potential(Net(s, []), paths)
  {
    if NothingPending(s) {
      acts := [];
    } else {
      var i :| 0 <= i < |s| && s[i].pending != {};
      var path :| path in s[i].pending;
      AtomicStepCost(s, i, path, paths);
      EventKeepsPendingWithin(s, i, path, paths);
      var rest := SettlingRunExists(Change(s, i, path), paths);
      acts := [ProcessChange(i, path)] + rest;
      assert acts[1..] == rest;
    }
  }
}

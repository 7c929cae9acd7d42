/**
  The changes feed with its checkpoint. The server's log is a sequence of changes; a position in it is a sequence
  number. The checkpoint is saved before a change is handled.
 */
module ChangesFeed {

  /**
    stored is the persistent checkpoint, since the local one; the connection has fetched the changes up to fetched,
    and current is a change whose checkpoint is saved and whose handling has not finished. handled lists the
    positions handled so far, and lost counts handlings cut off by a crash.
   */
  datatype Feed = Feed(stored: nat, since: nat, fetched: nat, current: bool, handled: seq<nat>, lost: nat)

  datatype Event =
    | Fetch       // the connection delivers the next change of the log into the channel
    | Consume     // the loop takes a change from the channel and saves its sequence
    | Handle      // the handling of that change ends
    | Reconnect   // the connection drops; the loop reloads the checkpoint and connects again
    | Restart     // the process dies and starts again from the stored checkpoint

  predicate Possible(f: Feed, e: Event, log: nat) {
    match e
    case Fetch => f.fetched < log
    case Consume => !f.current && f.since < f.fetched
    case Handle => f.current
    case Reconnect => !f.current
    case Restart => true
  }

  /** The change at position k carries the sequence k + 1, so since counts the changes that were saved. */
  function Next(f: Feed, e: Event): Feed {
    match e
    case Fetch => f.(fetched := f.fetched + 1)
    case Consume => f.(stored := f.since + 1, since := f.since + 1, current := true)
    case Handle => f.(current := false, handled := f.handled + if f.since > 0 then [f.since - 1] else [])
    case Reconnect => f.(since := f.stored, fetched := f.stored)
    case Restart =>
      f.(since := f.stored, fetched := f.stored, current := false, lost := f.lost + if f.current then 1 else 0)
  }

  function Begin(start: nat): Feed {
    Feed(start, start, start, false, [], 0)
  }

  predicate Legal(f: Feed, es: seq<Event>, log: nat)
    decreases |es|
  {
    es == [] || (Possible(f, es[0], log) && Legal(Next(f, es[0]), es[1..], log))
  }

  function Run(f: Feed, es: seq<Event>): Feed
    decreases |es|
  {
    if es == [] then f else Run(Next(f, es[0]), es[1..])
  }

  predicate Increasing(s: seq<nat>) {
    forall i, j | 0 <= i < j < |s| :: s[i] < s[j]
  }

  function Open(f: Feed): nat {
    if f.current then 1 else 0
  }

  predicate Inv(f: Feed, start: nat, log: nat) {
    && start <= f.stored == f.since <= f.fetched <= log
    && (f.current ==> start < f.since)
    && Increasing(f.handled)
    && (forall k | k in f.handled :: start <= k < f.since - Open(f))
    && |f.handled| + f.lost + Open(f) == f.since - start
  }

  lemma StepKeepsInv(f: Feed, e: Event, start: nat, log: nat)
    requires start <= log && Inv(f, start, log) && Possible(f, e, log)
    ensures Inv(Next(f, e), start, log)
  {
    if e.Handle? {
      var g := Next(f, e);
      forall i, j | 0 <= i < j < |g.handled| ensures g.handled[i] < g.handled[j] {
        if j == |f.handled| {
          assert g.handled[i] in f.handled;
        }
      }
    }
  }

  function Restarts(es: seq<Event>): nat {
    if es == [] then 0 else (if es[0].Restart? then 1 else 0) + Restarts(es[1..])
  }

  lemma {:induction false} RunKeepsInv(f: Feed, es: seq<Event>, start: nat, log: nat)
    requires start <= log && Inv(f, start, log) && Legal(f, es, log)
    ensures Inv(Run(f, es), start, log) && Run(f, es).lost <= f.lost + Restarts(es)
    decreases |es|
  {
    if es != [] {
      StepKeepsInv(f, es[0], start, log);
      RunKeepsInv(Next(f, es[0]), es[1..], start, log);
    }
  }

  /** As many increasing positions as there are positions: all of them, in order. */
  lemma {:induction false} IncreasingAndFull(s: seq<nat>, start: nat)
    requires Increasing(s) && forall k | k in s :: start <= k < start + |s|
    ensures forall i | 0 <= i < |s| :: s[i] == start + i
  {
    if s != [] {
      var last := |s| - 1;
      assert s[last] in s;
      AtLeast(s, start, last);
      assert s[last] == start + last;
      var front := s[..last];
      forall k | k in front ensures start <= k < start + |front| {
        var i :| 0 <= i < last && s[i] == k;
        assert s[i] in s && s[i] < s[last];
      }
      IncreasingAndFull(front, start);
      forall i | 0 <= i < |s| ensures s[i] == start + i {
        assert i < last ==> front[i] == s[i];
      }
    }
  }

  lemma {:induction false} AtLeast(s: seq<nat>, start: nat, i: nat)
    requires Increasing(s) && i < |s| && forall k | k in s :: start <= k
    ensures s[i] >= start + i
  {
    assert s[i] in s;
    if i > 0 {
      AtLeast(s, start, i - 1);
    }
  }

  /**
    Over any run without a restart, however often the connection drops, the handled changes are the log from the
    start on, each exactly once and in order.
   */
  lemma HandledInOrder(es: seq<Event>, start: nat, log: nat)
    requires start <= log && Legal(Begin(start), es, log) && Restarts(es) == 0
    ensures var f := Run(Begin(start), es);
      && |f.handled| == f.since - start - Open(f)
      && forall i | 0 <= i < |f.handled| :: f.handled[i] == start + i
  {
    RunKeepsInv(Begin(start), es, start, log);
    IncreasingAndFull(Run(Begin(start), es).handled, start);
  }

  /** With crashes, every change is handled at most once, and at most one change is lost for each restart. */
  lemma AtMostOnceAndFewLost(es: seq<Event>, start: nat, log: nat)
    requires start <= log && Legal(Begin(start), es, log)
    ensures var f := Run(Begin(start), es);
      && Increasing(f.handled)
      && |f.handled| + Open(f) >= f.since - start - Restarts(es)
  {
    RunKeepsInv(Begin(start), es, start, log);
  }

  /** The bound is sharp: a crash between saving and handling loses the change for good. */
  lemma CrashLosesOne(start: nat)
    ensures Legal(Begin(start), [Fetch, Consume, Restart, Fetch, Consume, Handle], start + 2)
    ensures Run(Begin(start), [Fetch, Consume, Restart, Fetch, Consume, Handle]).handled == [start + 1]
  {
    var es := [Fetch, Consume, Restart, Fetch, Consume, Handle];
    var f1 := Next(Begin(start), Fetch);
    var f2 := Next(f1, Consume);
    var f3 := Next(f2, Restart);
    var f4 := Next(f3, Fetch);
    var f5 := Next(f4, Consume);
    assert es[1..] == [Consume, Restart, Fetch, Consume, Handle];
    assert es[1..][1..] == [Restart, Fetch, Consume, Handle];
    assert es[1..][1..][1..] == [Fetch, Consume, Handle];
    assert es[1..][1..][1..][1..] == [Consume, Handle];
    assert es[1..][1..][1..][1..][1..] == [Handle];
    assert Run(f5, [Handle]).handled == [start + 1];
    assert Run(f3, [Fetch, Consume, Handle]) == Run(f4, [Consume, Handle]) == Run(f5, [Handle]);
    assert Run(Begin(start), es) == Run(f3, [Fetch, Consume, Handle]);
  }

  // -------- the loops --------

  /** The positions from one to another, in order. */
  function Positions(from: nat, to: nat): (s: seq<nat>)
    requires from <= to
    ensures |s| == to - from && forall i | 0 <= i < |s| :: s[i] == from + i
  {
    seq(to - from, i requires 0 <= i < to - from => from + i)
  }

  lemma OneMorePosition(from: nat, to: nat)
    requires from <= to
    ensures Positions(from, to) + [to] == Positions(from, to + 1)
  {}

  /** One life of the process: how many changes each of its connections delivers, and whether a crash ends the last. */
  datatype Life = Life(connections: seq<nat>, crash: bool)

  function Crashes(lives: seq<Life>): nat {
    if lives == [] then 0 else (if lives[0].crash then 1 else 0) + Crashes(lives[1..])
  }

  lemma {:induction false} CrashesSnoc(lives: seq<Life>, life: Life)
    ensures Crashes(lives + [life]) == Crashes(lives) + if life.crash then 1 else 0
  {
    if lives == [] {
      assert lives + [life] == [life];
    } else {
      assert (lives + [life])[1..] == lives[1..] + [life];
      CrashesSnoc(lives[1..], life);
    }
  }

  /** How many changes the connections deliver together. */
  function Total(connections: seq<nat>): nat {
    if connections == [] then 0 else connections[0] + Total(connections[1..])
  }

  lemma {:induction false} TotalSnoc(connections: seq<nat>, more: nat)
    ensures Total(connections + [more]) == Total(connections) + more
  {
    if connections == [] {
      assert connections + [more] == [more] && [more][1..] == [];
    } else {
      assert (connections + [more])[1..] == connections[1..] + [more];
      TotalSnoc(connections[1..], more);
    }
  }

  /** Where the checkpoint is after so many changes were delivered: at the end of the log, if that comes first. */
  function Reached(from: nat, delivered: nat, log: nat): nat {
    if from + delivered <= log then from + delivered else log
  }

  /** The crash falls on a change: the last connection delivers one as its last, and the log has that many. */
  predicate CutsOff(from: nat, life: Life, log: nat) {
    && life.crash && life.connections != [] && life.connections[|life.connections| - 1] > 0
    && from + Total(life.connections) <= log
  }

  function AllDelivered(lives: seq<Life>): nat {
    if lives == [] then 0 else Total(lives[0].connections) + AllDelivered(lives[1..])
  }

  lemma {:induction false} AllDeliveredSnoc(lives: seq<Life>, life: Life)
    ensures AllDelivered(lives + [life]) == AllDelivered(lives) + Total(life.connections)
  {
    if lives == [] {
      assert lives + [life] == [life] && [life][1..] == [];
    } else {
      assert (lives + [life])[1..] == lives[1..] + [life];
      AllDeliveredSnoc(lives[1..], life);
    }
  }

  /** The number of the lives that a crash cuts off within a change. */
  function Cuts(start: nat, lives: seq<Life>, log: nat): nat
    decreases |lives|
  {
    if lives == [] then 0
    else
      var last := |lives| - 1;
      Cuts(start, lives[..last], log) +
      if CutsOff(Reached(start, AllDelivered(lives[..last]), log), lives[last], log) then 1 else 0
  }

  class Watcher {
    const start: nat
    var stored: nat
    var handled: seq<nat>

    /** Everything before the checkpoint was handled in order, or is one of so many changes lost. */
    ghost predicate Valid(lost: nat)
      reads this
    {
      && start <= stored && |handled| + lost == stored - start
      && Increasing(handled) && forall k | k in handled :: start <= k < stored
    }

    constructor (start: nat)
      ensures this.start == start && stored == start && handled == [] && Valid(0)
    {
      this.start, stored, handled := start, start, [];
    }

    /**
      watchChanges in one life of the process: an outer loop over connections that reloads the checkpoint, and an inner
      one over changes that saves it. A crash falls between saving and handling the last change that is delivered.
     */
    method WatchChanges(log: nat, life: Life) returns (cut: bool)
      requires stored <= log
      modifies this
      ensures stored == Reached(old(stored), Total(life.connections), log)
      ensures cut <==> CutsOff(old(stored), life, log)
      ensures if cut then old(stored) < stored else old(stored) <= stored
      ensures handled == old(handled) + Positions(old(stored), if cut then stored - 1 else stored)
    {
      var since := stored;
      ghost var delivered := 0;
      for attempt := 0 to |life.connections|
        invariant since == stored && old(stored) <= stored && delivered == Total(life.connections[..attempt])
        invariant stored == Reached(old(stored), delivered, log)
        invariant handled == old(handled) + Positions(old(stored), stored)
        invariant attempt == |life.connections| ==> !CutsOff(old(stored), life, log)
      {
        if attempt > 0 {
          since := stored;
        }
        var left := life.connections[attempt];
        DeliveredOne(life, attempt);
        while left > 0 && since < log
          invariant 0 <= left <= life.connections[attempt] && since == stored && old(stored) <= stored
          invariant stored == Reached(old(stored), delivered + life.connections[attempt] - left, log)
          invariant left == 0 && attempt + 1 == |life.connections| ==> !CutsOff(old(stored), life, log)
          invariant handled == old(handled) + Positions(old(stored), stored)
        {
          var change := since;
          stored := change + 1;
          since := change + 1;
          if life.crash && attempt + 1 == |life.connections| && left == 1 {
            return true;
          }
          OneMorePosition(old(stored), change);
          assert (old(handled) + Positions(old(stored), change)) + [change] ==
            old(handled) + (Positions(old(stored), change) + [change]);
          handled := handled + [change];
          left := left - 1;
        }
        delivered := delivered + life.connections[attempt];
      }
      assert life.connections[..|life.connections|] == life.connections;
      cut := false;
    }

    /**
      Start, again and again. Without crashes the handled changes are the log from the start on, each once and in
      order; with them, each change is handled at most once, and at most one is lost per crash.
     */
    method Live(log: nat, lives: seq<Life>) returns (lost: nat)
      requires stored == start <= log && handled == []
      modifies this
      ensures Valid(lost) && lost == Cuts(start, lives, log) <= Crashes(lives)
      ensures stored == Reached(start, AllDelivered(lives), log)
      ensures Crashes(lives) == 0 ==> handled == Positions(start, stored)
    {
      lost := 0;
      for i := 0 to |lives|
        invariant Valid(lost) && lost == Cuts(start, lives[..i], log) <= Crashes(lives[..i])
        invariant stored == Reached(start, AllDelivered(lives[..i]), log)
      {
        ghost var before, known := stored, handled;
        var cut := WatchChanges(log, lives[i]);
        StillIncreasing(known, before, if cut then stored - 1 else stored);
        if cut {
          lost := lost + 1;
        }
        CrashesSnoc(lives[..i], lives[i]);
        AllDeliveredSnoc(lives[..i], lives[i]);
        assert lives[..i + 1] == lives[..i] + [lives[i]] && lives[..i + 1][..i] == lives[..i];
      }
      assert lives[..|lives|] == lives;
      if lost == 0 {
        IncreasingAndFull(handled, start);
      }
    }
  }

  lemma DeliveredOne(life: Life, attempt: nat)
    requires attempt < |life.connections|
    ensures Total(life.connections[..attempt + 1]) == Total(life.connections[..attempt]) + life.connections[attempt]
    ensures attempt + 1 == |life.connections| ==>
      Total(life.connections) == Total(life.connections[..attempt]) + life.connections[attempt]
  {
    TotalSnoc(life.connections[..attempt], life.connections[attempt]);
    assert life.connections[..attempt + 1] == life.connections[..attempt] + [life.connections[attempt]];
    assert attempt + 1 == |life.connections| ==> life.connections[..attempt + 1] == life.connections;
  }

  lemma StillIncreasing(s: seq<nat>, from: nat, to: nat)
    requires Increasing(s) && from <= to && forall k | k in s :: k < from
    ensures Increasing(s + Positions(from, to))
    ensures forall k | k in s + Positions(from, to) :: k in s || from <= k < to
  {
    var t := s + Positions(from, to);
    forall i, j | 0 <= i < j < |t| ensures t[i] < t[j] {
      if i < |s| {
        assert s[i] in s;
      }
    }
  }
}

/**
  The debouncing timers of a storage peer: debounceEvent, the firing of a timer, and the cleanup at the end of its
  callback, in every interleaving.
 */
module Debounce {
  import opened Types

  datatype Phase = Armed | Running | Stopped | Finished

  datatype Timer = Timer(path: Path, phase: Phase)

  /**
    pending is the map from paths to timers. For the record: dirty holds the paths with an event later than their
    last processChange, events and starts count the events and the starts of processChange.
   */
  datatype Board = Board(
    timers: seq<Timer>,
    pending: map<Path, nat>,
    dirty: set<Path>,
    events: multiset<Path>,
    starts: multiset<Path>)

  datatype Move = Event(path: Path) | Fire(id: nat) | Cleanup(id: nat)

  predicate Allowed(b: Board, m: Move) {
    match m
    case Event(_) => true
    case Fire(id) => id < |b.timers| && b.timers[id].phase == Armed
    case Cleanup(id) => id < |b.timers| && b.timers[id].phase == Running
  }

  /** Stopping a timer that has fired already has no effect. */
  function StopTimer(timers: seq<Timer>, id: nat): seq<Timer> {
    if id < |timers| && timers[id].phase == Armed then timers[id := timers[id].(phase := Stopped)] else timers
  }

  function Next(b: Board, m: Move): Board
    requires Allowed(b, m)
  {
    match m
    case Event(p) =>
      var stopped := if p in b.pending then StopTimer(b.timers, b.pending[p]) else b.timers;
      Board(stopped + [Timer(p, Armed)], b.pending[p := |stopped|], b.dirty + {p}, b.events + multiset{p}, b.starts)
    case Fire(id) =>
      var p := b.timers[id].path;
      b.(timers := b.timers[id := Timer(p, Running)], dirty := b.dirty - {p}, starts := b.starts + multiset{p})
    case Cleanup(id) =>
      var p := b.timers[id].path;
      b.(timers := b.timers[id := Timer(p, Finished)], pending := b.pending - {p})
  }

  const EMPTY := Board([], map[], {}, multiset{}, multiset{})

  predicate Legal(b: Board, ms: seq<Move>)
    decreases |ms|
  {
    ms == [] || (Allowed(b, ms[0]) && Legal(Next(b, ms[0]), ms[1..]))
  }

  function Run(b: Board, ms: seq<Move>): Board
    requires Legal(b, ms)
    decreases |ms|
  {
    if ms == [] then b else Run(Next(b, ms[0]), ms[1..])
  }

  /** The timers of a path that never reach, or have not reached, processChange. */
  function Waiting(timers: seq<Timer>, p: Path): nat {
    if timers == [] then 0
    else (if timers[0].path == p && (timers[0].phase == Armed || timers[0].phase == Stopped) then 1 else 0) +
         Waiting(timers[1..], p)
  }

  predicate HasArmed(b: Board, p: Path) {
    exists id :: 0 <= id < |b.timers| && b.timers[id] == Timer(p, Armed)
  }

  predicate TableFits(b: Board) {
    forall p | p in b.pending :: b.pending[p] < |b.timers| && b.timers[b.pending[p]].path == p
  }

  ghost predicate Inv(b: Board) {
    && TableFits(b)
    && (forall p | p in b.dirty :: HasArmed(b, p))
    && (forall p :: b.events[p] == b.starts[p] + Waiting(b.timers, p))
  }

  lemma {:induction false} WaitingUpdate(timers: seq<Timer>, id: nat, t: Timer, p: Path)
    requires id < |timers| && t.path == timers[id].path
    ensures Waiting(timers[id := t], p) + (if timers[id].path == p && (timers[id].phase == Armed || timers[id].phase == Stopped) then 1 else 0) ==
      Waiting(timers, p) + if t.path == p && (t.phase == Armed || t.phase == Stopped) then 1 else 0
  {
    if id == 0 {
      assert timers[0 := t][1..] == timers[1..];
    } else {
      assert timers[id := t][1..] == timers[1..][id - 1 := t];
      WaitingUpdate(timers[1..], id - 1, t, p);
    }
  }

  lemma {:induction false} WaitingSnoc(timers: seq<Timer>, t: Timer, p: Path)
    ensures Waiting(timers + [t], p) == Waiting(timers, p) + if t.path == p && (t.phase == Armed || t.phase == Stopped) then 1 else 0
  {
    if timers == [] {
      assert timers + [t] == [t];
    } else {
      assert (timers + [t])[1..] == timers[1..] + [t];
      WaitingSnoc(timers[1..], t, p);
    }
  }

  lemma EventKeepsInv(b: Board, p: Path)
    requires Inv(b)
    ensures Inv(Next(b, Event(p)))
  {
    var c := Next(b, Event(p));
    var stopped := if p in b.pending then StopTimer(b.timers, b.pending[p]) else b.timers;
    assert c.timers[|stopped|] == Timer(p, Armed);
    forall q | q in c.dirty ensures HasArmed(c, q) {
      if q != p {
        var id :| 0 <= id < |b.timers| && b.timers[id] == Timer(q, Armed);
        assert c.timers[id] == Timer(q, Armed);
      }
    }
    forall q ensures c.events[q] == c.starts[q] + Waiting(c.timers, q) {
      WaitingSnoc(stopped, Timer(p, Armed), q);
      if stopped != b.timers {
        WaitingUpdate(b.timers, b.pending[p], b.timers[b.pending[p]].(phase := Stopped), q);
      }
    }
  }

  lemma TimerKeepsInv(b: Board, m: Move)
    requires Inv(b) && Allowed(b, m) && !m.Event?
    ensures Inv(Next(b, m))
  {
    var c := Next(b, m);
    forall q | q in c.dirty ensures HasArmed(c, q) {
      var id :| 0 <= id < |b.timers| && b.timers[id] == Timer(q, Armed);
      assert c.timers[id] == Timer(q, Armed);
    }
    forall q ensures c.events[q] == c.starts[q] + Waiting(c.timers, q) {
      WaitingUpdate(b.timers, m.id, c.timers[m.id], q);
    }
  }

  lemma {:induction false} RunKeepsInv(b: Board, ms: seq<Move>)
    requires Inv(b) && Legal(b, ms)
    ensures Inv(Run(b, ms))
    decreases |ms|
  {
    if ms != [] {
      if ms[0].Event? {
        EventKeepsInv(b, ms[0].path);
      } else {
        TimerKeepsInv(b, ms[0]);
      }
      RunKeepsInv(Next(b, ms[0]), ms[1..]);
    }
  }

  /**
    From the start, in every interleaving, no event is lost: a path with an event that no processChange has followed
    has an armed timer, although a cleanup may drop a newer timer from the map. So once no timer is armed, every event
    has been followed by processChange. And processChange never starts more often than there were events; the
    difference are the timers that were stopped or still wait.
   */
  lemma NoEventIsLost(ms: seq<Move>)
    requires Legal(EMPTY, ms)
    ensures var b := Run(EMPTY, ms);
      && (forall p | p in b.dirty :: HasArmed(b, p))
      && (b.dirty != {} ==> exists id :: 0 <= id < |b.timers| && b.timers[id].phase == Armed)
      && (forall p :: b.events[p] == b.starts[p] + Waiting(b.timers, p))
  {
    RunKeepsInv(EMPTY, ms);
    var b := Run(EMPTY, ms);
    if b.dirty != {} {
      var p :| p in b.dirty;
      var id :| 0 <= id < |b.timers| && b.timers[id] == Timer(p, Armed);
      assert b.timers[id].phase == Armed;
    }
  }

  /** An event arms a timer of its path, and touches no timer of another one. */
  lemma EventArms(b: Board, p: Path)
    requires TableFits(b)
    ensures HasArmed(Next(b, Event(p)), p)
    ensures forall q | q != p :: HasArmed(Next(b, Event(p)), q) <==> HasArmed(b, q)
  {
    var c := Next(b, Event(p));
    assert c.timers[|b.timers|] == Timer(p, Armed);
    forall q | q != p ensures HasArmed(c, q) <==> HasArmed(b, q) {
      if id :| 0 <= id < |b.timers| && b.timers[id] == Timer(q, Armed) {
        assert c.timers[id] == Timer(q, Armed);
      }
      if id :| 0 <= id < |c.timers| && c.timers[id] == Timer(q, Armed) {
        assert b.timers[id] == Timer(q, Armed);
      }
    }
  }

  // -------- coalescing --------

  /** The timer that the cleanup of another one drops from the map. */
  function DroppedBy(b: Board, m: Move): set<nat>
    requires Allowed(b, m)
  {
    if !m.Cleanup? then {}
    else
      var p := b.timers[m.id].path;
      if p in b.pending && b.pending[p] != m.id then {b.pending[p]} else {}
  }

  function Dropped(b: Board, ms: seq<Move>): set<nat>
    requires Legal(b, ms)
    decreases |ms|
  {
    if ms == [] then {} else DroppedBy(b, ms[0]) + Dropped(Next(b, ms[0]), ms[1..])
  }

  predicate InTable(b: Board, id: nat)
    requires id < |b.timers|
  {
    b.timers[id].path in b.pending && b.pending[b.timers[id].path] == id
  }

  /** Every armed timer is the one that the map knows for its path, or one of those dropped. */
  predicate KnownOr(b: Board, dropped: set<nat>) {
    TableFits(b) && forall id | 0 <= id < |b.timers| && b.timers[id].phase == Armed :: InTable(b, id) || id in dropped
  }

  lemma StepKeepsKnown(b: Board, m: Move, dropped: set<nat>)
    requires Allowed(b, m) && KnownOr(b, dropped)
    ensures KnownOr(Next(b, m), dropped + DroppedBy(b, m))
  {
    var c := Next(b, m);
    forall id | 0 <= id < |c.timers| && c.timers[id].phase == Armed
      ensures InTable(c, id) || id in dropped + DroppedBy(b, m)
    {
      if id < |b.timers| {
        assert b.timers[id] == c.timers[id];
        assert InTable(b, id) || id in dropped;
      }
    }
  }

  lemma {:induction false} RunKeepsKnown(b: Board, ms: seq<Move>, dropped: set<nat>)
    requires Legal(b, ms) && KnownOr(b, dropped)
    ensures KnownOr(Run(b, ms), dropped + Dropped(b, ms))
    decreases |ms|
  {
    if ms == [] {
      assert dropped + {} == dropped;
    } else {
      StepKeepsKnown(b, ms[0], dropped);
      var now := dropped + DroppedBy(b, ms[0]);
      RunKeepsKnown(Next(b, ms[0]), ms[1..], now);
      assert now + Dropped(Next(b, ms[0]), ms[1..]) == dropped + Dropped(b, ms);
    }
  }

  /** In every run, an armed timer that the map does not know was dropped by the cleanup of another timer of its path. */
  lemma UnknownWasDropped(ms: seq<Move>, id: nat)
    requires Legal(EMPTY, ms) && id < |Run(EMPTY, ms).timers| && Run(EMPTY, ms).timers[id].phase == Armed
    ensures InTable(Run(EMPTY, ms), id) || id in Dropped(EMPTY, ms)
  {
    RunKeepsKnown(EMPTY, ms, {});
  }

  /** Where no cleanup has dropped a newer timer, at most one timer of each path is armed. */
  lemma AtMostOneArmed(ms: seq<Move>, i: nat, j: nat)
    requires Legal(EMPTY, ms) && Dropped(EMPTY, ms) == {}
    requires var ts := Run(EMPTY, ms).timers;
      i < |ts| && j < |ts| && ts[i].phase == Armed && ts[j].phase == Armed && ts[i].path == ts[j].path
    ensures i == j
  {
    UnknownWasDropped(ms, i);
    UnknownWasDropped(ms, j);
  }

  predicate Starts(b: Board, m: Move, p: Path)
    requires Allowed(b, m)
  {
    m.Fire? && b.timers[m.id].path == p
  }

  /** How often processChange starts for the path. */
  function Fired(b: Board, ms: seq<Move>, p: Path): nat
    requires Legal(b, ms)
    decreases |ms|
  {
    if ms == [] then 0 else (if Starts(b, ms[0], p) then 1 else 0) + Fired(Next(b, ms[0]), ms[1..], p)
  }

  /** Whether an event of the path waits after the move for processChange to start. */
  predicate WaitsAfter(b: Board, m: Move, p: Path, waits: bool)
    requires Allowed(b, m)
  {
    m == Event(p) || (waits && !Starts(b, m, p))
  }

  predicate Waits(b: Board, ms: seq<Move>, p: Path, waits: bool)
    requires Legal(b, ms)
    decreases |ms|
  {
    if ms == [] then waits else Waits(Next(b, ms[0]), ms[1..], p, WaitsAfter(b, ms[0], p, waits))
  }

  /** The bursts of the path: its events, not counting those that come while an earlier one waits. */
  function Bursts(b: Board, ms: seq<Move>, p: Path, waits: bool): nat
    requires Legal(b, ms)
    decreases |ms|
  {
    if ms == [] then 0
    else
      (if ms[0] == Event(p) && !waits then 1 else 0) +
      Bursts(Next(b, ms[0]), ms[1..], p, WaitsAfter(b, ms[0], p, waits))
  }

  /** The map knows every armed timer of the path, and there is one exactly when an event waits. */
  predicate OneWaits(b: Board, p: Path, waits: bool) {
    KnownOr(b, {}) && (HasArmed(b, p) <==> waits)
  }

  lemma StepKeepsOne(b: Board, m: Move, p: Path, waits: bool)
    requires Allowed(b, m) && OneWaits(b, p, waits) && DroppedBy(b, m) == {}
    ensures OneWaits(Next(b, m), p, WaitsAfter(b, m, p, waits))
    ensures Starts(b, m, p) ==> waits
  {
    var c := Next(b, m);
    StepKeepsKnown(b, m, {});
    if Starts(b, m, p) {
      assert b.timers[m.id] == Timer(p, Armed) && InTable(b, m.id);
      forall id | 0 <= id < |c.timers| ensures c.timers[id] != Timer(p, Armed) {
        assert id != m.id && b.timers[id] == Timer(p, Armed) ==> InTable(b, id);
      }
    } else if m == Event(p) {
      assert c.timers[|b.timers|] == Timer(p, Armed);
    } else {
      SameArmed(b, m, p);
    }
  }

  /** Moves that neither arm nor start a timer of the path leave its armed timers alone. */
  lemma SameArmed(b: Board, m: Move, p: Path)
    requires Allowed(b, m) && TableFits(b) && !Starts(b, m, p) && m != Event(p)
    ensures HasArmed(Next(b, m), p) <==> HasArmed(b, p)
  {
    var c := Next(b, m);
    if id :| 0 <= id < |b.timers| && b.timers[id] == Timer(p, Armed) {
      assert c.timers[id] == Timer(p, Armed);
    }
    if id :| 0 <= id < |c.timers| && c.timers[id] == Timer(p, Armed) {
      assert b.timers[id] == Timer(p, Armed);
    }
  }

  lemma {:induction false} RunCoalesces(b: Board, ms: seq<Move>, p: Path, waits: bool)
    requires Legal(b, ms) && OneWaits(b, p, waits) && Dropped(b, ms) == {}
    ensures OneWaits(Run(b, ms), p, Waits(b, ms, p, waits))
    ensures Fired(b, ms, p) + (if Waits(b, ms, p, waits) then 1 else 0) ==
      Bursts(b, ms, p, waits) + if waits then 1 else 0
    decreases |ms|
  {
    if ms != [] {
      StepKeepsOne(b, ms[0], p, waits);
      RunCoalesces(Next(b, ms[0]), ms[1..], p, WaitsAfter(b, ms[0], p, waits));
    }
  }

  /**
    Debouncing: where no cleanup has dropped a newer timer, processChange has started once for every burst of events
    of a path, be it of one event or of many, except for a burst that is still waiting; that one has an armed timer.
   */
  lemma BurstsStartOnce(ms: seq<Move>, p: Path)
    requires Legal(EMPTY, ms) && Dropped(EMPTY, ms) == {}
    ensures Fired(EMPTY, ms, p) + (if HasArmed(Run(EMPTY, ms), p) then 1 else 0) == Bursts(EMPTY, ms, p, false)
  {
    RunCoalesces(EMPTY, ms, p, false);
  }

  lemma StepKeepsWaiting(b: Board, m: Move, p: Path, waits: bool)
    requires Allowed(b, m) && TableFits(b) && (waits ==> HasArmed(b, p))
    ensures TableFits(Next(b, m)) && (WaitsAfter(b, m, p, waits) ==> HasArmed(Next(b, m), p))
  {
    if m == Event(p) {
      EventArms(b, p);
    } else if !Starts(b, m, p) {
      SameArmed(b, m, p);
    }
  }

  lemma {:induction false} RunStartsBursts(b: Board, ms: seq<Move>, p: Path, waits: bool)
    requires Legal(b, ms) && TableFits(b) && (waits ==> HasArmed(b, p))
    ensures Waits(b, ms, p, waits) ==> HasArmed(Run(b, ms), p)
    ensures Fired(b, ms, p) + (if Waits(b, ms, p, waits) then 1 else 0) >=
      Bursts(b, ms, p, waits) + if waits then 1 else 0
    decreases |ms|
  {
    if ms != [] {
      StepKeepsWaiting(b, ms[0], p, waits);
      RunStartsBursts(Next(b, ms[0]), ms[1..], p, WaitsAfter(b, ms[0], p, waits));
    }
  }

  /** In every run each burst has started processChange at least once, but for one that is still waiting. */
  lemma EveryBurstStarts(ms: seq<Move>, p: Path)
    requires Legal(EMPTY, ms)
    ensures Fired(EMPTY, ms, p) + (if HasArmed(Run(EMPTY, ms), p) then 1 else 0) >= Bursts(EMPTY, ms, p, false)
  {
    RunStartsBursts(EMPTY, ms, p, false);
  }

  predicate Counts(b: Board, ms: seq<Move>, p: Path, waits: bool, fired: nat, bursts: nat, dropped: set<nat>) {
    Legal(b, ms) && Fired(b, ms, p) == fired && Bursts(b, ms, p, waits) == bursts && Dropped(b, ms) == dropped
  }

  /** One move in front of a counted run. */
  lemma CountOne(b: Board, ms: seq<Move>, c: Board, p: Path, waits: bool, fired: nat, bursts: nat, dropped: set<nat>)
    requires ms != [] && Allowed(b, ms[0]) && Next(b, ms[0]) == c
    requires Counts(c, ms[1..], p, WaitsAfter(b, ms[0], p, waits), fired, bursts, dropped)
    ensures Counts(b, ms, p, waits, fired + (if Starts(b, ms[0], p) then 1 else 0),
                   bursts + (if ms[0] == Event(p) && !waits then 1 else 0), DroppedBy(b, ms[0]) + dropped)
  {}

  lemma DropThenFire(b: Board, p: Path)
    requires b.timers == [Timer(p, Running), Timer(p, Armed)] && b.pending == map[p := 1]
    ensures Counts(b, [Cleanup(0), Event(p), Fire(1), Fire(2)], p, true, 2, 0, {1})
  {
    var b1 := Next(b, Cleanup(0));
    assert b1.timers == [Timer(p, Finished), Timer(p, Armed)] && b1.pending == map[];
    var b2 := Next(b1, Event(p));
    assert b2.timers == [Timer(p, Finished), Timer(p, Armed), Timer(p, Armed)];
    var b3 := Next(b2, Fire(1));
    assert b3.timers == [Timer(p, Finished), Timer(p, Running), Timer(p, Armed)];
    var b4 := Next(b3, Fire(2));
    assert [Fire(2)][1..] == [] && Counts(b4, [], p, false, 0, 0, {});
    CountOne(b3, [Fire(2)], b4, p, false, 0, 0, {});
    assert [Fire(1), Fire(2)][1..] == [Fire(2)];
    CountOne(b2, [Fire(1), Fire(2)], b3, p, true, 1, 0, {});
    assert [Event(p), Fire(1), Fire(2)][1..] == [Fire(1), Fire(2)];
    CountOne(b1, [Event(p), Fire(1), Fire(2)], b2, p, true, 2, 0, {});
    assert [Cleanup(0), Event(p), Fire(1), Fire(2)][1..] == [Event(p), Fire(1), Fire(2)];
    CountOne(b, [Cleanup(0), Event(p), Fire(1), Fire(2)], b1, p, true, 2, 0, {});
    assert {1} + {} == {1};
  }

  /** After a drop, a burst can start processChange twice: the next event does not stop the dropped timer. */
  lemma DroppedTimerStartsAgain(p: Path)
    ensures Counts(EMPTY, [Event(p), Fire(0), Event(p), Cleanup(0), Event(p), Fire(1), Fire(2)], p, false, 3, 2, {1})
  {
    var rest := [Cleanup(0), Event(p), Fire(1), Fire(2)];
    var b1 := Next(EMPTY, Event(p));
    assert b1.timers == [Timer(p, Armed)] && b1.pending == map[p := 0];
    var b2 := Next(b1, Fire(0));
    assert b2.timers == [Timer(p, Running)] && b2.pending == map[p := 0];
    var b3 := Next(b2, Event(p));
    assert b3.timers == [Timer(p, Running), Timer(p, Armed)] && b3.pending == map[p := 1];
    DropThenFire(b3, p);
    assert ([Event(p)] + rest)[1..] == rest;
    CountOne(b2, [Event(p)] + rest, b3, p, false, 2, 0, {1});
    assert ([Fire(0), Event(p)] + rest)[1..] == [Event(p)] + rest;
    CountOne(b1, [Fire(0), Event(p)] + rest, b2, p, true, 2, 1, {1});
    var ms := [Event(p), Fire(0), Event(p), Cleanup(0), Event(p), Fire(1), Fire(2)];
    assert ms[1..] == [Fire(0), Event(p)] + rest;
    CountOne(EMPTY, ms, b1, p, false, 3, 1, {1});
    assert {} + {1} == {1};
  }

  // -------- stopping the peer --------

  /** The timer when Stop has passed the paths that are not left. */
  function TimerAfterStop(b: Board, id: nat, left: set<Path>): Timer
    requires id < |b.timers|
  {
    var t := b.timers[id];
    if InTable(b, id) && t.phase == Armed && t.path !in left then t.(phase := Stopped) else t
  }

  /** Stop: the timers in the map are stopped, and the map is emptied. */
  function AfterStop(b: Board): Board {
    b.(timers := seq(|b.timers|, id requires 0 <= id < |b.timers| => TimerAfterStop(b, id, {})), pending := map[])
  }

  predicate StoppedSoFar(b: Board, timers: seq<Timer>, left: set<Path>) {
    |timers| == |b.timers| && forall id | 0 <= id < |timers| :: timers[id] == TimerAfterStop(b, id, left)
  }

  lemma StopOne(b: Board, timers: seq<Timer>, path: Path, left: set<Path>)
    requires TableFits(b) && path in b.pending && path in left && StoppedSoFar(b, timers, left)
    ensures StoppedSoFar(b, StopTimer(timers, b.pending[path]), left - {path})
  {}

  /** After Stop no timer can fire exactly when every armed timer was still in the map; it forgets all, and cuts no handling off. */
  lemma StopIsCompleteIff(b: Board)
    ensures AfterStop(b).pending == map[] && AfterStop(b).starts == b.starts && |AfterStop(b).timers| == |b.timers|
    ensures forall id | 0 <= id < |b.timers| && b.timers[id].phase != Armed :: AfterStop(b).timers[id] == b.timers[id]
    ensures (forall id | 0 <= id < |b.timers| :: AfterStop(b).timers[id].phase != Armed) <==>
      forall id | 0 <= id < |b.timers| && b.timers[id].phase == Armed :: InTable(b, id)
  {
    var c := AfterStop(b);
    forall id | 0 <= id < |b.timers| && b.timers[id].phase == Armed && !InTable(b, id)
      ensures c.timers[id].phase == Armed
    { }
    if forall id | 0 <= id < |b.timers| :: c.timers[id].phase != Armed {
      forall id | 0 <= id < |b.timers| && b.timers[id].phase == Armed ensures InTable(b, id) {
        assert c.timers[id].phase != Armed;
      }
    }
  }

  /** It can fail: an event during processChange arms a timer that the cleanup of the old one drops from the map. */
  lemma StopCanMissATimer(p: Path)
    ensures Legal(EMPTY, [Event(p), Fire(0), Event(p), Cleanup(0)])
    ensures AfterStop(Run(EMPTY, [Event(p), Fire(0), Event(p), Cleanup(0)])).timers == [Timer(p, Finished), Timer(p, Armed)]
  {
    var ms := [Event(p), Fire(0), Event(p), Cleanup(0)];
    var b1 := Next(EMPTY, Event(p));
    assert b1.timers == [Timer(p, Armed)] && b1.pending == map[p := 0];
    var b2 := Next(b1, Fire(0));
    assert b2.timers == [Timer(p, Running)] && b2.pending == map[p := 0];
    var b3 := Next(b2, Event(p));
    assert b3.timers == [Timer(p, Running), Timer(p, Armed)];
    var b4 := Next(b3, Cleanup(0));
    assert b4.timers == [Timer(p, Finished), Timer(p, Armed)] && p !in b4.pending;
    Unfold(b3, [Cleanup(0)], b4, []);
    Unfold(b2, [Event(p), Cleanup(0)], b3, [Cleanup(0)]);
    Unfold(b1, [Fire(0), Event(p), Cleanup(0)], b2, [Event(p), Cleanup(0)]);
    Unfold(EMPTY, ms, b1, [Fire(0), Event(p), Cleanup(0)]);
  }

  lemma Unfold(b: Board, ms: seq<Move>, c: Board, rest: seq<Move>)
    requires ms != [] && ms[1..] == rest && Allowed(b, ms[0]) && Next(b, ms[0]) == c && Legal(c, rest)
    ensures Legal(b, ms) && Run(b, ms) == Run(c, rest)
  {}

  // -------- the object --------

  /**
    The timer that the map knew for the path is armed no longer, every other one is as it was, and the map knows a new
    one that is armed.
   */
  predicate Rearmed(b: Board, c: Board, p: Path) {
    && |c.timers| == |b.timers| + 1 && c.timers[|b.timers|] == Timer(p, Armed)
    && c.pending == b.pending[p := |b.timers|]
    && (forall id | 0 <= id < |b.timers| && !(InTable(b, id) && b.timers[id].path == p) :: c.timers[id] == b.timers[id])
    && (p in b.pending && b.pending[p] < |b.timers| ==> c.timers[b.pending[p]].phase != Armed)
  }

  lemma EventRearms(b: Board, p: Path)
    requires TableFits(b)
    ensures Rearmed(b, Next(b, Event(p)), p)
  {}

  class Debouncer {
    var timers: seq<Timer>
    var pendingEvents: map<Path, nat>
    ghost var dirty: set<Path>
    ghost var events: multiset<Path>
    ghost var starts: multiset<Path>

    ghost function Value(): Board
      reads this
    {
      Board(timers, pendingEvents, dirty, events, starts)
    }

    ghost predicate Valid()
      reads this
    {
      Inv(Value())
    }

    constructor ()
      ensures Valid() && Value() == EMPTY
    {
      timers, pendingEvents, dirty, events, starts := [], map[], {}, multiset{}, multiset{};
    }

    /** The timer that was known for the path is armed no longer; a new one is, and the map knows it. */
    method DebounceEvent(localPath: Path)
      requires Valid()
      modifies this
      ensures Valid() && Value() == Next(old(Value()), Event(localPath))
      ensures Rearmed(old(Value()), Value(), localPath)
      ensures HasArmed(Value(), localPath) && dirty == old(dirty) + {localPath}
      ensures forall q | q != localPath :: HasArmed(Value(), q) <==> old(HasArmed(Value(), q))
    {
      EventKeepsInv(Value(), localPath);
      EventArms(Value(), localPath);
      EventRearms(Value(), localPath);
      if localPath in pendingEvents {
        timers := StopTimer(timers, pendingEvents[localPath]);
      }
      pendingEvents := pendingEvents[localPath := |timers|];
      timers := timers + [Timer(localPath, Armed)];
      dirty := dirty + {localPath};
      events := events + multiset{localPath};
    }

    /** The handling of the path starts, and never more often than there were events. */
    method TimerFires(id: nat)
      requires Valid() && Allowed(Value(), Fire(id))
      modifies this
      ensures Valid() && Value() == Next(old(Value()), Fire(id))
      ensures starts == old(starts) + multiset{timers[id].path}
      ensures forall p :: starts[p] <= events[p]
    {
      TimerKeepsInv(Value(), Fire(id));
      var path := timers[id].path;
      timers := timers[id := Timer(path, Running)];
      dirty := dirty - {path};
      starts := starts + multiset{path};
    }

    /** The entry of the path goes, be it a newer timer's; a timer that an event needs stays armed. */
    method CleanUpTimer(id: nat)
      requires Valid() && Allowed(Value(), Cleanup(id))
      modifies this
      ensures Valid() && Value() == Next(old(Value()), Cleanup(id))
      ensures dirty == old(dirty) && forall p | p in dirty :: HasArmed(Value(), p)
    {
      TimerKeepsInv(Value(), Cleanup(id));
      var path := timers[id].path;
      timers := timers[id := Timer(path, Finished)];
      pendingEvents := pendingEvents - {path};
    }

    /** Stop: every timer that the map still knows is stopped. */
    method Stop()
      requires Valid()
      modifies this
      ensures Value() == AfterStop(old(Value()))
    {
      ghost var was := Value();
      var left := pendingEvents.Keys;
      while left != {}
        invariant left <= pendingEvents.Keys && Value() == was.(timers := timers) && StoppedSoFar(was, timers, left)
        decreases left
      {
        var path :| path in left;
        StopOne(was, timers, path, left);
        timers := StopTimer(timers, pendingEvents[path]);
        left := left - {path};
      }
      pendingEvents := map[];
    }
  }
}

/**
  How far the results of Bridge.dfy reach: one path more than the cache holds and echoes never end; one path with a
  leading underscore and a quiet group need not agree.
 */
module BridgeLimits {
  import opened Types
  import opened SyncPeers
  import opened Echo
  import opened Bridge
  import Convergence
  import Overlap
  import LruCache
  import Paths

  predicate NoUser(acts: seq<NetAction>) {
    forall a | a in acts :: !a.User?
  }

  /** acts lead from b to e without user actions, and open events of the given paths only. */
  predicate LeadsTo(b: Bridge, acts: seq<NetAction>, e: Bridge, paths: seq<Path>) {
    BridgeLegal(b, acts) && BridgeRun(b, acts) == e && NoUser(acts) && AllWithin(acts, paths)
  }

  lemma {:induction false} LeadsOn(b: Bridge, acts: seq<NetAction>, e: Bridge, more: seq<NetAction>, f: Bridge, paths: seq<Path>)
    requires LeadsTo(b, acts, e, paths) && LeadsTo(e, more, f, paths)
    ensures LeadsTo(b, acts + more, f, paths)
    decreases |acts|
  {
    if acts == [] {
      assert acts + more == more;
    } else {
      assert (acts + more)[0] == acts[0] && (acts + more)[1..] == acts[1..] + more;
      assert LeadsTo(BridgeStep(b, acts[0]), acts[1..], e, paths);
      LeadsOn(BridgeStep(b, acts[0]), acts[1..], e, more, f, paths);
    }
  }

  // -------- a cache that is one entry too small --------

  /** n paths in a circle: how far back from the k-th the path lies that was used j uses ago. */
  function Back(n: nat, k: nat, j: nat): nat
    requires k <= n && j < n
  {
    if j < k then k - 1 - j else k - 1 - j + n
  }

  /** The cache after the paths before the k-th have been used in order, in round after round. */
  function Ring(ps: seq<Path>, c: Bytes, k: nat, len: nat): Recent
    requires k <= |ps| && len < |ps|
  {
    seq(len, j requires 0 <= j < len => LruCache.Entry(ps[Back(|ps|, k, j)], c))
  }

  function Shorter(a: nat, b: nat): nat {
    if a <= b then a else b
  }

  lemma RingMisses(ps: seq<Path>, c: Bytes, k: nat, len: nat)
    requires Distinct(ps) && k < |ps| && len < |ps|
    ensures ps[k] !in LruCache.Contents(Ring(ps, c, k, len))
    ensures LruCache.DistinctKeys(Ring(ps, c, k, len))
  {
    LruCache.ContentsKeys(Ring(ps, c, k, len));
    forall j | 0 <= j < len ensures ps[Back(|ps|, k, j)] != ps[k] {
      assert Back(|ps|, k, j) != k;
    }
    forall i, j | 0 <= i < j < len ensures ps[Back(|ps|, k, i)] != ps[Back(|ps|, k, j)] {
      assert Back(|ps|, k, i) != Back(|ps|, k, j);
    }
  }

  /** Every use of the next path in the circle is a miss, and pushes out the path that comes after it. */
  lemma RingTurns(ps: seq<Path>, c: Bytes, k: nat, len: nat)
    requires Distinct(ps) && k < |ps| && len < |ps|
    ensures var ring := Ring(ps, c, k, len);
      && Lookup(LruCache.Contents(ring), ps[k]) == None
      && LruCache.Used(ring, ps[k]) == ring
      && LruCache.Added(ring, |ps| - 1, ps[k], c) == Ring(ps, c, k + 1, Shorter(len + 1, |ps| - 1))
  {
    var ring := Ring(ps, c, k, len);
    RingMisses(ps, c, k, len);
    LruCache.NothingToDrop(ring, ps[k]);
    RingGrows(ps, c, k, len);
  }

  lemma RingGrows(ps: seq<Path>, c: Bytes, k: nat, len: nat)
    requires k < |ps| && len < |ps|
    ensures var front := [LruCache.Entry(ps[k], c)] + Ring(ps, c, k, len);
      Ring(ps, c, k + 1, Shorter(len + 1, |ps| - 1)) == if |front| <= |ps| - 1 then front else front[..|ps| - 1]
  {
    var ring, next := Ring(ps, c, k, len), Ring(ps, c, k + 1, Shorter(len + 1, |ps| - 1));
    forall j | 0 < j < |next| ensures next[j] == ring[j - 1] {
      assert Back(|ps|, k, j - 1) == Back(|ps|, k + 1, j);
    }
  }

  lemma RingCloses(ps: seq<Path>, c: Bytes, len: nat)
    requires len < |ps|
    ensures Ring(ps, c, |ps|, len) == Ring(ps, c, 0, len)
  {}

  function Copies(ps: seq<Path>, c: Bytes): map<Path, Bytes> {
    map p | p in ps :: c
  }

  function AsSet(ps: seq<Path>): set<Path> {
    set p | p in ps
  }

  /** The peer that has still to send the paths from the k-th on. */
  function Sender(name: string, ps: seq<Path>, c: Bytes, k: nat, len: nat): Node
    requires k <= |ps| && len < |ps|
  {
    Node(name, "g", Copies(ps, c), Ring(ps, c, k, len), AsSet(ps[k..]))
  }

  /** The peer that has received the paths before the k-th, and had the first filled ones. */
  function Receiver(name: string, ps: seq<Path>, c: Bytes, k: nat, len: nat, filled: nat): Node
    requires k <= |ps| && len < |ps| && filled <= |ps|
  {
    Node(name, "g", Copies(ps[..filled], c), Ring(ps, c, k, len), AsSet(ps[..k]))
  }

  /** Two peers in the middle of a burst; turn says which one sends. */
  function BurstNodes(ps: seq<Path>, c: Bytes, turn: nat, k: nat, len: nat, filled: nat): (nodes: seq<Node>)
    requires k <= |ps| && len < |ps| && filled <= |ps|
    ensures |nodes| == 2 && nodes[0].name != nodes[1].name && nodes[0].group == nodes[1].group
  {
    if turn == 0 then [Sender("a", ps, c, k, len), Receiver("b", ps, c, k, len, filled)]
    else [Receiver("a", ps, c, k, len, filled), Sender("b", ps, c, k, len)]
  }

  /** The cache has room for all paths but one. */
  function Burst(ps: seq<Path>, c: Bytes, turn: nat, k: nat, len: nat, filled: nat): Bridge
    requires k <= |ps| && len < |ps| && filled <= |ps|
  {
    Bridge(|ps| - 1, BurstNodes(ps, c, turn, k, len, filled), [])
  }

  lemma SenderSends(name: string, ps: seq<Path>, c: Bytes, k: nat, len: nat)
    requires Distinct(ps) && k < |ps| && len < |ps|
    ensures var v := Sender(name, ps, c, k, len);
      && v.View().Payload(ps[k]) == FileData(c, false)
      && TakenAs(v, |ps| - 1, ps[k], ps[k]) == (Sender(name, ps, c, k + 1, Shorter(len + 1, |ps| - 1)), true)
  {
    RingTurns(ps, c, k, len);
    assert ps[k] in ps && ps[k..] == [ps[k]] + ps[k + 1..];
    assert ps[k] !in ps[k + 1..] by {
      forall i | k + 1 <= i < |ps| ensures ps[i] != ps[k] { }
    }
    assert AsSet(ps[k..]) - {ps[k]} == AsSet(ps[k + 1..]);
  }

  lemma ReceiverTakes(name: string, ps: seq<Path>, c: Bytes, k: nat, len: nat, filled: nat)
    requires Distinct(ps) && k < |ps| && len < |ps| && k <= filled <= |ps|
    ensures ReceiveAt(Receiver(name, ps, c, k, len, filled), |ps| - 1, ps[k], ps[k], FileData(c, false), true).node ==
      Receiver(name, ps, c, k + 1, Shorter(len + 1, |ps| - 1), if filled == k then k + 1 else filled)
  {
    RingTurns(ps, c, k, len);
    assert ps[..k + 1] == ps[..k] + [ps[k]];
    assert AsSet(ps[..k]) + {ps[k]} == AsSet(ps[..k + 1]);
    if filled == k {
      assert Copies(ps[..k], c)[ps[k] := c] == Copies(ps[..k + 1], c);
    } else {
      assert ps[..filled][k] == ps[k] && ps[k] in ps[..filled];
      assert Copies(ps[..filled], c)[ps[k] := c] == Copies(ps[..filled], c);
    }
  }

  lemma OneParcel(s: System, turn: nat, path: Path, fd: FileData)
    requires |s| == 2 && turn < 2 && s[0].name != s[1].name && s[0].group == s[1].group
    ensures Parcels(s, turn, path, fd, 0) == [Parcel(1 - turn, path, fd)]
  {
    assert Parcels(s, turn, path, fd, 2) == [];
    assert Parcels(s, turn, path, fd, 1) == if turn == 0 then [Parcel(1, path, fd)] else [];
  }

  /** Between two peers, an event that is sent posts one parcel. */
  lemma TwoNodesOpen(size: nat, nodes: seq<Node>, turn: nat, path: Path, fd: FileData, after: Node)
    requires |nodes| == 2 && turn < 2 && nodes[0].name != nodes[1].name && nodes[0].group == nodes[1].group
    requires path in nodes[turn].pending && nodes[turn].View().Payload(path) == fd
    requires Taken(nodes[turn], size, path) == (after, true)
    ensures var b := Bridge(size, nodes, []);
      && BridgeEnabled(b, Open(turn, path))
      && BridgeStep(b, Open(turn, path)) == Bridge(size, nodes[turn := after], [Parcel(1 - turn, WireOf(path), fd)])
  {
    OneParcel(Views(nodes), turn, WireOf(path), fd);
    assert [] + [Parcel(1 - turn, WireOf(path), fd)] == [Parcel(1 - turn, WireOf(path), fd)];
  }

  lemma TwoNodesArrive(size: nat, nodes: seq<Node>, x: Parcel, after: Node)
    requires |nodes| == 2 && x.target < 2
    requires ReceiveNode(nodes[x.target], size, x.path, x.fd, true).node == after
    ensures var b := Bridge(size, nodes, [x]);
      && BridgeEnabled(b, Arrive(0))
      && BridgeStep(b, Arrive(0)) == Bridge(size, nodes[x.target := after], [])
  {
    assert [x][..0] + [x][1..] == [];
  }

  lemma TwoSteps(b: Bridge, a0: NetAction, m: Bridge, a1: NetAction, e: Bridge, paths: seq<Path>)
    requires BridgeEnabled(b, a0) && BridgeStep(b, a0) == m && BridgeEnabled(m, a1) && BridgeStep(m, a1) == e
    requires Within(a0, paths) && Within(a1, paths) && !a0.User? && !a1.User?
    ensures LeadsTo(b, [a0, a1], e, paths)
  {
    assert [a0, a1][1..] == [a1] && [a1][1..] == [];
    assert BridgeLegal(e, []) && BridgeRun(e, []) == e;
    assert BridgeLegal(m, [a1]) && BridgeRun(m, [a1]) == e;
  }

  /** An event of one of two peers on path is new to both of them, and leaves them as in next. */
  predicate Moves(size: nat, nodes: seq<Node>, turn: nat, path: Path, fd: FileData, next: seq<Node>) {
    && |nodes| == |next| == 2 && turn < 2 && nodes[0].name != nodes[1].name && nodes[0].group == nodes[1].group
    && path in nodes[turn].pending && nodes[turn].View().Payload(path) == fd
    && TakenAs(nodes[turn], size, path, path) == (next[turn], true)
    && ReceiveAt(nodes[1 - turn], size, path, path, fd, true).node == next[1 - turn]
  }

  lemma SendOne(size: nat, nodes: seq<Node>, turn: nat, path: Path, fd: FileData, next: seq<Node>, paths: seq<Path>)
    requires Moves(size, nodes, turn, path, fd, next) && path in paths && Paths.Plain(path)
    ensures LeadsTo(Bridge(size, nodes, []), [Open(turn, path), Arrive(0)], Bridge(size, next, []), paths)
  {
    var sent := nodes[turn := next[turn]];
    TwoNodesOpen(size, nodes, turn, path, fd, next[turn]);
    TwoNodesArrive(size, sent, Parcel(1 - turn, path, fd), next[1 - turn]);
    assert sent[1 - turn := next[1 - turn]] == next;
    TwoSteps(Bridge(size, nodes, []), Open(turn, path), Bridge(size, sent, [Parcel(1 - turn, path, fd)]),
             Arrive(0), Bridge(size, next, []), paths);
  }

  /** How the burst goes on: the caches grow to their size, and the receiver to all files. */
  predicate GoesOn(n: nat, k: nat, len: nat, filled: nat, len': nat, filled': nat) {
    && k < n && len < n && k <= filled <= n
    && len' == Shorter(len + 1, n - 1) && filled' == if filled == k then k + 1 else filled
  }

  /** The next event is sent and arrives, whatever the caches have seen: neither of them knows the path any more. */
  lemma BurstStep(ps: seq<Path>, c: Bytes, turn: nat, k: nat, len: nat, filled: nat, len': nat, filled': nat)
    requires Distinct(ps) && AllPlain(ps) && turn < 2 && GoesOn(|ps|, k, len, filled, len', filled')
    ensures LeadsTo(Bridge(|ps| - 1, BurstNodes(ps, c, turn, k, len, filled), []), [Open(turn, ps[k]), Arrive(0)],
                    Bridge(|ps| - 1, BurstNodes(ps, c, turn, k + 1, len', filled'), []), ps)
  {
    BurstMoves(ps, c, turn, k, len, filled, len', filled');
    SendNext(ps, k, BurstNodes(ps, c, turn, k, len, filled), turn, FileData(c, false),
             BurstNodes(ps, c, turn, k + 1, len', filled'));
  }

  lemma SendNext(ps: seq<Path>, k: nat, nodes: seq<Node>, turn: nat, fd: FileData, next: seq<Node>)
    requires AllPlain(ps) && k < |ps| && Moves(|ps| - 1, nodes, turn, ps[k], fd, next)
    ensures LeadsTo(Bridge(|ps| - 1, nodes, []), [Open(turn, ps[k]), Arrive(0)], Bridge(|ps| - 1, next, []), ps)
  {
    PlainAt(ps, k);
    SendOne(|ps| - 1, nodes, turn, ps[k], fd, next, ps);
  }

  lemma BurstMoves(ps: seq<Path>, c: Bytes, turn: nat, k: nat, len: nat, filled: nat, len': nat, filled': nat)
    requires Distinct(ps) && turn < 2 && GoesOn(|ps|, k, len, filled, len', filled')
    ensures Moves(|ps| - 1, BurstNodes(ps, c, turn, k, len, filled), turn, ps[k], FileData(c, false),
                  BurstNodes(ps, c, turn, k + 1, len', filled'))
  {
    BurstSender(ps, c, turn, k, len, filled, len', filled');
    BurstReceiver(ps, c, turn, k, len, filled, len', filled');
  }

  lemma PlainAt(ps: seq<Path>, k: nat)
    requires AllPlain(ps) && k < |ps|
    ensures ps[k] in ps && Paths.Plain(ps[k])
  {}

  lemma BurstSender(ps: seq<Path>, c: Bytes, turn: nat, k: nat, len: nat, filled: nat, len': nat, filled': nat)
    requires Distinct(ps) && turn < 2 && GoesOn(|ps|, k, len, filled, len', filled')
    ensures var v := BurstNodes(ps, c, turn, k, len, filled)[turn];
      var w := BurstNodes(ps, c, turn, k + 1, len', filled')[turn];
      && ps[k] in v.pending && v.View().Payload(ps[k]) == FileData(c, false)
      && TakenAs(v, |ps| - 1, ps[k], ps[k]) == (w, true)
  {
    assert ps[k..][0] == ps[k];
    SenderSends(if turn == 0 then "a" else "b", ps, c, k, len);
  }

  lemma BurstReceiver(ps: seq<Path>, c: Bytes, turn: nat, k: nat, len: nat, filled: nat, len': nat, filled': nat)
    requires Distinct(ps) && turn < 2 && GoesOn(|ps|, k, len, filled, len', filled')
    ensures var v := BurstNodes(ps, c, turn, k, len, filled)[1 - turn];
      var w := BurstNodes(ps, c, turn, k + 1, len', filled')[1 - turn];
      ReceiveAt(v, |ps| - 1, ps[k], ps[k], FileData(c, false), true).node == w
  {
    ReceiverTakes(if turn == 0 then "b" else "a", ps, c, k, len, filled);
  }

  /** When one peer has sent all paths, the other one has them all to send. */
  lemma BurstTurns(ps: seq<Path>, c: Bytes, turn: nat, other: nat, len: nat)
    requires len < |ps| && turn < 2 && other == 1 - turn
    ensures Burst(ps, c, turn, |ps|, len, |ps|) == Burst(ps, c, other, 0, len, |ps|)
  {
    RingCloses(ps, c, len);
    assert ps[..|ps|] == ps && ps[0..] == ps && ps[|ps|..] == [] && ps[..0] == [];
  }

  /** One peer sends the rest of its paths. */
  lemma {:induction false} Sweep(ps: seq<Path>, c: Bytes, turn: nat, other: nat, k: nat, len: nat, filled: nat)
      returns (acts: seq<NetAction>)
    requires Distinct(ps) && AllPlain(ps) && k <= |ps| && turn < 2 && other == 1 - turn && (filled == k || filled == |ps|)
    requires len == |ps| - 1 || len == k < |ps|
    ensures LeadsTo(Burst(ps, c, turn, k, len, filled), acts, Burst(ps, c, other, 0, |ps| - 1, |ps|), ps)
    ensures |acts| == 2 * (|ps| - k)
    decreases |ps| - k
  {
    if k == |ps| {
      acts := [];
      BurstTurns(ps, c, turn, other, len);
    } else {
      var len', filled' := Shorter(len + 1, |ps| - 1), if filled == k then k + 1 else filled;
      var rest := Sweep(ps, c, turn, other, k + 1, len', filled');
      acts := [Open(turn, ps[k]), Arrive(0)] + rest;
      StepThenRest(ps, c, turn, k, len, filled, len', filled', rest, Burst(ps, c, other, 0, |ps| - 1, |ps|));
    }
  }

  lemma StepThenRest(ps: seq<Path>, c: Bytes, turn: nat, k: nat, len: nat, filled: nat, len': nat, filled': nat,
                     rest: seq<NetAction>, e: Bridge)
    requires Distinct(ps) && AllPlain(ps) && turn < 2 && GoesOn(|ps|, k, len, filled, len', filled')
    requires LeadsTo(Burst(ps, c, turn, k + 1, len', filled'), rest, e, ps)
    ensures LeadsTo(Burst(ps, c, turn, k, len, filled), [Open(turn, ps[k]), Arrive(0)] + rest, e, ps)
  {
    BurstStep(ps, c, turn, k, len, filled, len', filled');
    LeadsOn(Burst(ps, c, turn, k, len, filled), [Open(turn, ps[k]), Arrive(0)],
            Burst(ps, c, turn, k + 1, len', filled'), rest, e, ps);
  }

  lemma There(ps: seq<Path>, c: Bytes, len: nat, filled: nat) returns (acts: seq<NetAction>)
    requires Distinct(ps) && AllPlain(ps) && ps != [] && (filled == 0 || filled == |ps|) && (len == 0 || len == |ps| - 1)
    ensures LeadsTo(Burst(ps, c, 0, 0, len, filled), acts, Burst(ps, c, 1, 0, |ps| - 1, |ps|), ps)
    ensures |acts| == 2 * |ps|
  {
    acts := Sweep(ps, c, 0, 1, 0, len, filled);
  }

  lemma BackAgain(ps: seq<Path>, c: Bytes) returns (acts: seq<NetAction>)
    requires Distinct(ps) && AllPlain(ps) && ps != []
    ensures LeadsTo(Burst(ps, c, 1, 0, |ps| - 1, |ps|), acts, Burst(ps, c, 0, 0, |ps| - 1, |ps|), ps)
    ensures |acts| == 2 * |ps|
  {
    acts := Sweep(ps, c, 1, 0, 0, |ps| - 1, |ps|);
  }

  /** Both peers send all their paths, one after the other. */
  lemma ThereAndBack(ps: seq<Path>, c: Bytes, len: nat, filled: nat) returns (acts: seq<NetAction>)
    requires Distinct(ps) && AllPlain(ps) && ps != [] && (filled == 0 || filled == |ps|) && (len == 0 || len == |ps| - 1)
    ensures LeadsTo(Burst(ps, c, 0, 0, len, filled), acts, Burst(ps, c, 0, 0, |ps| - 1, |ps|), ps)
    ensures |acts| == 4 * |ps|
  {
    var there := There(ps, c, len, filled);
    var back := BackAgain(ps, c);
    LeadsOn(Burst(ps, c, 0, 0, len, filled), there, Burst(ps, c, 1, 0, |ps| - 1, |ps|), back,
            Burst(ps, c, 0, 0, |ps| - 1, |ps|), ps);
    acts := there + back;
  }

  /**
    A cache of any size and one path more than fits: both peers hold the same files, no user does anything, and the
    bridge comes back to where it was.
   */
  lemma OnePathTooManyCycles(ps: seq<Path>, c: Bytes) returns (acts: seq<NetAction>)
    requires Distinct(ps) && AllPlain(ps) && ps != []
    ensures LeadsTo(Burst(ps, c, 0, 0, |ps| - 1, |ps|), acts, Burst(ps, c, 0, 0, |ps| - 1, |ps|), ps)
    ensures |acts| == 4 * |ps|
  {
    acts := ThereAndBack(ps, c, |ps| - 1, |ps|);
  }

  lemma {:induction false} CycleOn(ps: seq<Path>, c: Bytes, rounds: nat) returns (acts: seq<NetAction>)
    requires Distinct(ps) && AllPlain(ps) && ps != []
    ensures LeadsTo(Burst(ps, c, 0, 0, |ps| - 1, |ps|), acts, Burst(ps, c, 0, 0, |ps| - 1, |ps|), ps)
    ensures |acts| >= rounds
  {
    if rounds == 0 {
      acts := [];
    } else {
      var first := OnePathTooManyCycles(ps, c);
      var rest := CycleOn(ps, c, rounds - 1);
      LeadsOn(Burst(ps, c, 0, 0, |ps| - 1, |ps|), first, Burst(ps, c, 0, 0, |ps| - 1, |ps|), rest, Burst(ps, c, 0, 0, |ps| - 1, |ps|), ps);
      acts := first + rest;
    }
  }

  lemma BurstBegins(ps: seq<Path>, c: Bytes)
    requires ps != []
    ensures Burst(ps, c, 0, 0, 0, 0) ==
      Bridge(|ps| - 1, [Node("a", "g", Copies(ps, c), [], AsSet(ps)), Node("b", "g", map[], [], {})], [])
  {
    assert ps[0..] == ps && ps[..0] == [] && Ring(ps, c, 0, 0) == [];
    assert Copies([], c) == map[] && AsSet([]) == {};
  }

  /** It starts with nothing special: one peer has new files, the other is empty, and no cache holds anything. */
  lemma NewFilesEchoForever(ps: seq<Path>, c: Bytes, steps: nat) returns (acts: seq<NetAction>)
    requires Distinct(ps) && AllPlain(ps) && ps != []
    ensures var b := Bridge(|ps| - 1, [Node("a", "g", Copies(ps, c), [], AsSet(ps)), Node("b", "g", map[], [], {})], []);
      BridgeLegal(b, acts) && NoUser(acts) && |acts| >= steps
  {
    BurstBegins(ps, c);
    var first := ThereAndBack(ps, c, 0, 0);
    var rest := CycleOn(ps, c, steps);
    LeadsOn(Burst(ps, c, 0, 0, 0, 0), first, Burst(ps, c, 0, 0, |ps| - 1, |ps|), rest, Burst(ps, c, 0, 0, |ps| - 1, |ps|), ps);
    acts := first + rest;
  }

  predicate EndsWithin(b: Bridge, acts: seq<NetAction>, paths: seq<Path>, m: nat) {
    BridgeLegal(b, acts) && NoUser(acts) && AllWithin(acts, paths) ==> |acts| <= m
  }

  ghost predicate AlwaysEndsWithin(b: Bridge, paths: seq<Path>, m: nat) {
    forall acts: seq<NetAction> :: EndsWithin(b, acts, paths, m)
  }

  /** A state of a bridge over the given paths. */
  predicate StateOver(b: Bridge, size: nat, paths: seq<Path>) {
    && b.size == size && b.nodes != []
    && (forall i | 0 <= i < |b.nodes| :: RecentFits(b.nodes[i].recent, size, paths))
    && forall x | x in b.flight :: x.path in paths && x.target < |b.nodes|
  }

  /** Without user actions the echoes die out, from every state. */
  ghost predicate EchoesDieOut(size: nat, paths: seq<Path>) {
    forall b: Bridge :: StateOver(b, size, paths) ==> exists m: nat :: AlwaysEndsWithin(b, paths, m)
  }

  lemma {:induction false} AllBridgeSteps(acts: seq<NetAction>)
    requires NoUser(acts)
    ensures BridgeSteps(acts) == |acts| && Writes(acts) == 0
  {
    if acts != [] {
      assert acts[0] in acts && forall a | a in acts[1..] :: a in acts;
      AllBridgeSteps(acts[1..]);
    }
  }

  lemma EnoughRoomEnds(b: Bridge, size: nat, paths: seq<Path>)
    requires AllPlain(paths) && Distinct(paths) && |paths| <= size && StateOver(b, size, paths)
    ensures AlwaysEndsWithin(b, paths, Potential(b.Whole(), paths))
  {
    var m := Potential(b.Whole(), paths);
    forall acts: seq<NetAction> ensures EndsWithin(b, acts, paths, m) {
      if BridgeLegal(b, acts) && NoUser(acts) && AllWithin(acts, paths) {
        AllBridgeSteps(acts);
        BridgeEchoBound(b, acts, paths, |b.nodes| - 1);
        assert WriteCost(|b.nodes| - 1) * 0 == 0;
      }
    }
  }

  lemma {:induction false} WithinMore(acts: seq<NetAction>, ps: seq<Path>, paths: seq<Path>)
    requires AllWithin(acts, ps) && forall p | p in ps :: p in paths
    ensures AllWithin(acts, paths)
  {
    forall a | a in acts ensures Within(a, paths) {
      assert Within(a, ps);
    }
  }

  lemma NoBoundForBurst(ps: seq<Path>, c: Bytes, paths: seq<Path>, m: nat)
    requires AllPlain(ps) && Distinct(ps) && ps != [] && forall p | p in ps :: p in paths
    ensures !AlwaysEndsWithin(Burst(ps, c, 0, 0, |ps| - 1, |ps|), paths, m)
  {
    var acts := CycleOn(ps, c, m + 1);
    WithinMore(acts, ps, paths);
    assert !EndsWithin(Burst(ps, c, 0, 0, |ps| - 1, |ps|), acts, paths, m);
  }

  lemma BurstIsState(ps: seq<Path>, c: Bytes, paths: seq<Path>)
    requires Distinct(ps) && ps != [] && forall p | p in ps :: p in paths
    ensures StateOver(Burst(ps, c, 0, 0, |ps| - 1, |ps|), |ps| - 1, paths)
  {
    RingMisses(ps, c, 0, |ps| - 1);
  }

  lemma TooManyGoOn(size: nat, paths: seq<Path>)
    requires AllPlain(paths) && Distinct(paths) && |paths| > size
    ensures !EchoesDieOut(size, paths)
  {
    var ps, c := paths[..size + 1], [65];
    assert forall p | p in ps :: p in paths;
    var b := Burst(ps, c, 0, 0, |ps| - 1, |ps|);
    BurstIsState(ps, c, paths);
    forall m: nat ensures !AlwaysEndsWithin(b, paths, m) {
      NoBoundForBurst(ps, c, paths, m);
    }
  }

  /** Echoes die out from every state exactly when the paths fit into the cache. */
  lemma EchoesDieOutIff(size: nat, paths: seq<Path>)
    requires AllPlain(paths) && Distinct(paths)
    ensures EchoesDieOut(size, paths) <==> |paths| <= size
  {
    if |paths| <= size {
      forall b: Bridge | StateOver(b, size, paths) ensures exists m: nat :: AlwaysEndsWithin(b, paths, m) {
        EnoughRoomEnds(b, size, paths);
      }
    } else {
      TooManyGoOn(size, paths);
    }
  }

  // -------- paths with a leading underscore --------

  function EmptyPair(size: nat): Bridge {
    Bridge(size, [Node("a", "g", map[], [], {}), Node("b", "g", map[], [], {})], [])
  }

  function WriteAndSend(path: Path, c: Bytes): seq<NetAction> {
    [User(UserWrite(0, path, c)), Open(0, path), Arrive(0)]
  }

  lemma FirstEntry(size: nat, key: Path, hash: Hash)
    requires size > 0
    ensures var e := LruCache.Entry(key, hash);
      && LruCache.Used([], key) == [] && LruCache.Added([], size, key, hash) == [e]
      && LruCache.Contents([]) == map[] && LruCache.Contents([e]) == map[key := hash]
  {
    assert [LruCache.Entry(key, hash)][1..] == [];
  }

  /** The new file is sent under the converted path, and arrives where that points. */
  lemma WriteSendArrive(size: nat, path: Path, c: Bytes)
    requires size > 0
    ensures var b, acts, wire := EmptyPair(size), WriteAndSend(path, c), WireOf(path);
      && BridgeLegal(b, acts) && BridgeOrderly(b, acts, "g", path)
      && BridgeRun(b, acts) ==
         Bridge(size, [FreshSender(path, Paths.KeyOf(path), c), FreshReceiver(wire, Paths.SpotOf(wire), c)], [])
      && BridgeOnTrack(b, acts, "g", path, true)
  {
    var b, acts, wire, fd := EmptyPair(size), WriteAndSend(path, c), WireOf(path), FileData(c, false);
    var b1 := b.(nodes := [Node("a", "g", map[path := c], [], {path}), b.nodes[1]]);
    var b2 := Bridge(size, [FreshSender(path, Paths.KeyOf(path), c), b.nodes[1]], [Parcel(1, wire, fd)]);
    var e := Bridge(size, [FreshSender(path, Paths.KeyOf(path), c), FreshReceiver(wire, Paths.SpotOf(wire), c)], []);
    FreshWrite(size, path, c);
    FreshOpen(size, path, c);
    FreshArrive(size, b2.nodes[0], wire, c);
    ThreeSteps(b, acts, b1, b2, e, path);
  }

  function FreshSender(path: Path, key: Path, c: Bytes): Node {
    Node("a", "g", map[path := c], [LruCache.Entry(key, c)], {})
  }

  function FreshReceiver(key: Path, spot: Path, c: Bytes): Node {
    Node("b", "g", map[spot := c], [LruCache.Entry(key, c)], {spot})
  }

  lemma FreshOpen(size: nat, path: Path, c: Bytes)
    requires size > 0
    ensures var b1 := Bridge(size, [Node("a", "g", map[path := c], [], {path}), EmptyPair(size).nodes[1]], []);
      && BridgeEnabled(b1, Open(0, path))
      && BridgeStep(b1, Open(0, path)) ==
         Bridge(size, [FreshSender(path, Paths.KeyOf(path), c), EmptyPair(size).nodes[1]],
                [Parcel(1, WireOf(path), FileData(c, false))])
  {
    var nodes := [Node("a", "g", map[path := c], [], {path}), EmptyPair(size).nodes[1]];
    FreshTaken(size, path, Paths.KeyOf(path), c);
    TwoNodesOpen(size, nodes, 0, path, FileData(c, false), FreshSender(path, Paths.KeyOf(path), c));
  }

  lemma FreshArrive(size: nat, other: Node, key: Path, c: Bytes)
    requires size > 0
    ensures var x := Parcel(1, key, FileData(c, false));
      var b2 := Bridge(size, [other, EmptyPair(size).nodes[1]], [x]);
      && BridgeEnabled(b2, Arrive(0))
      && BridgeStep(b2, Arrive(0)) == Bridge(size, [other, FreshReceiver(key, Paths.SpotOf(key), c)], [])
  {
    FreshReceived(size, key, Paths.SpotOf(key), c);
    TwoNodesArrive(size, [other, EmptyPair(size).nodes[1]], Parcel(1, key, FileData(c, false)),
                   FreshReceiver(key, Paths.SpotOf(key), c));
  }

  lemma FreshWrite(size: nat, path: Path, c: Bytes)
    ensures var b := EmptyPair(size);
      var b1 := b.(nodes := [Node("a", "g", map[path := c], [], {path}), b.nodes[1]]);
      && BridgeEnabled(b, User(UserWrite(0, path, c))) && BridgeStep(b, User(UserWrite(0, path, c))) == b1
      && Convergence.Dispatches(Views(b1.nodes), 0, path)
  {
    var b := EmptyPair(size);
    assert UserOn(b.nodes[0], UserWrite(0, path, c)) == Node("a", "g", map[path := c], [], {path});
    assert LruCache.Contents([]) == map[];
  }

  lemma FreshTaken(size: nat, path: Path, key: Path, c: Bytes)
    requires size > 0
    ensures var v := Node("a", "g", map[path := c], [], {path});
      && v.View().Payload(path) == FileData(c, false)
      && TakenAs(v, size, path, key) == (FreshSender(path, key, c), true)
  {
    FirstEntry(size, key, c);
    assert {path} - {path} == {};
  }

  lemma FreshReceived(size: nat, key: Path, spot: Path, c: Bytes)
    requires size > 0
    ensures ReceiveAt(Node("b", "g", map[], [], {}), size, key, spot, FileData(c, false), true).node ==
      FreshReceiver(key, spot, c)
  {
    FirstEntry(size, key, c);
  }

  lemma ThreeSteps(b: Bridge, acts: seq<NetAction>, b1: Bridge, b2: Bridge, e: Bridge, path: Path)
    requires |acts| == 3 && acts[0].User? && acts[1].Open? && acts[2].Arrive?
    requires BridgeEnabled(b, acts[0]) && BridgeStep(b, acts[0]) == b1
    requires BridgeEnabled(b1, acts[1]) && BridgeStep(b1, acts[1]) == b2 && b1.flight == []
    requires acts[1].path == path && Convergence.Dispatches(Views(b1.nodes), acts[1].peer, path)
    requires BridgeEnabled(b2, acts[2]) && BridgeStep(b2, acts[2]) == e
    ensures BridgeLegal(b, acts) && BridgeRun(b, acts) == e && BridgeOrderly(b, acts, "g", path) && BridgeOnTrack(b, acts, "g", path, true)
  {
    var tail := acts[1..];
    assert tail[0] == acts[1] && tail[1..] == [acts[2]] && [acts[2]][1..] == [];
    assert BridgeLegal(e, []) && BridgeRun(e, []) == e && BridgeOrderly(e, [], "g", path) && BridgeOnTrack(e, [], "g", path, true);
    assert BridgeLegal(b2, [acts[2]]) && BridgeRun(b2, [acts[2]]) == e;
    assert BridgeOrderly(b2, [acts[2]], "g", path) && BridgeOnTrack(b2, [acts[2]], "g", path, true);
    assert BridgeLegal(b1, tail) && BridgeRun(b1, tail) == e;
    assert BridgeOrderly(b1, tail, "g", path) && BridgeOnTrack(b1, tail, "g", path, true);
  }

  ghost predicate Decided(b: Bridge, acts: seq<NetAction>, paths: seq<Path>, group: string, path: Path) {
    BridgeStart(b) && BridgeLegal(b, acts) && BridgeOrderly(b, acts, group, path) && AllWithin(acts, paths) && Overlap.GoodWrites(acts) &&
    Overlap.AtRest(BridgeRun(b, acts).Whole(), group, path) ==>
      (Convergence.Agree(Views(BridgeRun(b, acts).nodes), group, path) <==>
       BridgeOnTrack(b, acts, group, path, Convergence.Aligned(Views(b.nodes), group, path)))
  }

  /** On the given paths, the last event that was sent or swallowed decides whether a group at rest agrees. */
  ghost predicate AllDecided(size: nat, paths: seq<Path>) {
    forall b: Bridge, acts: seq<NetAction>, group: string, path: Path | b.size == size && path in paths ::
      Decided(b, acts, paths, group, path)
  }

  lemma Apart(size: nat, path: Path, key: Path, wire: Path, spot: Path, c: Bytes)
    requires spot != path
    ensures var e := Bridge(size, [FreshSender(path, key, c), FreshReceiver(wire, spot, c)], []);
      Overlap.AtRest(e.Whole(), "g", path) && !Convergence.Agree(Views(e.nodes), "g", path)
  {
    var e := Bridge(size, [FreshSender(path, key, c), FreshReceiver(wire, spot, c)], []);
    assert Views(e.nodes)[0].File(path) == Some(c) && Views(e.nodes)[1].File(path) == None;
  }

  lemma EmptyStart(size: nat, path: Path)
    ensures BridgeStart(EmptyPair(size)) && Convergence.Aligned(Views(EmptyPair(size).nodes), "g", path)
  {}

  lemma SpotMoves(path: Path)
    requires Paths.ProperPath(path) && Paths.KeyOf(path) != path
    ensures Paths.SpotOf(WireOf(path)) != path
  {
    Paths.PlainIff(path);
    Paths.SpotIsNoLonger(WireOf(path));
    assert |Paths.KeyOf(path)| < |path|;
  }

  lemma UnderscoreDiverges(size: nat, paths: seq<Path>, path: Path)
    requires size > 0 && path in paths && Paths.ProperPath(path) && Paths.KeyOf(path) != path
    ensures !AllDecided(size, paths)
  {
    var b, acts := EmptyPair(size), WriteAndSend(path, [65]);
    WriteSendArrive(size, path, [65]);
    SpotMoves(path);
    Apart(size, path, Paths.KeyOf(path), WireOf(path), Paths.SpotOf(WireOf(path)), [65]);
    EmptyStart(size, path);
    assert forall a | a in acts :: Within(a, paths) && Overlap.GoodWrite(a);
    assert !Decided(b, acts, paths, "g", path);
  }

  /** For the paths that a peer reports, the condition is exact: none may begin with an underscore. */
  lemma AllDecidedIff(size: nat, paths: seq<Path>)
    requires 0 < |paths| <= size && forall p | p in paths :: Paths.ProperPath(p)
    ensures AllDecided(size, paths) <==> forall p | p in paths :: Paths.KeyOf(p) == p
  {
    if p :| p in paths && Paths.KeyOf(p) != p {
      UnderscoreDiverges(size, paths, p);
    } else {
      forall p | p in paths ensures Paths.Plain(p) {
        Paths.PlainIff(p);
      }
      forall b: Bridge, acts: seq<NetAction>, group: string, path: Path | b.size == size && path in paths
        ensures Decided(b, acts, paths, group, path)
      {
        if BridgeStart(b) && BridgeLegal(b, acts) && BridgeOrderly(b, acts, group, path) && AllWithin(acts, paths) &&
           Overlap.GoodWrites(acts) && Overlap.AtRest(BridgeRun(b, acts).Whole(), group, path) {
          BridgeDecides(b, acts, paths, group, path);
        }
      }
    }
  }

  lemma PlainName()
    ensures Paths.KeyOf("_n.md") == "n.md" && WireOf("_n.md") == "n.md" && Paths.Plain("n.md")
  {
    var name: Path := "n.md";
    assert Paths.ProperName(name);
    Paths.SplitName(name);
    assert Paths.ProperPath(name);
    Paths.PlainIff(name);
    assert "_n.md"[1..] == name;
  }

  /** The file "_n.md" of one peer becomes "n.md" at the other, and then nothing is left to do. */
  lemma UnderscoreIsLost(size: nat)
    requires size > 0
    ensures var b := EmptyPair(size);
      var acts := WriteAndSend("_n.md", [65]) + [Open(1, "n.md")];
      && BridgeLegal(b, acts)
      && BridgeRun(b, acts) == Bridge(size, [Node("a", "g", map["_n.md" := [65]], [LruCache.Entry("n.md", [65])], {}),
                                             Node("b", "g", map["n.md" := [65]], [LruCache.Entry("n.md", [65])], {})], [])
  {
    var acts := WriteAndSend("_n.md", [65]);
    PlainName();
    WriteSendArrive(size, "_n.md", [65]);
    var e := BridgeRun(EmptyPair(size), acts);
    EventIsRepeat(size, e.nodes[0], "n.md", [65]);
    RunOneMore(EmptyPair(size), acts, Open(1, "n.md"));
  }

  lemma EventIsRepeat(size: nat, other: Node, path: Path, c: Bytes)
    requires size > 0 && Paths.Plain(path)
    ensures var v := Node("b", "g", map[path := c], [LruCache.Entry(path, c)], {path});
      var b := Bridge(size, [other, v], []);
      && BridgeEnabled(b, Open(1, path))
      && BridgeStep(b, Open(1, path)) == Bridge(size, [other, v.(pending := {})], [])
  {
    var entry := LruCache.Entry(path, c);
    FirstEntry(size, path, c);
    assert LruCache.Without([entry], path) == [] && LruCache.Used([entry], path) == [entry];
    var v := Node("b", "g", map[path := c], [entry], {path});
    assert v.pending - {path} == {};
    assert TakenAs(v, size, path, path) == (v.(pending := {}), false);
    var flight: seq<Parcel> := [];
    assert flight + [] == flight && [other, v][1 := v.(pending := {})] == [other, v.(pending := {})];
  }

  lemma {:induction false} RunOneMore(b: Bridge, acts: seq<NetAction>, a: NetAction)
    requires BridgeLegal(b, acts) && BridgeEnabled(BridgeRun(b, acts), a)
    ensures BridgeLegal(b, acts + [a]) && BridgeRun(b, acts + [a]) == BridgeStep(BridgeRun(b, acts), a)
    decreases |acts|
  {
    if acts == [] {
      assert acts + [a] == [a] && [a][1..] == [];
      assert BridgeRun(BridgeStep(b, a), []) == BridgeStep(b, a);
    } else {
      assert (acts + [a])[0] == acts[0] && (acts + [a])[1..] == acts[1..] + [a];
      RunOneMore(BridgeStep(b, acts[0]), acts[1..], a);
    }
  }
}

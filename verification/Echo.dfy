/**
  The protocol with deliveries in flight: handling an event only posts one parcel per target, and parcels arrive
  one at a time in any order, between any other steps. Echoes die out, and a bound says how fast.
 */
module Echo {
  import opened Types
  import opened SyncPeers

  datatype Parcel = Parcel(target: nat, path: Path, fd: FileData)

  datatype Net = Net(peers: System, flight: seq<Parcel>)

  /** A user step, the firing of an open event, or the arrival of the k-th parcel. */
  datatype NetAction = User(act: Action) | Open(peer: nat, path: Path) | Arrive(k: nat)

  /** One parcel for every target among the peers from the k-th on. */
  function Parcels(s: System, i: nat, path: Path, fd: FileData, k: nat): (ps: seq<Parcel>)
    requires i < |s| && k <= |s|
    ensures |ps| <= if i < k then |s| - k else |s| - k - 1
    ensures forall x | x in ps :: x.path == path && x.fd == fd && k <= x.target < |s|
    decreases |s| - k
  {
    if k == |s| then []
    else (if IsTarget(s[k], s[i].name, s[i].group) then [Parcel(k, path, fd)] else []) + Parcels(s, i, path, fd, k + 1)
  }

  function Opened(n: Net, i: nat, path: Path): Net
    requires i < |n.peers|
  {
    var p := n.peers[i];
    var fd := p.Payload(path);
    var taken := p.(pending := p.pending - {path});
    if taken.IsRepeating(path, Some(fd)) then Net(n.peers[i := taken], n.flight)
    else Net(n.peers[i := taken.MarkProcessed(path, Some(fd))],
             n.flight + Parcels(n.peers, i, path, fd, 0))
  }

  predicate NetEnabled(n: Net, a: NetAction) {
    match a
    case User(act) => !act.ProcessChange? && Enabled(n.peers, act)
    case Open(i, path) => i < |n.peers| && path in n.peers[i].pending
    case Arrive(k) => k < |n.flight| && n.flight[k].target < |n.peers|
  }

  function NetStep(n: Net, a: NetAction): Net
    requires NetEnabled(n, a)
  {
    match a
    case User(act) => n.(peers := Step(n.peers, act))
    case Open(i, path) => Opened(n, i, path)
    case Arrive(k) =>
      var x := n.flight[k];
      Net(n.peers[x.target := Receive(n.peers[x.target], x.path, x.fd, true).peer],
          n.flight[..k] + n.flight[k + 1..])
  }

  predicate NetLegal(n: Net, acts: seq<NetAction>)
    decreases |acts|
  {
    acts == [] || (NetEnabled(n, acts[0]) && NetLegal(NetStep(n, acts[0]), acts[1..]))
  }

  function NetRun(n: Net, acts: seq<NetAction>): Net
    requires NetLegal(n, acts)
    decreases |acts|
  {
    if acts == [] then n else NetRun(NetStep(n, acts[0]), acts[1..])
  }

  // -------- sums over all (peer, path) pairs --------

  datatype Cell = Cell(file: Option<Bytes>, cached: Option<Hash>, open: bool)

  function CellOf(p: Peer, path: Path): Cell {
    Cell(p.File(path), p.Cached(path), path in p.pending)
  }

  function SumPaths(p: Peer, paths: seq<Path>, w: (Path, Cell) -> nat): nat {
    if paths == [] then 0 else w(paths[0], CellOf(p, paths[0])) + SumPaths(p, paths[1..], w)
  }

  function Sum(s: System, paths: seq<Path>, w: (Path, Cell) -> nat): nat {
    if s == [] then 0 else SumPaths(s[0], paths, w) + Sum(s[1..], paths, w)
  }

  predicate Distinct(paths: seq<Path>) {
    forall i, j | 0 <= i < j < |paths| :: paths[i] != paths[j]
  }

  ghost predicate SameBut(p: Peer, q: Peer, path: Path) {
    forall x: Path | x != path :: CellOf(q, x) == CellOf(p, x)
  }

  lemma {:induction false} SumPathsUpdate(p: Peer, q: Peer, path: Path, paths: seq<Path>, w: (Path, Cell) -> nat)
    requires Distinct(paths) && SameBut(p, q, path)
    ensures path in paths ==>
      SumPaths(q, paths, w) + w(path, CellOf(p, path)) == SumPaths(p, paths, w) + w(path, CellOf(q, path))
    ensures path !in paths ==> SumPaths(q, paths, w) == SumPaths(p, paths, w)
  {
    if paths != [] {
      assert Distinct(paths[1..]);
      SumPathsUpdate(p, q, path, paths[1..], w);
    }
  }

  lemma {:induction false} SumUpdate(s: System, i: nat, q: Peer, path: Path, paths: seq<Path>, w: (Path, Cell) -> nat)
    requires i < |s| && Distinct(paths) && path in paths && SameBut(s[i], q, path)
    ensures Sum(s[i := q], paths, w) + w(path, CellOf(s[i], path)) == Sum(s, paths, w) + w(path, CellOf(q, path))
  {
    if i == 0 {
      SumPathsUpdate(s[0], q, path, paths, w);
      assert s[0 := q][1..] == s[1..];
    } else {
      SumUpdate(s[1..], i - 1, q, path, paths, w);
      assert s[i := q][1..] == s[1..][i - 1 := q];
    }
  }

  function SumFlight(flight: seq<Parcel>, w: Parcel -> nat): nat {
    if flight == [] then 0 else w(flight[0]) + SumFlight(flight[1..], w)
  }

  lemma {:induction false} SumFlightConcat(a: seq<Parcel>, b: seq<Parcel>, w: Parcel -> nat)
    ensures SumFlight(a + b, w) == SumFlight(a, w) + SumFlight(b, w)
  {
    if a == [] {
      assert a + b == b;
    } else {
      assert (a + b)[1..] == a[1..] + b;
      SumFlightConcat(a[1..], b, w);
    }
  }

  lemma SumFlightRemove(flight: seq<Parcel>, k: nat, w: Parcel -> nat)
    requires k < |flight|
    ensures SumFlight(flight[..k] + flight[k + 1..], w) + w(flight[k]) == SumFlight(flight, w)
  {
    SumFlightConcat(flight[..k], flight[k + 1..], w);
    SumFlightConcat(flight[..k], flight[k..], w);
    assert flight[..k] + flight[k..] == flight;
  }

  lemma {:induction false} SumFlightUniform(flight: seq<Parcel>, price: nat, w: Parcel -> nat, m: nat)
    requires |flight| <= m && forall x | x in flight :: w(x) <= price
    ensures SumFlight(flight, w) <= m * price
  {
    if flight == [] {
      assert 0 <= m * price;
    } else {
      SumFlightUniform(flight[1..], price, w, m - 1);
      assert m * price == (m - 1) * price + price;
    }
  }

  // -------- the potential --------

  predicate Stale(c: Cell) {
    c.file.Some? && c.cached != c.file
  }

  /**
    What a pair can still cause in a system with m other peers: a stale file one put to each of them, a file one
    removal, an open removal one deletion to each of them, and an open event its own handling.
   */
  function CellWeight(m: nat): (Path, Cell) -> nat {
    (_: Path, c: Cell) =>
      (if Stale(c) then m * (m + 3) else 0) +
      (if c.file.Some? then m + 1 else 0) +
      (if c.file.None? && c.open && c.cached != Some([]) then m else 0) +
      (if c.open then 1 else 0)
  }

  function ParcelWeight(m: nat): Parcel -> nat {
    (x: Parcel) => if x.fd.deleted then 1 else m + 3
  }

  function Potential(n: Net, paths: seq<Path>): nat
    requires n.peers != []
  {
    var m := |n.peers| - 1;
    Sum(n.peers, paths, CellWeight(m)) + SumFlight(n.flight, ParcelWeight(m))
  }

  /** What one user write can add to the potential. */
  function WriteCost(m: nat): nat {
    m * (m + 3) + m + 2
  }

  predicate Over(n: Net, paths: seq<Path>) {
    n.peers != [] && Distinct(paths) && forall x | x in n.flight :: x.path in paths && x.target < |n.peers|
  }

  predicate Within(a: NetAction, paths: seq<Path>) {
    match a
    case User(act) => act.path in paths
    case Open(_, path) => path in paths
    case Arrive(_) => true
  }

  lemma StepStaysOver(n: Net, a: NetAction, paths: seq<Path>)
    requires NetEnabled(n, a) && Over(n, paths) && Within(a, paths)
    ensures Over(NetStep(n, a), paths) && |NetStep(n, a).peers| == |n.peers|
  {}

  /** What the parcels of one event weigh together. */
  function SendPrice(m: nat, fd: FileData): nat {
    m * if fd.deleted then 1 else m + 3
  }

  /** What the handling of an event takes from its own pair pays for the parcels. */
  lemma OpenCellCost(m: nat, p: Peer, path: Path)
    requires path in p.pending
    ensures var fd := p.Payload(path);
      var taken := p.(pending := p.pending - {path});
      var q := if taken.IsRepeating(path, Some(fd)) then taken else taken.MarkProcessed(path, Some(fd));
      && SameBut(p, q, path)
      && CellWeight(m)(path, CellOf(q, path)) + (if taken.IsRepeating(path, Some(fd)) then 0 else SendPrice(m, fd)) <
           CellWeight(m)(path, CellOf(p, path))
  {}

  lemma SendCost(n: Net, i: nat, path: Path, m: nat)
    requires i < |n.peers| == m + 1
    ensures var fd := n.peers[i].Payload(path);
      SumFlight(n.flight + Parcels(n.peers, i, path, fd, 0), ParcelWeight(m)) <=
        SumFlight(n.flight, ParcelWeight(m)) + SendPrice(m, fd)
  {
    var fd := n.peers[i].Payload(path);
    var sent := Parcels(n.peers, i, path, fd, 0);
    SumFlightConcat(n.flight, sent, ParcelWeight(m));
    SumFlightUniform(sent, if fd.deleted then 1 else m + 3, ParcelWeight(m), m);
  }

  lemma OpenCost(n: Net, i: nat, path: Path, paths: seq<Path>)
    requires NetEnabled(n, Open(i, path)) && Over(n, paths) && path in paths
    ensures Potential(Opened(n, i, path), paths) < Potential(n, paths)
  {
    var m := |n.peers| - 1;
    var t := Opened(n, i, path);
    OpenCellCost(m, n.peers[i], path);
    assert t.peers == n.peers[i := t.peers[i]];
    SumUpdate(n.peers, i, t.peers[i], path, paths, CellWeight(m));
    SendCost(n, i, path, m);
  }

  lemma ReceiveCost(m: nat, p: Peer, x: Parcel)
    ensures CellWeight(m)(x.path, CellOf(Receive(p, x.path, x.fd, true).peer, x.path)) <
      CellWeight(m)(x.path, CellOf(p, x.path)) + ParcelWeight(m)(x)
  {}

  lemma ArriveCost(n: Net, k: nat, paths: seq<Path>)
    requires NetEnabled(n, Arrive(k)) && Over(n, paths)
    ensures Potential(NetStep(n, Arrive(k)), paths) < Potential(n, paths)
  {
    var m := |n.peers| - 1;
    var x := n.flight[k];
    var q := Receive(n.peers[x.target], x.path, x.fd, true).peer;
    ReceiveCost(m, n.peers[x.target], x);
    SumUpdate(n.peers, x.target, q, x.path, paths, CellWeight(m));
    SumFlightRemove(n.flight, k, ParcelWeight(m));
  }

  lemma CellCost(m: nat, path: Path, c: Cell, content: Bytes)
    ensures CellWeight(m)(path, Cell(Some(content), c.cached, true)) <= CellWeight(m)(path, c) + WriteCost(m)
    ensures c.file.Some? ==> CellWeight(m)(path, Cell(None, c.cached, true)) <= CellWeight(m)(path, c)
  {}

  lemma UserCost(n: Net, act: Action, paths: seq<Path>)
    requires NetEnabled(n, User(act)) && Over(n, paths) && act.path in paths
    ensures Potential(NetStep(n, User(act)), paths) <=
      Potential(n, paths) + if act.UserWrite? then WriteCost(|n.peers| - 1) else 0
  {
    var m := |n.peers| - 1;
    var p, q := n.peers[act.peer], Step(n.peers, act)[act.peer];
    assert Step(n.peers, act) == n.peers[act.peer := q] && SameBut(p, q, act.path);
    SumUpdate(n.peers, act.peer, q, act.path, paths, CellWeight(m));
    if act.UserWrite? {
      CellCost(m, act.path, CellOf(p, act.path), act.content);
      assert CellOf(q, act.path) == Cell(Some(act.content), p.Cached(act.path), true);
    } else {
      CellCost(m, act.path, CellOf(p, act.path), []);
      assert CellOf(q, act.path) == Cell(None, p.Cached(act.path), true);
    }
  }

  function Writes(acts: seq<NetAction>): nat {
    if acts == [] then 0
    else (if acts[0].User? && acts[0].act.UserWrite? then 1 else 0) + Writes(acts[1..])
  }

  function BridgeSteps(acts: seq<NetAction>): nat {
    if acts == [] then 0 else (if acts[0].User? then 0 else 1) + BridgeSteps(acts[1..])
  }

  /**
    No infinite loop, in any interleaving: the number of events handled and parcels delivered is at most the
    potential at the start plus a fixed price for each user write. User deletions cost nothing extra.
   */
  lemma {:induction false} EchoBound(n: Net, acts: seq<NetAction>, paths: seq<Path>, m: nat)
    requires Over(n, paths) && NetLegal(n, acts) && forall a | a in acts :: Within(a, paths)
    requires |n.peers| == m + 1
    ensures |NetRun(n, acts).peers| == m + 1
    ensures BridgeSteps(acts) + Potential(NetRun(n, acts), paths) <= Potential(n, paths) + WriteCost(m) * Writes(acts)
    decreases |acts|
  {
    if acts != [] {
      var a := acts[0];
      assert Within(a, paths);
      match a {
        case User(act) => UserCost(n, act, paths);
        case Open(i, path) => OpenCost(n, i, path, paths);
        case Arrive(k) => ArriveCost(n, k, paths);
      }
      StepStaysOver(n, a, paths);
      EchoBound(NetStep(n, a), acts[1..], paths, m);
      assert WriteCost(m) * (1 + Writes(acts[1..])) == WriteCost(m) + WriteCost(m) * Writes(acts[1..]);
    }
  }

  // -------- conservation: what one write can cause --------

  function StaleWeight(m: nat): (Path, Cell) -> nat {
    (_: Path, c: Cell) => if Stale(c) then m else 0
  }

  const PutWeight: Parcel -> nat := (x: Parcel) => if x.fd.deleted then 0 else 1

  /** The event of this step sends a file to the group. */
  predicate IsPutDispatch(n: Net, a: NetAction)
    requires NetEnabled(n, a)
  {
    a.Open? && Stale(CellOf(n.peers[a.peer], a.path))
  }

  predicate IsPutArrival(n: Net, a: NetAction)
    requires NetEnabled(n, a)
  {
    a.Arrive? && !n.flight[a.k].fd.deleted
  }

  function PutDispatches(n: Net, acts: seq<NetAction>): nat
    requires NetLegal(n, acts)
    decreases |acts|
  {
    if acts == [] then 0
    else (if IsPutDispatch(n, acts[0]) then 1 else 0) + PutDispatches(NetStep(n, acts[0]), acts[1..])
  }

  function PutArrivals(n: Net, acts: seq<NetAction>): nat
    requires NetLegal(n, acts)
    decreases |acts|
  {
    if acts == [] then 0
    else (if IsPutArrival(n, acts[0]) then 1 else 0) + PutArrivals(NetStep(n, acts[0]), acts[1..])
  }

  function StalePairs(n: Net, paths: seq<Path>): nat {
    Sum(n.peers, paths, StaleWeight(1))
  }

  /** Put parcels on their way, or owed for a stale pair. */
  function PutsOwed(n: Net, paths: seq<Path>): nat
    requires n.peers != []
  {
    Sum(n.peers, paths, StaleWeight(|n.peers| - 1)) + SumFlight(n.flight, PutWeight)
  }

  lemma UserPuts(n: Net, act: Action, paths: seq<Path>, m: nat)
    requires NetEnabled(n, User(act)) && Over(n, paths) && act.path in paths
    ensures Sum(Step(n.peers, act), paths, StaleWeight(m)) <=
      Sum(n.peers, paths, StaleWeight(m)) + if act.UserWrite? then m else 0
  {
    var p, q := n.peers[act.peer], Step(n.peers, act)[act.peer];
    assert Step(n.peers, act) == n.peers[act.peer := q] && SameBut(p, q, act.path);
    SumUpdate(n.peers, act.peer, q, act.path, paths, StaleWeight(m));
    assert CellOf(q, act.path) == Cell(if act.UserWrite? then Some(act.content) else None, p.Cached(act.path), true);
  }

  lemma OpenPuts(n: Net, i: nat, path: Path, paths: seq<Path>, m: nat)
    requires NetEnabled(n, Open(i, path)) && Over(n, paths) && path in paths
    ensures Sum(Opened(n, i, path).peers, paths, StaleWeight(m)) + (if IsPutDispatch(n, Open(i, path)) then m else 0) ==
      Sum(n.peers, paths, StaleWeight(m))
    ensures SumFlight(Opened(n, i, path).flight, PutWeight) <=
      SumFlight(n.flight, PutWeight) + if IsPutDispatch(n, Open(i, path)) then |n.peers| - 1 else 0
  {
    var t := Opened(n, i, path);
    SumUpdate(n.peers, i, t.peers[i], path, paths, StaleWeight(m));
    assert t.peers == n.peers[i := t.peers[i]];
    var fd := n.peers[i].Payload(path);
    var sent := Parcels(n.peers, i, path, fd, 0);
    if t.flight == n.flight + sent {
      SumFlightConcat(n.flight, sent, PutWeight);
      SumFlightUniform(sent, if fd.deleted then 0 else 1, PutWeight, |n.peers| - 1);
    }
  }

  lemma ArrivePuts(n: Net, k: nat, paths: seq<Path>, m: nat)
    requires NetEnabled(n, Arrive(k)) && Over(n, paths)
    ensures Sum(NetStep(n, Arrive(k)).peers, paths, StaleWeight(m)) <= Sum(n.peers, paths, StaleWeight(m))
    ensures SumFlight(NetStep(n, Arrive(k)).flight, PutWeight) + (if IsPutArrival(n, Arrive(k)) then 1 else 0) ==
      SumFlight(n.flight, PutWeight)
  {
    var x := n.flight[k];
    var q := Receive(n.peers[x.target], x.path, x.fd, true).peer;
    SumUpdate(n.peers, x.target, q, x.path, paths, StaleWeight(m));
    SumFlightRemove(n.flight, k, PutWeight);
  }

  lemma PutStep(n: Net, a: NetAction, paths: seq<Path>)
    requires NetEnabled(n, a) && Over(n, paths) && Within(a, paths)
    ensures Over(NetStep(n, a), paths) && |NetStep(n, a).peers| == |n.peers|
    ensures (if IsPutDispatch(n, a) then 1 else 0) + StalePairs(NetStep(n, a), paths) <=
      StalePairs(n, paths) + if a.User? && a.act.UserWrite? then 1 else 0
    ensures (if IsPutArrival(n, a) then 1 else 0) + PutsOwed(NetStep(n, a), paths) <=
      PutsOwed(n, paths) + if a.User? && a.act.UserWrite? then |n.peers| - 1 else 0
  {
    var m := |n.peers| - 1;
    StepStaysOver(n, a, paths);
    match a {
      case User(act) => UserPuts(n, act, paths, 1); UserPuts(n, act, paths, m);
      case Open(i, path) => OpenPuts(n, i, path, paths, 1); OpenPuts(n, i, path, paths, m);
      case Arrive(k) => ArrivePuts(n, k, paths, 1); ArrivePuts(n, k, paths, m);
    }
  }

  /**
    Conservation over whole runs, however deliveries interleave: files dispatched plus files still stale never exceed
    user writes plus files stale at the start.
   */
  lemma {:induction false} DispatchesConserved(n: Net, acts: seq<NetAction>, paths: seq<Path>)
    requires Over(n, paths) && NetLegal(n, acts) && forall a | a in acts :: Within(a, paths)
    ensures PutDispatches(n, acts) + StalePairs(NetRun(n, acts), paths) <= StalePairs(n, paths) + Writes(acts)
    decreases |acts|
  {
    if acts != [] {
      assert Within(acts[0], paths);
      PutStep(n, acts[0], paths);
      DispatchesConserved(NetStep(n, acts[0]), acts[1..], paths);
    }
  }

  /** Each write costs at most one delivery for each of the m other peers. */
  lemma {:induction false} DeliveriesConserved(n: Net, acts: seq<NetAction>, paths: seq<Path>, m: nat)
    requires Over(n, paths) && NetLegal(n, acts) && forall a | a in acts :: Within(a, paths)
    requires |n.peers| == m + 1
    ensures |NetRun(n, acts).peers| == m + 1
    ensures PutArrivals(n, acts) + PutsOwed(NetRun(n, acts), paths) <= PutsOwed(n, paths) + m * Writes(acts)
    decreases |acts|
  {
    if acts != [] {
      assert Within(acts[0], paths);
      PutStep(n, acts[0], paths);
      DeliveriesConserved(NetStep(n, acts[0]), acts[1..], paths, m);
      assert m * (1 + Writes(acts[1..])) == m + m * Writes(acts[1..]);
    }
  }

  // -------- the atomic protocol is one of the interleavings --------

  function ArriveAll(k: nat): seq<NetAction> {
    seq(k, _ => Arrive(0))
  }

  function Delivered(s: System, i: nat, path: Path, fd: FileData, k: nat): System
    requires i < |s| && k <= |s|
  {
    seq(|s|, j requires 0 <= j < |s| =>
      if k <= j && IsTarget(s[j], s[i].name, s[i].group) then Receive(s[j], path, fd, true).peer else s[j])
  }

  lemma FirstArrives(s: System, i: nat, path: Path, fd: FileData, k: nat, after: System)
    requires i < |s| && k < |s| && IsTarget(s[k], s[i].name, s[i].group)
    requires after == s[k := Receive(s[k], path, fd, true).peer]
    ensures var ps := Parcels(s, i, path, fd, k);
      && ps != [] && ps[1..] == Parcels(after, i, path, fd, k + 1)
      && NetEnabled(Net(s, ps), Arrive(0))
      && NetStep(Net(s, ps), Arrive(0)) == Net(after, ps[1..])
  {
    var ps := Parcels(s, i, path, fd, k);
    ParcelsIgnoreFiles(s, after, i, path, fd, k + 1);
    assert ps[0] == Parcel(k, path, fd);
    assert ps[..0] + ps[1..] == ps[1..];
  }

  lemma DeliveredFirst(s: System, i: nat, path: Path, fd: FileData, k: nat, after: System)
    requires i < |s| && k < |s| && IsTarget(s[k], s[i].name, s[i].group)
    requires after == s[k := Receive(s[k], path, fd, true).peer]
    ensures Delivered(s, i, path, fd, k) == Delivered(after, i, path, fd, k + 1)
  {}

  lemma SkipsOther(s: System, i: nat, path: Path, fd: FileData, k: nat)
    requires i < |s| && k < |s| && !IsTarget(s[k], s[i].name, s[i].group)
    ensures Delivered(s, i, path, fd, k) == Delivered(s, i, path, fd, k + 1)
    ensures Parcels(s, i, path, fd, k) == Parcels(s, i, path, fd, k + 1)
  {}

  /** The k parcels in flight are all delivered, one after the other, and the peers end up as given. */
  predicate Drains(n: Net, k: nat, end: System) {
    NetLegal(n, ArriveAll(k)) && NetRun(n, ArriveAll(k)) == Net(end, [])
  }

  lemma OneMore(n: Net, end: System)
    requires NetEnabled(n, Arrive(0)) && n.flight != []
    requires Drains(NetStep(n, Arrive(0)), |n.flight| - 1, end)
    ensures Drains(n, |n.flight|, end)
  {
    var k := |n.flight|;
    assert ArriveAll(k)[0] == Arrive(0) && ArriveAll(k)[1..] == ArriveAll(k - 1);
  }

  lemma TargetDrains(s: System, i: nat, path: Path, fd: FileData, k: nat, after: System, end: System)
    requires i < |s| && k < |s| && IsTarget(s[k], s[i].name, s[i].group)
    requires after == s[k := Receive(s[k], path, fd, true).peer]
    requires var rest := Parcels(after, i, path, fd, k + 1); Drains(Net(after, rest), |rest|, end)
    ensures var ps := Parcels(s, i, path, fd, k); Drains(Net(s, ps), |ps|, end)
  {
    FirstArrives(s, i, path, fd, k, after);
    OneMore(Net(s, Parcels(s, i, path, fd, k)), end);
  }

  lemma {:induction false} DeliverAll(s: System, i: nat, path: Path, fd: FileData, k: nat)
    requires i < |s| && k <= |s|
    ensures var ps := Parcels(s, i, path, fd, k); Drains(Net(s, ps), |ps|, Delivered(s, i, path, fd, k))
    decreases |s| - k
  {
    if k == |s| {
      assert Delivered(s, i, path, fd, k) == s;
    } else if !IsTarget(s[k], s[i].name, s[i].group) {
      SkipsOther(s, i, path, fd, k);
      DeliverAll(s, i, path, fd, k + 1);
    } else {
      var after := s[k := Receive(s[k], path, fd, true).peer];
      DeliverAll(after, i, path, fd, k + 1);
      DeliveredFirst(s, i, path, fd, k, after);
      TargetDrains(s, i, path, fd, k, after, Delivered(s, i, path, fd, k));
    }
  }

  lemma {:induction false} ParcelsIgnoreFiles(s: System, t: System, i: nat, path: Path, fd: FileData, k: nat)
    requires i < |s| == |t| && k <= |s|
    requires forall j | 0 <= j < |s| :: t[j].name == s[j].name && t[j].group == s[j].group
    ensures Parcels(t, i, path, fd, k) == Parcels(s, i, path, fd, k)
    decreases |s| - k
  {
    if k < |s| {
      ParcelsIgnoreFiles(s, t, i, path, fd, k + 1);
    }
  }

  lemma OpenedDrains(s: System, i: nat, path: Path)
    requires i < |s| && path in s[i].pending
    ensures var n := Opened(Net(s, []), i, path); Drains(n, |n.flight|, Change(s, i, path))
  {
    var n := Opened(Net(s, []), i, path);
    var fd := s[i].Payload(path);
    if !s[i].(pending := s[i].pending - {path}).IsRepeating(path, Some(fd)) {
      ParcelsIgnoreFiles(s, n.peers, i, path, fd, 0);
      assert n.flight == Parcels(n.peers, i, path, fd, 0);
      DeliverAll(n.peers, i, path, fd, 0);
      assert Delivered(n.peers, i, path, fd, 0) == Change(s, i, path);
    }
  }

  /** Opening an event and letting all its parcels arrive is the atomic handling of SyncPeers.Change. */
  lemma AtomicIsInterleaved(s: System, i: nat, path: Path) returns (k: nat)
    requires i < |s| && path in s[i].pending
    ensures NetLegal(Net(s, []), [Open(i, path)] + ArriveAll(k))
    ensures NetRun(Net(s, []), [Open(i, path)] + ArriveAll(k)) == Net(Change(s, i, path), [])
  {
    k := |Opened(Net(s, []), i, path).flight|;
    OpenedDrains(s, i, path);
    var acts := [Open(i, path)] + ArriveAll(k);
    assert acts[0] == Open(i, path) && acts[1..] == ArriveAll(k);
  }
}

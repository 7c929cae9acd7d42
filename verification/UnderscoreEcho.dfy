/**
  Echoes die out for paths with leading underscores, too. Such a path shares its cache key with others, and its changes
  arrive under another path; but that path is shorter, so an event can be priced by the length of its path.
 */
module UnderscoreEcho {
  import opened Types
  import opened SyncPeers
  import opened Echo
  import opened Bridge
  import LruCache
  import Paths

  // -------- prices --------

  /** What a changed hash can add to the weight of a plain pair. */
  function Worst(m: nat): nat {
    m * (m + 3) + m
  }

  /** The most that a parcel can cost whose event has the given price. */
  function ParcelCap(m: nat, opening: nat): nat {
    m + 3 + WriteCost(m) + opening
  }

  /** The price of an open event of a path with an underscore in front. */
  function Opening(m: nat, len: nat): nat {
    if len == 0 then 1 else 1 + Worst(m) + m * ParcelCap(m, Opening(m, len - 1))
  }

  function PathWeight(m: nat, path: Path, c: Cell): nat {
    if Paths.Plain(path) then CellWeight(m)(path, c) else if c.open then Opening(m, |path|) else 0
  }

  function Price(m: nat, x: Parcel): nat {
    if Paths.Plain(x.path) then ParcelWeight(m)(x) else 1 + WriteCost(m) + Opening(m, |Paths.SpotOf(x.path)|)
  }

  function Weights(m: nat): (Path, Cell) -> nat {
    (path: Path, c: Cell) => PathWeight(m, path, c)
  }

  function Prices(m: nat): Parcel -> nat {
    (x: Parcel) => Price(m, x)
  }

  function Charge(s: System, flight: seq<Parcel>, paths: seq<Path>, m: nat): nat {
    Sum(s, paths, Weights(m)) + SumFlight(flight, Prices(m))
  }

  lemma Monotone(m: nat, a: nat, b: nat)
    requires a <= b
    ensures m * a <= m * b
  {}

  lemma {:induction false} LongerCostsMore(m: nat, a: nat, b: nat)
    requires a <= b
    ensures Opening(m, a) <= Opening(m, b)
  {
    if a < b {
      LongerCostsMore(m, a, b - 1);
      OneLonger(m, b);
    }
  }

  lemma {:induction false} OneLonger(m: nat, len: nat)
    requires len > 0
    ensures Opening(m, len - 1) <= Opening(m, len)
  {
    if len > 1 {
      OneLonger(m, len - 1);
      Monotone(m, ParcelCap(m, Opening(m, len - 2)), ParcelCap(m, Opening(m, len - 1)));
    } else {
      assert m * ParcelCap(m, Opening(m, 0)) >= 0;
    }
  }

  // -------- sums --------

  lemma {:induction false} SumPathsKeeps(p: Peer, q: Peer, paths: seq<Path>, w: (Path, Cell) -> nat)
    requires forall x | x in paths :: w(x, CellOf(q, x)) == w(x, CellOf(p, x))
    ensures SumPaths(q, paths, w) == SumPaths(p, paths, w)
  {
    if paths != [] {
      assert paths[0] in paths;
      SumPathsKeeps(p, q, paths[1..], w);
    }
  }

  lemma {:induction false} SumKeeps(s: System, i: nat, q: Peer, paths: seq<Path>, w: (Path, Cell) -> nat)
    requires i < |s| && forall x | x in paths :: w(x, CellOf(q, x)) == w(x, CellOf(s[i], x))
    ensures Sum(s[i := q], paths, w) == Sum(s, paths, w)
  {
    if i == 0 {
      SumPathsKeeps(s[0], q, paths, w);
      assert s[0 := q][1..] == s[1..];
    } else {
      SumKeeps(s[1..], i - 1, q, paths, w);
      assert s[i := q][1..] == s[1..][i - 1 := q];
    }
  }

  /** A changed hash matters to the plain path of its key alone. */
  lemma KeyChange(s: System, i: nat, key: Path, hash: Hash, paths: seq<Path>, m: nat)
    requires i < |s| && Distinct(paths)
    ensures var q := s[i].(cache := s[i].cache[key := hash]);
      && Sum(s[i := q], paths, Weights(m)) <= Sum(s, paths, Weights(m)) + Worst(m)
      && (!Paths.Plain(key) ==> Sum(s[i := q], paths, Weights(m)) == Sum(s, paths, Weights(m)))
  {
    var q := s[i].(cache := s[i].cache[key := hash]);
    if Paths.Plain(key) && key in paths {
      SumUpdate(s, i, q, key, paths, Weights(m));
      HashCost(m, key, CellOf(s[i], key), hash);
      assert CellOf(q, key) == CellOf(s[i], key).(cached := Some(hash));
    } else {
      forall x | x in paths ensures Weights(m)(x, CellOf(q, x)) == Weights(m)(x, CellOf(s[i], x)) {
        assert x != key ==> CellOf(q, x) == CellOf(s[i], x);
      }
      SumKeeps(s, i, q, paths, Weights(m));
    }
  }

  lemma HashCost(m: nat, path: Path, c: Cell, hash: Hash)
    ensures CellWeight(m)(path, c.(cached := Some(hash))) <= CellWeight(m)(path, c) + Worst(m)
  {}

  // -------- events --------

  /** The peer after processChange and DispatchFrom, with a map for the cache. */
  function TakenPeer(p: Peer, path: Path, key: Path): Peer {
    var q, hash := p.(pending := p.pending - {path}), p.Payload(path).data;
    if p.Cached(key) == Some(hash) then q else q.(cache := q.cache[key := hash])
  }

  function SentBy(s: System, i: nat, path: Path): seq<Parcel>
    requires i < |s|
  {
    var fd := s[i].Payload(path);
    if s[i].Cached(Paths.KeyOf(path)) == Some(fd.data) then [] else Parcels(s, i, WireOf(path), fd, 0)
  }

  lemma TakenCost(s: System, i: nat, path: Path, paths: seq<Path>, m: nat)
    requires i < |s| && Distinct(paths) && path in paths && path in s[i].pending && !Paths.Plain(path)
    ensures Sum(s[i := TakenPeer(s[i], path, Paths.KeyOf(path))], paths, Weights(m)) + Opening(m, |path|) <=
      Sum(s, paths, Weights(m)) + Worst(m)
  {
    var p, key := s[i], Paths.KeyOf(path);
    var q := p.(pending := p.pending - {path});
    assert SameBut(p, q, path);
    SumUpdate(s, i, q, path, paths, Weights(m));
    KeyChange(s[i := q], i, key, p.Payload(path).data, paths, m);
    assert s[i := q][i := TakenPeer(p, path, key)] == s[i := TakenPeer(p, path, key)];
  }

  lemma WireIsShorter(path: Path)
    requires "_" <= path
    ensures |Paths.SpotOf(WireOf(path))| < |path|
  {
    Paths.SpotIsNoLonger(WireOf(path));
  }

  lemma WithinCap(m: nat, x: Parcel, len: nat)
    requires |Paths.SpotOf(x.path)| <= len
    ensures Price(m, x) <= ParcelCap(m, Opening(m, len))
  {
    LongerCostsMore(m, |Paths.SpotOf(x.path)|, len);
  }

  lemma SentCost(s: System, i: nat, path: Path, flight: seq<Parcel>, m: nat)
    requires i < |s| == m + 1 && "_" <= path
    ensures SumFlight(flight + SentBy(s, i, path), Prices(m)) <=
      SumFlight(flight, Prices(m)) + m * ParcelCap(m, Opening(m, |path| - 1))
  {
    var sent, cap := SentBy(s, i, path), ParcelCap(m, Opening(m, |path| - 1));
    forall x | x in sent ensures Prices(m)(x) <= cap {
      assert x.path == WireOf(path);
      WireIsShorter(path);
      WithinCap(m, x, |path| - 1);
    }
    SumFlightConcat(flight, sent, Prices(m));
    SumFlightUniform(sent, cap, Prices(m), m);
  }

  /** The event of a path with an underscore pays for its parcels. */
  lemma LongOpenCost(s: System, i: nat, path: Path, flight: seq<Parcel>, paths: seq<Path>, m: nat)
    requires i < |s| == m + 1 && Distinct(paths) && path in paths && path in s[i].pending
    requires "_" <= path && !Paths.Plain(path)
    ensures Charge(s[i := TakenPeer(s[i], path, Paths.KeyOf(path))], flight + SentBy(s, i, path), paths, m) <
      Charge(s, flight, paths, m)
  {
    TakenCost(s, i, path, paths, m);
    SentCost(s, i, path, flight, m);
  }

  /** So does the event of a plain path, as in the protocol without conversions. */
  lemma PlainOpenCost(s: System, i: nat, path: Path, flight: seq<Parcel>, paths: seq<Path>, m: nat)
    requires i < |s| == m + 1 && Distinct(paths) && path in paths && path in s[i].pending && Paths.Plain(path)
    ensures Charge(s[i := TakenPeer(s[i], path, Paths.KeyOf(path))], flight + SentBy(s, i, path), paths, m) <
      Charge(s, flight, paths, m)
  {
    OpenCellCost(m, s[i], path);
    SumUpdate(s, i, TakenPeer(s[i], path, path), path, paths, Weights(m));
    PlainSentCost(s, i, path, flight, m);
  }

  lemma PlainSentCost(s: System, i: nat, path: Path, flight: seq<Parcel>, m: nat)
    requires i < |s| == m + 1 && Paths.Plain(path)
    ensures SumFlight(flight + SentBy(s, i, path), Prices(m)) <= SumFlight(flight, Prices(m)) +
      if s[i].Cached(path) == Some(s[i].Payload(path).data) then 0 else SendPrice(m, s[i].Payload(path))
  {
    var sent, fd := SentBy(s, i, path), s[i].Payload(path);
    assert WireOf(path) == path;
    SumFlightConcat(flight, sent, Prices(m));
    if sent != [] {
      SumFlightUniform(sent, if fd.deleted then 1 else m + 3, Prices(m), m);
    }
  }

  // -------- arrivals --------

  function HashIn(fd: FileData): Hash {
    if fd.deleted then DELETED_MARK else fd.data
  }

  /** The peer after a Put or Delete that succeeds, with a map for the cache. */
  function ReceivedPeer(p: Peer, key: Path, spot: Path, fd: FileData): Peer {
    if p.Cached(key) == Some(HashIn(fd)) || (fd.deleted && spot !in p.files) then p
    else Touched(p, spot, fd).(cache := p.cache[key := HashIn(fd)])
  }

  function Touched(p: Peer, spot: Path, fd: FileData): Peer {
    p.(files := if fd.deleted then p.files - {spot} else p.files[spot := fd.data], pending := p.pending + {spot})
  }

  lemma TouchedCost(s: System, i: nat, spot: Path, fd: FileData, paths: seq<Path>, m: nat)
    requires i < |s| && Distinct(paths) && spot in paths && (fd.deleted ==> spot in s[i].files)
    ensures Sum(s[i := Touched(s[i], spot, fd)], paths, Weights(m)) <=
      Sum(s, paths, Weights(m)) + WriteCost(m) + Opening(m, |spot|)
  {
    var p, q := s[i], Touched(s[i], spot, fd);
    assert SameBut(p, q, spot);
    SumUpdate(s, i, q, spot, paths, Weights(m));
    CellCost(m, spot, CellOf(p, spot), fd.data);
    assert CellOf(q, spot) == Cell(if fd.deleted then None else Some(fd.data), p.Cached(spot), true);
  }

  lemma LongArrivalCost(s: System, x: Parcel, paths: seq<Path>, m: nat)
    requires x.target < |s| && Distinct(paths) && Paths.SpotOf(x.path) in paths && !Paths.Plain(x.path)
    ensures var q := ReceivedPeer(s[x.target], x.path, Paths.SpotOf(x.path), x.fd);
      Sum(s[x.target := q], paths, Weights(m)) < Sum(s, paths, Weights(m)) + Prices(m)(x)
  {
    var i, p, spot := x.target, s[x.target], Paths.SpotOf(x.path);
    var q := ReceivedPeer(p, x.path, spot, x.fd);
    if q == p {
      assert s[i := q] == s;
    } else {
      var t := Touched(p, spot, x.fd);
      TouchedCost(s, i, spot, x.fd, paths, m);
      KeyChange(s[i := t], i, x.path, HashIn(x.fd), paths, m);
      assert s[i := t][i := q] == s[i := q];
    }
  }

  lemma PlainArrivalCost(s: System, x: Parcel, paths: seq<Path>, m: nat)
    requires x.target < |s| && Distinct(paths) && x.path in paths && Paths.Plain(x.path)
    ensures var q := ReceivedPeer(s[x.target], x.path, x.path, x.fd);
      Sum(s[x.target := q], paths, Weights(m)) < Sum(s, paths, Weights(m)) + Prices(m)(x)
  {
    var q := ReceivedPeer(s[x.target], x.path, x.path, x.fd);
    assert q == Receive(s[x.target], x.path, x.fd, true).peer;
    ReceiveCost(m, s[x.target], x);
    SumUpdate(s, x.target, q, x.path, paths, Weights(m));
  }

  lemma ArrivalCost(s: System, flight: seq<Parcel>, k: nat, paths: seq<Path>, m: nat)
    requires k < |flight| && flight[k].target < |s| && Distinct(paths) && Paths.SpotOf(flight[k].path) in paths
    ensures var x := flight[k];
      var q := ReceivedPeer(s[x.target], x.path, Paths.SpotOf(x.path), x.fd);
      Charge(s[x.target := q], flight[..k] + flight[k + 1..], paths, m) < Charge(s, flight, paths, m)
  {
    var x := flight[k];
    if Paths.Plain(x.path) {
      PlainArrivalCost(s, x, paths, m);
    } else {
      LongArrivalCost(s, x, paths, m);
    }
    SumFlightRemove(flight, k, Prices(m));
  }

  // -------- the bridge --------

  /**
    The paths in use: each is plain or begins with an underscore, what it is sent as is written to one of them, and the
    keys hold what is looked up in a cache.
   */
  predicate Closed(paths: seq<Path>, keys: seq<Path>) {
    forall p {:trigger StaysIn(paths, keys, p)} | p in paths :: StaysIn(paths, keys, p)
  }

  predicate StaysIn(paths: seq<Path>, keys: seq<Path>, p: Path) {
    (Paths.Plain(p) || "_" <= p) && Paths.KeyOf(p) in keys && WireOf(p) in keys && Paths.SpotOf(WireOf(p)) in paths
  }

  /** Everything that is cached or on its way is about these keys, and they fit into the cache. */
  predicate Room(b: Bridge, paths: seq<Path>, keys: seq<Path>) {
    && Distinct(paths) && |keys| <= b.size && b.nodes != []
    && (forall i | 0 <= i < |b.nodes| :: RecentFits(b.nodes[i].recent, b.size, keys))
    && forall x | x in b.flight :: x.path in keys && Paths.SpotOf(x.path) in paths && x.target < |b.nodes|
  }

  function ChargeOf(b: Bridge, paths: seq<Path>, m: nat): nat {
    Charge(Views(b.nodes), b.flight, paths, m)
  }

  lemma TakenView(v: Node, size: nat, keys: seq<Path>, path: Path, key: Path)
    requires RecentFits(v.recent, size, keys) && key in keys && |keys| <= size
    ensures var taken := TakenAs(v, size, path, key);
      && RecentFits(taken.0.recent, size, keys) && taken.0.View() == TakenPeer(v.View(), path, key)
      && taken.1 == (v.View().Cached(key) != Some(v.View().Payload(path).data))
  {
    UsedFits(v.recent, size, keys, key);
    UsedThenAddedFits(v.recent, size, keys, key, v.View().Payload(path).data);
  }

  lemma ReceivedView(v: Node, size: nat, keys: seq<Path>, key: Path, spot: Path, fd: FileData)
    requires RecentFits(v.recent, size, keys) && key in keys && |keys| <= size
    ensures var r := ReceiveAt(v, size, key, spot, fd, true);
      RecentFits(r.node.recent, size, keys) && r.node.View() == ReceivedPeer(v.View(), key, spot, fd)
  {
    UsedFits(v.recent, size, keys, key);
    UsedThenAddedFits(v.recent, size, keys, key, HashIn(fd));
  }

  lemma OpenCharge(s: System, i: nat, path: Path, flight: seq<Parcel>, paths: seq<Path>, m: nat)
    requires i < |s| == m + 1 && Distinct(paths) && path in paths && path in s[i].pending
    requires Paths.Plain(path) || "_" <= path
    ensures Charge(s[i := TakenPeer(s[i], path, Paths.KeyOf(path))], flight + SentBy(s, i, path), paths, m) <
      Charge(s, flight, paths, m)
  {
    if Paths.Plain(path) {
      PlainOpenCost(s, i, path, flight, paths, m);
    } else {
      LongOpenCost(s, i, path, flight, paths, m);
    }
  }

  /** One node has changed, and something was sent. */
  lemma RoomAfter(b: Bridge, i: nat, v: Node, flight: seq<Parcel>, paths: seq<Path>, keys: seq<Path>)
    requires Room(b, paths, keys) && i < |b.nodes| && RecentFits(v.recent, b.size, keys)
    requires forall x | x in flight :: x in b.flight || (x.path in keys && Paths.SpotOf(x.path) in paths && x.target < |b.nodes|)
    ensures Room(b.(nodes := b.nodes[i := v], flight := flight), paths, keys)
  {}

  /** The step to e keeps the room, and is paid for by the bridge, or by the user with the price. */
  predicate Paid(b: Bridge, e: Bridge, paths: seq<Path>, keys: seq<Path>, m: nat, user: bool, price: nat) {
    && Room(e, paths, keys) && |e.nodes| == m + 1
    && ChargeOf(e, paths, m) + (if user then 0 else 1) <= ChargeOf(b, paths, m) + if user then price else 0
  }

  lemma OpenPays(b: Bridge, i: nat, path: Path, v: Node, sent: seq<Parcel>, paths: seq<Path>, keys: seq<Path>, m: nat)
    requires |b.nodes| == m + 1
    requires i < |b.nodes| && path in b.nodes[i].pending && Room(b, paths, keys) && Closed(paths, keys) && path in paths
    requires RecentFits(v.recent, b.size, keys) && v.View() == TakenPeer(b.nodes[i].View(), path, Paths.KeyOf(path))
    requires sent == SentBy(Views(b.nodes), i, path)
    ensures Paid(b, b.(nodes := b.nodes[i := v], flight := b.flight + sent), paths, keys, m, false, 0)
  {
    assert StaysIn(paths, keys, path);
    RoomAfter(b, i, v, b.flight + sent, paths, keys);
    ViewsUpdate(b.nodes, i, v);
    OpenCharge(Views(b.nodes), i, path, b.flight, paths, m);
  }

  lemma OpenStep(b: Bridge, i: nat, path: Path, paths: seq<Path>, keys: seq<Path>, m: nat)
    requires |b.nodes| == m + 1
    requires BridgeEnabled(b, Open(i, path)) && Room(b, paths, keys) && Closed(paths, keys) && path in paths
    ensures Paid(b, BridgeStep(b, Open(i, path)), paths, keys, m, false, 0)
  {
    assert StaysIn(paths, keys, path);
    TakenView(b.nodes[i], b.size, keys, path, Paths.KeyOf(path));
    OpenPays(b, i, path, Taken(b.nodes[i], b.size, path).0, SentBy(Views(b.nodes), i, path), paths, keys, m);
  }

  lemma ArrivePays(b: Bridge, k: nat, x: Parcel, v: Node, flight: seq<Parcel>, paths: seq<Path>, keys: seq<Path>, m: nat)
    requires |b.nodes| == m + 1
    requires k < |b.flight| && b.flight[k] == x && flight == b.flight[..k] + b.flight[k + 1..]
    requires Room(b, paths, keys) && x.target < |b.nodes| && Paths.SpotOf(x.path) in paths
    requires RecentFits(v.recent, b.size, keys)
    requires v.View() == ReceivedPeer(b.nodes[x.target].View(), x.path, Paths.SpotOf(x.path), x.fd)
    ensures Paid(b, b.(nodes := b.nodes[x.target := v], flight := flight), paths, keys, m, false, 0)
  {
    assert forall y | y in flight :: y in b.flight;
    RoomAfter(b, x.target, v, flight, paths, keys);
    ViewsUpdate(b.nodes, x.target, v);
    ArrivalCost(Views(b.nodes), b.flight, k, paths, m);
  }

  lemma ParcelFits(b: Bridge, k: nat, paths: seq<Path>, keys: seq<Path>)
    requires k < |b.flight| && Room(b, paths, keys)
    ensures var x := b.flight[k]; x.path in keys && Paths.SpotOf(x.path) in paths && x.target < |b.nodes|
  {
    assert b.flight[k] in b.flight;
  }

  lemma ArrivalAt(b: Bridge, k: nat, x: Parcel, paths: seq<Path>, keys: seq<Path>) returns (v: Node)
    requires k < |b.flight| && b.flight[k] == x && Room(b, paths, keys) && x.target < |b.nodes| && x.path in keys
    ensures RecentFits(v.recent, b.size, keys)
    ensures v.View() == ReceivedPeer(b.nodes[x.target].View(), x.path, Paths.SpotOf(x.path), x.fd)
    ensures BridgeStep(b, Arrive(k)) == b.(nodes := b.nodes[x.target := v], flight := b.flight[..k] + b.flight[k + 1..])
  {
    v := ReceiveNode(b.nodes[x.target], b.size, x.path, x.fd, true).node;
    ReceivedView(b.nodes[x.target], b.size, keys, x.path, Paths.SpotOf(x.path), x.fd);
  }

  lemma ArriveStep(b: Bridge, k: nat, paths: seq<Path>, keys: seq<Path>, m: nat)
    requires |b.nodes| == m + 1
    requires BridgeEnabled(b, Arrive(k)) && Room(b, paths, keys)
    ensures Paid(b, BridgeStep(b, Arrive(k)), paths, keys, m, false, 0)
  {
    ParcelFits(b, k, paths, keys);
    var v := ArrivalAt(b, k, b.flight[k], paths, keys);
    ArrivePays(b, k, b.flight[k], v, b.flight[..k] + b.flight[k + 1..], paths, keys, m);
  }

  /** What a user step can cost, for paths up to the given length. */
  function UserPrice(m: nat, len: nat): nat {
    WriteCost(m) + Opening(m, len)
  }

  lemma UserPays(b: Bridge, i: nat, path: Path, fd: FileData, v: Node, paths: seq<Path>, keys: seq<Path>, m: nat, len: nat)
    requires |b.nodes| == m + 1
    requires Room(b, paths, keys) && i < |b.nodes| && path in paths && |path| <= len
    requires v.recent == b.nodes[i].recent && v.View() == Touched(b.nodes[i].View(), path, fd)
    requires fd.deleted ==> path in b.nodes[i].files
    ensures Paid(b, b.(nodes := b.nodes[i := v], flight := b.flight), paths, keys, m, true, UserPrice(m, len))
  {
    RoomAfter(b, i, v, b.flight, paths, keys);
    ViewsUpdate(b.nodes, i, v);
    TouchedCost(Views(b.nodes), i, path, fd, paths, m);
    LongerCostsMore(m, |path|, len);
  }

  lemma UserStep(b: Bridge, act: Action, paths: seq<Path>, keys: seq<Path>, m: nat, len: nat)
    requires |b.nodes| == m + 1
    requires BridgeEnabled(b, User(act)) && Room(b, paths, keys) && act.path in paths && |act.path| <= len
    ensures Paid(b, BridgeStep(b, User(act)), paths, keys, m, true, UserPrice(m, len))
  {
    var fd := if act.UserWrite? then FileData(act.content, false) else FileData([], true);
    UserPays(b, act.peer, act.path, fd, UserOn(b.nodes[act.peer], act), paths, keys, m, len);
  }

  function UserSteps(acts: seq<NetAction>): nat {
    if acts == [] then 0 else (if acts[0].User? then 1 else 0) + UserSteps(acts[1..])
  }

  predicate AllUpTo(paths: seq<Path>, len: nat) {
    forall p | p in paths :: |p| <= len
  }

  /** One step: the bridge pays for it, or the user. */
  lemma StepIsPaid(b: Bridge, a: NetAction, paths: seq<Path>, keys: seq<Path>, m: nat, len: nat)
    requires |b.nodes| == m + 1
    requires BridgeEnabled(b, a) && Room(b, paths, keys) && Closed(paths, keys) && Within(a, paths) && AllUpTo(paths, len)
    ensures Paid(b, BridgeStep(b, a), paths, keys, m, a.User?, if a.User? then UserPrice(m, len) else 0)
  {
    match a {
      case User(act) => UserStep(b, act, paths, keys, m, len);
      case Open(i, path) => OpenStep(b, i, path, paths, keys, m);
      case Arrive(k) => ArriveStep(b, k, paths, keys, m);
    }
  }

  /** The bridge does no more than the charge and the user steps of the run pay for. */
  predicate IsBounded(b: Bridge, acts: seq<NetAction>, paths: seq<Path>, m: nat, price: nat) {
    BridgeSteps(acts) <= ChargeOf(b, paths, m) + price * UserSteps(acts)
  }

  lemma PaidThenRest(b: Bridge, e: Bridge, acts: seq<NetAction>, paths: seq<Path>, keys: seq<Path>, m: nat, price: nat)
    requires acts != [] && Paid(b, e, paths, keys, m, acts[0].User?, if acts[0].User? then price else 0)
    requires IsBounded(e, acts[1..], paths, m, price)
    ensures IsBounded(b, acts, paths, m, price)
  {
    Combine(ChargeOf(b, paths, m), ChargeOf(e, paths, m), price, acts[0].User?, UserSteps(acts[1..]), BridgeSteps(acts[1..]));
  }

  lemma Combine(before: nat, after: nat, price: nat, user: bool, users: nat, steps: nat)
    requires after + (if user then 0 else 1) <= before + (if user then price else 0) && steps <= after + price * users
    ensures (if user then 0 else 1) + steps <= before + price * ((if user then 1 else 0) + users)
  {
    assert price * (1 + users) == price + price * users;
  }

  lemma {:induction false} RunIsPaid(b: Bridge, acts: seq<NetAction>, paths: seq<Path>, keys: seq<Path>, m: nat, len: nat, price: nat)
    requires |b.nodes| == m + 1
    requires Room(b, paths, keys) && Closed(paths, keys) && AllUpTo(paths, len)
    requires AllWithin(acts, paths) && BridgeLegal(b, acts) && price == UserPrice(m, len)
    ensures IsBounded(b, acts, paths, m, price)
    decreases |acts|
  {
    if acts == [] {
      NothingIsBounded(b, paths, m, price);
    } else {
      assert Within(acts[0], paths);
      StepIsPaid(b, acts[0], paths, keys, m, len);
      RunIsPaid(BridgeStep(b, acts[0]), acts[1..], paths, keys, m, len, price);
      PaidThenRest(b, BridgeStep(b, acts[0]), acts, paths, keys, m, price);
    }
  }

  lemma NothingIsBounded(b: Bridge, paths: seq<Path>, m: nat, price: nat)
    ensures IsBounded(b, [], paths, m, price)
  {
    assert price * UserSteps([]) == 0;
  }

  /**
    No infinite loop, whatever underscores the paths begin with, in any interleaving, as long as the keys fit into the
    cache: what the bridge does is at most the charge at the start plus a fixed price for each user step.
   */
  lemma AnyEchoBound(b: Bridge, acts: seq<NetAction>, paths: seq<Path>, keys: seq<Path>, m: nat, len: nat)
    requires |b.nodes| == m + 1
    requires Room(b, paths, keys) && Closed(paths, keys) && AllUpTo(paths, len)
    requires AllWithin(acts, paths) && BridgeLegal(b, acts)
    ensures BridgeSteps(acts) <= ChargeOf(b, paths, m) + UserPrice(m, len) * UserSteps(acts)
  {
    RunIsPaid(b, acts, paths, keys, m, len, UserPrice(m, len));
  }

  /** Reported paths that are sent as reported paths are closed; the keys are the paths and what they are looked up as. */
  lemma ReportedPathsAreClosed(paths: seq<Path>, keys: seq<Path>)
    requires forall p | p in paths :: Paths.ProperPath(p) && WireOf(p) in paths
    requires forall p | p in paths :: p in keys && Paths.KeyOf(p) in keys
    ensures Closed(paths, keys)
  {
    forall p | p in paths ensures StaysIn(paths, keys, p) {
      Paths.PlainIff(p);
      Paths.SpotOfProper(WireOf(p));
    }
  }
}

/** Runs of two peers that end quiet and apart, and what they say about the conditions of Convergence. */
module ConvergenceLimits {
  import opened Types
  import opened SyncPeers
  import opened Convergence
  import opened Echo

  function Pair(): System {
    [Peer("a", "g", map[], map[], {}), Peer("b", "g", map[], map[], {})]
  }

  /** a creates the file, both peers handle their events, a removes the file and handles that. */
  function CreateThenRemove(path: Path, c: Bytes): seq<Action> {
    [UserWrite(0, path, c), ProcessChange(0, path), ProcessChange(1, path), UserRemove(0, path), ProcessChange(0, path)]
  }

  /** Both users remove a synced file; the deletion of a is handled; b brings the same bytes back before its own is. */
  function Revival(path: Path, c: Bytes): seq<Action> {
    [UserWrite(0, path, c), ProcessChange(0, path), ProcessChange(1, path), UserRemove(0, path), UserRemove(1, path),
     ProcessChange(0, path), UserWrite(1, path, c), ProcessChange(1, path)]
  }

  /** The pair with one path filled in. */
  function At(path: Path, fa: Option<Bytes>, ca: Option<Hash>, pa: bool, fb: Option<Bytes>, cb: Option<Hash>, pb: bool): System {
    [Side("a", path, fa, ca, pa), Side("b", path, fb, cb, pb)]
  }

  function Side(name: string, path: Path, file: Option<Bytes>, cached: Option<Hash>, open: bool): Peer {
    Peer(name, "g",
      if file.Some? then map[path := file.value] else map[],
      if cached.Some? then map[path := cached.value] else map[],
      if open then {path} else {})
  }

  lemma Sides(name: string, path: Path, file: Option<Bytes>, cached: Option<Hash>, open: bool, c: Bytes)
    ensures var p := Side(name, path, file, cached, open);
      && p.File(path) == file && p.Cached(path) == cached && (path in p.pending <==> open)
      && p.(files := p.files[path := c], pending := p.pending + {path}) == Side(name, path, Some(c), cached, true)
      && p.(files := p.files - {path}, pending := p.pending + {path}) == Side(name, path, None, cached, true)
      && p.(cache := p.cache[path := c]) == Side(name, path, file, Some(c), open)
      && p.(pending := p.pending - {path}) == Side(name, path, file, cached, false)
  {
    var p := Side(name, path, file, cached, open);
    assert p.files[path := c] == map[path := c] && p.files - {path} == map[] && p.cache[path := c] == map[path := c];
    assert p.pending + {path} == {path} && p.pending - {path} == {};
  }

  lemma PairWrite(path: Path, fa: Option<Bytes>, ca: Option<Hash>, pa: bool, fb: Option<Bytes>, cb: Option<Hash>, pb: bool,
                  c: Bytes)
    ensures var s := At(path, fa, ca, pa, fb, cb, pb);
      && Step(s, UserWrite(0, path, c)) == At(path, Some(c), ca, true, fb, cb, pb)
      && Step(s, UserWrite(1, path, c)) == At(path, fa, ca, pa, Some(c), cb, true)
  {
    Sides("a", path, fa, ca, pa, c);
    Sides("b", path, fb, cb, pb, c);
  }

  lemma PairRemove(path: Path, ca: Option<Hash>, pa: bool, cb: Option<Hash>, pb: bool, fa: Bytes, fb: Bytes, gone: Option<Bytes>)
    ensures var s := At(path, Some(fa), ca, pa, Some(fb), cb, pb);
      && Enabled(s, UserRemove(0, path))
      && Step(s, UserRemove(0, path)) == At(path, None, ca, true, Some(fb), cb, pb)
    ensures var s := At(path, gone, ca, pa, Some(fb), cb, pb);
      && Enabled(s, UserRemove(1, path))
      && Step(s, UserRemove(1, path)) == At(path, gone, ca, pa, None, cb, true)
  {
    Sides("a", path, Some(fa), ca, pa, []);
    Sides("b", path, Some(fb), cb, pb, []);
  }

  /** An event whose payload is cached already is dropped. */
  lemma PairSkip(path: Path, fa: Option<Bytes>, ca: Option<Hash>, pa: bool, fb: Option<Bytes>, cb: Option<Hash>, pb: bool)
    ensures var s := At(path, fa, ca, pa, fb, cb, pb);
      && (ca == Some(s[0].Payload(path).data) ==> Change(s, 0, path) == At(path, fa, ca, false, fb, cb, pb))
      && (cb == Some(s[1].Payload(path).data) ==> Change(s, 1, path) == At(path, fa, ca, pa, fb, cb, false))
  {
    Sides("a", path, fa, ca, pa, []);
    Sides("b", path, fb, cb, pb, []);
  }

  /** An event of a that is new there reaches b. */
  lemma PairSend(path: Path, fa: Option<Bytes>, ca: Option<Hash>, pa: bool, fb: Option<Bytes>, cb: Option<Hash>, pb: bool)
    ensures var s := At(path, fa, ca, pa, fb, cb, pb);
      var fd := s[0].Payload(path);
      ca != Some(fd.data) ==>
        Change(s, 0, path) == [Side("a", path, fa, Some(fd.data), false), Receive(s[1], path, fd, true).peer]
  {
    var s := At(path, fa, ca, pa, fb, cb, pb);
    Sides("a", path, fa, ca, pa, []);
    Sides("a", path, fa, ca, false, s[0].Payload(path).data);
    Sides("b", path, fb, cb, pb, []);
  }

  /** Reads off the k-th action of a run that is now at s. */
  lemma Unfold(s: System, acts: seq<Action>, k: nat, t: System, path: Path, before: bool)
    requires k < |acts| && Enabled(s, acts[k]) && Step(s, acts[k]) == t
    ensures Legal(s, acts[k..]) <==> Legal(t, acts[k + 1..])
    ensures Legal(t, acts[k + 1..]) ==>
      && Run(s, acts[k..]) == Run(t, acts[k + 1..])
      && OnTrack(s, acts[k..], "g", path, before) ==
         OnTrack(t, acts[k + 1..], "g", path, TrackAfter(s, acts[k], "g", path, before))
  {
    assert acts[k..][1..] == acts[k + 1..];
  }

  lemma SyncedPair(path: Path, c: Bytes, rest: seq<Action>)
    ensures var acts := [UserWrite(0, path, c), ProcessChange(0, path), ProcessChange(1, path)] + rest;
      var synced := At(path, Some(c), Some(c), false, Some(c), Some(c), false);
      && (Legal(Pair(), acts) <==> Legal(synced, rest))
      && (Legal(synced, rest) ==> Run(Pair(), acts) == Run(synced, rest)
                                  && OnTrack(Pair(), acts, "g", path, true) == OnTrack(synced, rest, "g", path, true))
  {
    var acts := [UserWrite(0, path, c), ProcessChange(0, path), ProcessChange(1, path)] + rest;
    var s1 := At(path, Some(c), None, true, None, None, false);
    var s2 := At(path, Some(c), Some(c), false, Some(c), Some(c), true);
    var s3 := At(path, Some(c), Some(c), false, Some(c), Some(c), false);
    assert Pair() == At(path, None, None, false, None, None, false);
    PairWrite(path, None, None, false, None, None, false, c);
    PairSend(path, Some(c), None, true, None, None, false);
    Sides("b", path, None, None, false, c);
    Sides("b", path, Some(c), None, true, c);
    PairSkip(path, Some(c), Some(c), false, Some(c), Some(c), true);
    assert Step(Pair(), acts[0]) == s1 && Step(s1, acts[1]) == s2 && Step(s2, acts[2]) == s3;
    Unfold(Pair(), acts, 0, s1, path, true);
    Unfold(s1, acts, 1, s2, path, true);
    Unfold(s2, acts, 2, s3, path, true);
    assert acts[0..] == acts && acts[3..] == rest;
  }

  /** An empty file looks deleted, and a file holding the deletion mark looks already deleted. */
  lemma BadContentDiverges(path: Path, c: Bytes)
    requires !GoodContent(c)
    ensures Legal(Pair(), CreateThenRemove(path, c)) && OnTrack(Pair(), CreateThenRemove(path, c), "g", path, true)
    ensures Quiet(Run(Pair(), CreateThenRemove(path, c)), "g", path)
    ensures !Agree(Run(Pair(), CreateThenRemove(path, c)), "g", path)
  {
    var rest := [UserRemove(0, path), ProcessChange(0, path)];
    assert CreateThenRemove(path, c) ==
      [UserWrite(0, path, c), ProcessChange(0, path), ProcessChange(1, path)] + rest;
    SyncedPair(path, c, rest);
    var s0 := At(path, Some(c), Some(c), false, Some(c), Some(c), false);
    var s1 := At(path, None, Some(c), true, Some(c), Some(c), false);
    var s2 := At(path, None, Some([]), false, Some(c), Some(c), false);
    PairRemove(path, Some(c), false, Some(c), false, c, c, None);
    PairSend(path, None, Some(c), true, Some(c), Some(c), false);
    PairSkip(path, None, Some(c), true, Some(c), Some(c), false);
    assert Step(s0, rest[0]) == s1 && Step(s1, rest[1]) == s2;
    Unfold(s0, rest, 0, s1, path, true);
    Unfold(s1, rest, 1, s2, path, true);
    assert rest[0..] == rest && rest[2..] == [];
    assert s2[0].File(path) != s2[1].File(path);
  }

  /** Good contents do not help when a file is revived: the last event is swallowed and b keeps a file that a lacks. */
  lemma RevivalDiverges(path: Path, c: Bytes)
    requires GoodContent(c)
    ensures Legal(Pair(), Revival(path, c))
    ensures Quiet(Run(Pair(), Revival(path, c)), "g", path)
    ensures !Agree(Run(Pair(), Revival(path, c)), "g", path)
  {
    var rest := Revival(path, c)[3..];
    assert Revival(path, c) == [UserWrite(0, path, c), ProcessChange(0, path), ProcessChange(1, path)] + rest;
    SyncedPair(path, c, rest);
    var s0 := At(path, Some(c), Some(c), false, Some(c), Some(c), false);
    var s1 := At(path, None, Some(c), true, Some(c), Some(c), false);
    var s2 := At(path, None, Some(c), true, None, Some(c), true);
    var s3 := At(path, None, Some([]), false, None, Some(c), true);
    var s4 := At(path, None, Some([]), false, Some(c), Some(c), true);
    var s5 := At(path, None, Some([]), false, Some(c), Some(c), false);
    PairRemove(path, Some(c), false, Some(c), false, c, c, None);
    PairRemove(path, Some(c), true, Some(c), false, c, c, None);
    PairSend(path, None, Some(c), true, None, Some(c), true);
    PairWrite(path, None, Some([]), false, None, Some(c), true, c);
    PairSkip(path, None, Some([]), false, Some(c), Some(c), true);
    assert Step(s0, rest[0]) == s1 && Step(s1, rest[1]) == s2 && Step(s2, rest[2]) == s3;
    assert Step(s3, rest[3]) == s4 && Step(s4, rest[4]) == s5;
    Unfold(s0, rest, 0, s1, path, true);
    Unfold(s1, rest, 1, s2, path, true);
    Unfold(s2, rest, 2, s3, path, true);
    Unfold(s3, rest, 3, s4, path, true);
    Unfold(s4, rest, 4, s5, path, true);
    assert rest[0..] == rest && rest[5..] == [];
    assert s5[0].File(path) != s5[1].File(path);
  }

  /** On contents from the given set, the last event that was sent or swallowed decides whether a quiet group agrees. */
  ghost predicate AlwaysDecided(allowed: iset<Bytes>) {
    forall s: System, acts: seq<Action>, group: string, path: Path ::
      Blank(s) && FilesAmong(s, allowed) && Legal(s, acts) && WritesAmong(acts, allowed) &&
      Quiet(Run(s, acts), group, path) ==>
        (Agree(Run(s, acts), group, path) <==> OnTrack(s, acts, group, path, Aligned(s, group, path)))
  }

  lemma GoodContentsDecide(allowed: iset<Bytes>)
    requires [] !in allowed && DELETED_MARK !in allowed
    ensures AlwaysDecided(allowed)
  {
    forall s: System, acts: seq<Action>, group: string, path: Path
      | Blank(s) && FilesAmong(s, allowed) && Legal(s, acts) && WritesAmong(acts, allowed) &&
        Quiet(Run(s, acts), group, path)
      ensures Agree(Run(s, acts), group, path) <==> OnTrack(s, acts, group, path, Aligned(s, group, path))
    {
      RunDecides(s, acts, group, path);
    }
  }

  lemma BadContentIsNoGood(allowed: iset<Bytes>, c: Bytes)
    requires c in allowed && !GoodContent(c)
    ensures !AlwaysDecided(allowed)
  {
    var path: Path := "p";
    BadContentDiverges(path, c);
    assert WritesAmong(CreateThenRemove(path, c), allowed);
    assert Blank(Pair()) && FilesAmong(Pair(), allowed) && Aligned(Pair(), "g", path);
  }

  /** The condition on contents is exact: neither the empty file nor the deletion mark may be written. */
  lemma DecidedIffGoodContents(allowed: iset<Bytes>)
    ensures AlwaysDecided(allowed) <==> [] !in allowed && DELETED_MARK !in allowed
  {
    if [] in allowed {
      BadContentIsNoGood(allowed, []);
    } else if DELETED_MARK in allowed {
      BadContentIsNoGood(allowed, DELETED_MARK);
    } else {
      GoodContentsDecide(allowed);
    }
  }

  /** Both users write, both events are handled, and only then do the two deliveries cross. */
  function CrossedEdits(path: Path, x: Bytes, y: Bytes): seq<NetAction> {
    [User(UserWrite(0, path, x)), User(UserWrite(1, path, y)), Open(0, path), Open(1, path), Arrive(0), Arrive(0),
     Open(0, path), Open(1, path)]
  }

  lemma NetUnfold(n: Net, acts: seq<NetAction>, k: nat, t: Net)
    requires k < |acts| && NetEnabled(n, acts[k]) && NetStep(n, acts[k]) == t
    ensures NetLegal(n, acts[k..]) <==> NetLegal(t, acts[k + 1..])
    ensures NetLegal(t, acts[k + 1..]) ==> NetRun(n, acts[k..]) == NetRun(t, acts[k + 1..])
  {
    assert acts[k..][1..] == acts[k + 1..];
  }

  lemma CrossedStart(path: Path, x: Bytes, y: Bytes)
    ensures var s := At(path, Some(x), None, true, Some(y), None, true);
      var a := Opened(Net(s, []), 0, path);
      && a == Net(At(path, Some(x), Some(x), false, Some(y), None, true), [Parcel(1, path, FileData(x, false))])
      && Opened(a, 1, path) == Net(At(path, Some(x), Some(x), false, Some(y), Some(y), false),
           [Parcel(1, path, FileData(x, false)), Parcel(0, path, FileData(y, false))])
  {
    var s := At(path, Some(x), None, true, Some(y), None, true);
    Sides("a", path, Some(x), None, true, x);
    Sides("a", path, Some(x), None, false, x);
    Sides("b", path, Some(y), None, true, y);
    Sides("b", path, Some(y), None, false, y);
    var fd := FileData(x, false);
    assert s[0].Payload(path) == fd && s[1].Payload(path) == FileData(y, false);
    assert Parcels(s, 0, path, fd, 2) == [] && Parcels(s, 0, path, fd, 1) == [Parcel(1, path, fd)];
    var t := At(path, Some(x), Some(x), false, Some(y), None, true);
    assert Opened(Net(s, []), 0, path).peers == t;
    var fe := FileData(y, false);
    assert t[1].Payload(path) == fe;
    assert Parcels(t, 1, path, fe, 2) == [] && Parcels(t, 1, path, fe, 1) == [];
  }

  lemma CrossedArrivals(path: Path, x: Bytes, y: Bytes)
    requires x != y
    ensures var s := At(path, Some(x), Some(x), false, Some(y), Some(y), false);
      var n := Net(s, [Parcel(1, path, FileData(x, false)), Parcel(0, path, FileData(y, false))]);
      && NetStep(n, Arrive(0)) == Net(At(path, Some(x), Some(x), false, Some(x), Some(x), true),
                                      [Parcel(0, path, FileData(y, false))])
      && NetStep(NetStep(n, Arrive(0)), Arrive(0)) == Net(At(path, Some(y), Some(y), true, Some(x), Some(x), true), [])
  {
    Sides("b", path, Some(y), Some(y), false, x);
    Sides("b", path, Some(x), Some(y), true, x);
    Sides("a", path, Some(x), Some(x), false, y);
    Sides("a", path, Some(y), Some(x), true, y);
  }

  lemma CrossedEnd(path: Path, x: Bytes, y: Bytes)
    ensures var s := At(path, Some(y), Some(y), true, Some(x), Some(x), true);
      Opened(Opened(Net(s, []), 0, path), 1, path) == Net(At(path, Some(y), Some(y), false, Some(x), Some(x), false), [])
    ensures Opened(Net(At(path, Some(y), Some(y), true, Some(x), Some(x), true), []), 0, path) ==
      Net(At(path, Some(y), Some(y), false, Some(x), Some(x), true), [])
  {
    Sides("a", path, Some(y), Some(y), true, []);
    Sides("b", path, Some(x), Some(x), true, []);
  }

  lemma CrossedRunEnds(path: Path, x: Bytes, y: Bytes)
    requires x != y
    ensures var acts := CrossedEdits(path, x, y);
      var n := Net(At(path, Some(x), Some(x), false, Some(y), Some(y), false),
                   [Parcel(1, path, FileData(x, false)), Parcel(0, path, FileData(y, false))]);
      && NetLegal(n, acts[4..])
      && NetRun(n, acts[4..]) == Net(At(path, Some(y), Some(y), false, Some(x), Some(x), false), [])
  {
    var acts := CrossedEdits(path, x, y);
    var n4 := Net(At(path, Some(x), Some(x), false, Some(y), Some(y), false),
                  [Parcel(1, path, FileData(x, false)), Parcel(0, path, FileData(y, false))]);
    var n5 := Net(At(path, Some(x), Some(x), false, Some(x), Some(x), true), [Parcel(0, path, FileData(y, false))]);
    var n6 := Net(At(path, Some(y), Some(y), true, Some(x), Some(x), true), []);
    var n7 := Net(At(path, Some(y), Some(y), false, Some(x), Some(x), true), []);
    var n8 := Net(At(path, Some(y), Some(y), false, Some(x), Some(x), false), []);
    CrossedArrivals(path, x, y);
    CrossedEnd(path, x, y);
    NetUnfold(n4, acts, 4, n5);
    NetUnfold(n5, acts, 5, n6);
    NetUnfold(n6, acts, 6, n7);
    NetUnfold(n7, acts, 7, n8);
    assert acts[8..] == [];
  }

  lemma CrossedRunStarts(path: Path, x: Bytes, y: Bytes)
    ensures var acts := CrossedEdits(path, x, y);
      var n := Net(At(path, Some(x), Some(x), false, Some(y), Some(y), false),
                   [Parcel(1, path, FileData(x, false)), Parcel(0, path, FileData(y, false))]);
      NetLegal(n, acts[4..]) ==> NetLegal(Net(Pair(), []), acts) && NetRun(Net(Pair(), []), acts) == NetRun(n, acts[4..])
  {
    var acts := CrossedEdits(path, x, y);
    var n1 := Net(At(path, Some(x), None, true, None, None, false), []);
    var n2 := Net(At(path, Some(x), None, true, Some(y), None, true), []);
    var n3 := Net(At(path, Some(x), Some(x), false, Some(y), None, true), [Parcel(1, path, FileData(x, false))]);
    var n4 := Net(At(path, Some(x), Some(x), false, Some(y), Some(y), false),
                  [Parcel(1, path, FileData(x, false)), Parcel(0, path, FileData(y, false))]);
    assert Pair() == At(path, None, None, false, None, None, false);
    PairWrite(path, None, None, false, None, None, false, x);
    PairWrite(path, Some(x), None, true, None, None, false, y);
    CrossedStart(path, x, y);
    NetUnfold(Net(Pair(), []), acts, 0, n1);
    NetUnfold(n1, acts, 1, n2);
    NetUnfold(n2, acts, 2, n3);
    NetUnfold(n3, acts, 3, n4);
    assert acts[0..] == acts;
  }

  /**
    Overlap.NetRunDecides needs the events of one path in one group not to overlap: when their deliveries cross, any two
    different contents can end up swapped, with no event and no delivery left to repair it.
   */
  lemma CrossedEditsDiverge(path: Path, x: Bytes, y: Bytes)
    requires x != y
    ensures var n := Net(Pair(), []);
      && NetLegal(n, CrossedEdits(path, x, y))
      && var t := NetRun(n, CrossedEdits(path, x, y));
         t.flight == [] && Quiet(t.peers, "g", path) && !Agree(t.peers, "g", path)
  {
    CrossedRunStarts(path, x, y);
    CrossedRunEnds(path, x, y);
    var s := At(path, Some(y), Some(y), false, Some(x), Some(x), false);
    assert s[0].File(path) == Some(y) && s[1].File(path) == Some(x);
  }
}

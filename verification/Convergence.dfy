/**
  When the peers of a group end up with the same files. Every change event is handled to the end before the next
  action, and no write or delete on disk fails; Overlap.dfy lets deliveries overlap.
 */
module Convergence {
  import opened Types
  import opened SyncPeers

  /** The change that the hub sent last on a path; before the first one, the file that quiet members hold. */
  datatype Last = Never(file: Option<Bytes>) | LastPut(content: Bytes) | LastDelete

  predicate GoodContent(c: Bytes) {
    c != [] && c != DELETED_MARK
  }

  predicate GoodFiles(s: System) {
    forall i, path | 0 <= i < |s| && path in s[i].files :: GoodContent(s[i].files[path])
  }

  predicate Tombstoned(p: Peer, path: Path) {
    p.Cached(path) == Some([]) || p.Cached(path) == Some(DELETED_MARK)
  }

  predicate GoodCached(p: Peer, path: Path) {
    p.Cached(path).Some? && GoodContent(p.Cached(path).value)
  }

  predicate Matches(file: Option<Bytes>, last: Last) {
    match last
    case Never(f) => file == f
    case LastPut(c) => file == Some(c)
    case LastDelete => file == None
  }

  /** What the caches of a group say about the last change: they agree on a put, and remember no change as None. */
  predicate CachesFit(s: System, group: string, path: Path, last: Last) {
    match last
    case Never(_) => forall i | 0 <= i < |s| && s[i].group == group :: s[i].Cached(path) == None
    case LastPut(c) => GoodContent(c) && forall i | 0 <= i < |s| && s[i].group == group :: s[i].Cached(path) == Some(c)
    case LastDelete => exists i :: 0 <= i < |s| && s[i].group == group && Tombstoned(s[i], path)
  }

  predicate PendingOrMatches(s: System, group: string, path: Path, last: Last) {
    forall i | 0 <= i < |s| && s[i].group == group :: path in s[i].pending || Matches(s[i].File(path), last)
  }

  predicate Settling(s: System, group: string, path: Path, last: Last) {
    CachesFit(s, group, path, last) && PendingOrMatches(s, group, path, last)
  }

  ghost predicate Tracked(s: System, group: string, path: Path) {
    exists last :: Settling(s, group, path, last)
  }

  predicate Agree(s: System, group: string, path: Path) {
    forall i, j | 0 <= i < |s| && 0 <= j < |s| && s[i].group == group && s[j].group == group ::
      s[i].File(path) == s[j].File(path)
  }

  predicate Quiet(s: System, group: string, path: Path) {
    forall i | 0 <= i < |s| && s[i].group == group :: path !in s[i].pending
  }

  /** The cache of a peer speaks of its file, unless it is empty or an event is open. */
  predicate Known(p: Peer, path: Path) {
    path in p.pending || p.Cached(path) == None || p.Cached(path) == Some(p.Payload(path).data)
  }

  /** Once a file has gone round, every member has cached something. */
  predicate Gone(s: System, group: string, path: Path) {
    (exists i :: 0 <= i < |s| && s[i].group == group && GoodCached(s[i], path)) ==>
      forall j | 0 <= j < |s| && s[j].group == group :: s[j].Cached(path).Some?
  }

  /** What every action keeps, whatever becomes of the events. */
  ghost predicate Base(s: System) {
    && DistinctNames(s)
    && GoodFiles(s)
    && (forall i, path | 0 <= i < |s| :: Known(s[i], path))
    && (forall group, path :: Gone(s, group, path))
  }

  ghost predicate Inv(s: System) {
    Base(s) && forall group, path :: Tracked(s, group, path)
  }

  /** The event of peer i on path is sent to the group. */
  predicate Dispatches(s: System, i: nat, path: Path)
    requires i < |s|
  {
    s[i].Cached(path) != Some(s[i].Payload(path).data)
  }

  /**
    The event of peer i on path would be dropped as a repeat although the group has moved on: the file holds just
    the bytes that the peer last saw synced, while some member of the group has another hash in its cache.
   */
  predicate Swallowed(s: System, i: nat, path: Path)
    requires i < |s|
  {
    && s[i].File(path).Some?
    && s[i].Cached(path) == s[i].File(path)
    && exists j :: 0 <= j < |s| && s[j].group == s[i].group && s[j].Cached(path) != s[i].Cached(path)
  }

  predicate Concerns(s: System, a: Action, group: string, path: Path)
    requires a.peer < |s|
  {
    a.ProcessChange? && a.path == path && s[a.peer].group == group
  }

  // -------- one event --------

  /** A file that is sent brings the group on track, whatever happened before. */
  lemma PutReaches(s: System, i: nat, path: Path)
    requires i < |s| && Base(s)
    requires s[i].File(path).Some? && Dispatches(s, i, path)
    ensures Settling(Change(s, i, path), s[i].group, path, LastPut(s[i].files[path]))
  {
    var t := Change(s, i, path);
    var c := s[i].files[path];
    forall j | 0 <= j < |s| && s[j].group == s[i].group
      ensures t[j].Cached(path) == Some(c)
      ensures path in t[j].pending || t[j].File(path) == Some(c)
    {
      assert j != i ==> s[j].name != s[i].name;
      assert Known(s[j], path);
    }
  }

  /** So does a deletion that is sent. */
  lemma DeleteReaches(s: System, i: nat, path: Path)
    requires i < |s| && Base(s)
    requires s[i].File(path).None? && Dispatches(s, i, path)
    ensures Settling(Change(s, i, path), s[i].group, path, LastDelete)
  {
    var t := Change(s, i, path);
    assert Tombstoned(t[i], path);
    forall j | 0 <= j < |s| && s[j].group == s[i].group
      ensures path in t[j].pending || t[j].File(path) == None
    {
      assert j != i ==> s[j].name != s[i].name;
      assert Known(s[j], path);
    }
  }

  lemma DispatchReaches(s: System, i: nat, path: Path)
    requires i < |s| && Base(s) && Dispatches(s, i, path)
    ensures Tracked(Change(s, i, path), s[i].group, path)
  {
    if s[i].File(path).Some? {
      PutReaches(s, i, path);
    } else {
      DeleteReaches(s, i, path);
    }
  }

  lemma SkipIsHarmless(s: System, i: nat, path: Path, last: Last)
    requires i < |s| && GoodFiles(s)
    requires Settling(s, s[i].group, path, last)
    requires !Dispatches(s, i, path) && !Swallowed(s, i, path)
    ensures Settling(Change(s, i, path), s[i].group, path, last)
  {
    var t := Change(s, i, path);
    assert forall j | 0 <= j < |s| :: t[j].Cached(path) == s[j].Cached(path) && t[j].File(path) == s[j].File(path);
    assert s[i].File(path).Some? ==> GoodContent(s[i].files[path]);
    if last.LastDelete? {
      var j :| 0 <= j < |s| && s[j].group == s[i].group && Tombstoned(s[j], path);
      assert Tombstoned(t[j], path);
    }
  }

  lemma SwallowedLosesTrack(s: System, i: nat, path: Path, last: Last)
    requires i < |s| && GoodFiles(s)
    requires Settling(s, s[i].group, path, last)
    requires Swallowed(s, i, path)
    ensures last == LastDelete
    ensures !Tracked(Change(s, i, path), s[i].group, path)
  {
    var t := Change(s, i, path);
    var j :| 0 <= j < |s| && s[j].group == s[i].group && s[j].Cached(path) != s[i].Cached(path);
    assert t[i].Cached(path) == s[i].Cached(path) && t[j].Cached(path) == s[j].Cached(path);
    forall l ensures !Settling(t, s[i].group, path, l) {
      assert l != LastDelete ==> !CachesFit(t, s[i].group, path, l);
    }
  }

  /** The step that decides: an event keeps the group on track exactly when it is not swallowed. */
  lemma ChangeKeepsTrackIff(s: System, i: nat, path: Path)
    requires i < |s| && Base(s) && Tracked(s, s[i].group, path)
    ensures Tracked(Change(s, i, path), s[i].group, path) <==> !Swallowed(s, i, path)
  {
    var last :| Settling(s, s[i].group, path, last);
    if Dispatches(s, i, path) {
      DispatchReaches(s, i, path);
    } else if Swallowed(s, i, path) {
      SwallowedLosesTrack(s, i, path, last);
    } else {
      SkipIsHarmless(s, i, path, last);
    }
  }

  // -------- what every action keeps --------

  /** What a step leaves alone at a peer, unless it is the handling of a change of that path in that group. */
  lemma StepFrame(s: System, a: Action, i: nat, path: Path)
    requires Enabled(s, a) && i < |s| && !Concerns(s, a, s[i].group, path)
    ensures |Step(s, a)| == |s| && Step(s, a)[i].group == s[i].group
    ensures Step(s, a)[i].Cached(path) == s[i].Cached(path)
    ensures path in s[i].pending ==> path in Step(s, a)[i].pending
    ensures path in Step(s, a)[i].pending || Step(s, a)[i].File(path) == s[i].File(path)
    ensures path in Step(s, a)[i].pending ==> path in s[i].pending || (a.path == path && a.peer == i)
  {}

  lemma StepKeepsKnown(s: System, a: Action, i: nat, path: Path)
    requires Enabled(s, a) && i < |s| && Known(s[i], path)
    ensures |Step(s, a)| == |s| && Known(Step(s, a)[i], path)
  {}

  lemma ChangeCaches(s: System, i: nat, path: Path, j: nat)
    requires i < |s| && j < |s| && DistinctNames(s) && s[j].group == s[i].group
    ensures var t := Change(s, i, path);
      && (s[j].Cached(path).Some? ==> t[j].Cached(path).Some?)
      && (s[i].File(path).Some? && Dispatches(s, i, path) ==> t[j].Cached(path).Some?)
      && (GoodCached(t[j], path) ==> GoodCached(s[j], path) || (s[i].File(path).Some? && Dispatches(s, i, path)))
  {
    assert j != i ==> s[j].name != s[i].name;
  }

  lemma StepKeepsGone(s: System, a: Action, group: string, path: Path)
    requires Enabled(s, a) && DistinctNames(s) && Gone(s, group, path)
    ensures Gone(Step(s, a), group, path)
  {
    var t := Step(s, a);
    StepKeepsNames(s, a);
    if i :| 0 <= i < |t| && t[i].group == group && GoodCached(t[i], path) {
      forall j | 0 <= j < |t| && t[j].group == group ensures t[j].Cached(path).Some? {
        if Concerns(s, a, group, path) {
          ChangeCaches(s, a.peer, path, i);
          ChangeCaches(s, a.peer, path, j);
        } else {
          StepFrame(s, a, i, path);
          StepFrame(s, a, j, path);
        }
      }
    }
  }

  lemma StepKeepsGoodFiles(s: System, a: Action)
    requires Enabled(s, a) && GoodFiles(s) && (a.UserWrite? ==> GoodContent(a.content))
    ensures GoodFiles(Step(s, a))
  {}

  lemma StepKeepsBase(s: System, a: Action)
    requires Base(s) && Enabled(s, a)
    requires a.UserWrite? ==> GoodContent(a.content)
    ensures Base(Step(s, a))
  {
    var t := Step(s, a);
    StepKeepsNames(s, a);
    StepKeepsGoodFiles(s, a);
    forall i, path | 0 <= i < |t| ensures Known(t[i], path) {
      StepKeepsKnown(s, a, i, path);
    }
    forall group, path ensures Gone(t, group, path) {
      StepKeepsGone(s, a, group, path);
    }
  }

  lemma UntouchedKeepsTrack(s: System, a: Action, group: string, path: Path, last: Last)
    requires Enabled(s, a) && Settling(s, group, path, last) && !Concerns(s, a, group, path)
    ensures Settling(Step(s, a), group, path, last)
  {
    var t := Step(s, a);
    StepKeepsNames(s, a);
    forall i | 0 <= i < |s| && s[i].group == group
      ensures t[i].Cached(path) == s[i].Cached(path)
      ensures path in s[i].pending ==> path in t[i].pending
      ensures path in t[i].pending || t[i].File(path) == s[i].File(path)
    {
      StepFrame(s, a, i, path);
    }
    if last.LastDelete? {
      var i :| 0 <= i < |s| && s[i].group == group && Tombstoned(s[i], path);
      assert Tombstoned(t[i], path);
    }
  }

  lemma StepKeepsInv(s: System, a: Action)
    requires Inv(s) && Enabled(s, a)
    requires a.UserWrite? ==> GoodContent(a.content)
    requires a.ProcessChange? ==> !Swallowed(s, a.peer, a.path)
    ensures Inv(Step(s, a))
  {
    var t := Step(s, a);
    StepKeepsBase(s, a);
    forall group, path ensures Tracked(t, group, path) {
      assert Tracked(s, group, path);
      var last :| Settling(s, group, path, last);
      if Concerns(s, a, group, path) {
        ChangeKeepsTrackIff(s, a.peer, path);
      } else {
        UntouchedKeepsTrack(s, a, group, path, last);
      }
    }
  }

  // -------- off the track --------

  predicate CachesSplit(s: System, group: string, path: Path, i: int, j: int) {
    && 0 <= i < |s| && 0 <= j < |s| && s[i].group == group && s[j].group == group
    && GoodCached(s[i], path) && s[j].Cached(path).Some? && s[j].Cached(path) != s[i].Cached(path)
  }

  /** No change has gone round yet, and the members differ or some event is still open. */
  predicate Unaligned(s: System, group: string, path: Path) {
    && (forall i | 0 <= i < |s| && s[i].group == group :: s[i].Cached(path) == None)
    && !(Quiet(s, group, path) && Agree(s, group, path))
  }

  /** A swallowed event leaves a split between the caches; a bad start leaves the members unaligned. */
  predicate Lost(s: System, group: string, path: Path) {
    (exists i, j | 0 <= i < |s| && 0 <= j < |s| :: CachesSplit(s, group, path, i, j)) || Unaligned(s, group, path)
  }

  lemma SwallowedIsLost(s: System, i: nat, path: Path)
    requires i < |s| && Base(s) && Swallowed(s, i, path)
    ensures Lost(Change(s, i, path), s[i].group, path)
  {
    var t := Change(s, i, path);
    var j :| 0 <= j < |s| && s[j].group == s[i].group && s[j].Cached(path) != s[i].Cached(path);
    assert GoodCached(s[i], path) && Gone(s, s[i].group, path);
    assert CachesSplit(t, s[i].group, path, i, j);
  }

  lemma SkipStaysLost(s: System, i: nat, path: Path)
    requires i < |s| && !Dispatches(s, i, path) && Lost(s, s[i].group, path)
    ensures Lost(Change(s, i, path), s[i].group, path)
  {
    var t, group := Change(s, i, path), s[i].group;
    assert s[i].Cached(path).Some? && !Unaligned(s, group, path);
    var j, k :| 0 <= j < |s| && 0 <= k < |s| && CachesSplit(s, group, path, j, k);
    assert CachesSplit(t, group, path, j, k);
  }

  lemma UntouchedStaysUnaligned(s: System, a: Action, group: string, path: Path)
    requires Enabled(s, a) && !Concerns(s, a, group, path) && Unaligned(s, group, path)
    ensures Unaligned(Step(s, a), group, path)
  {
    var t := Step(s, a);
    StepKeepsNames(s, a);
    forall i | 0 <= i < |s| && s[i].group == group
      ensures t[i].Cached(path) == None
      ensures path in s[i].pending ==> path in t[i].pending
      ensures path in t[i].pending || t[i].File(path) == s[i].File(path)
    {
      StepFrame(s, a, i, path);
    }
  }

  lemma UntouchedStaysLost(s: System, a: Action, group: string, path: Path)
    requires Enabled(s, a) && !Concerns(s, a, group, path) && Lost(s, group, path)
    ensures Lost(Step(s, a), group, path)
  {
    if i, j :| CachesSplit(s, group, path, i, j) {
      StepFrame(s, a, i, path);
      StepFrame(s, a, j, path);
      assert CachesSplit(Step(s, a), group, path, i, j);
    } else {
      UntouchedStaysUnaligned(s, a, group, path);
    }
  }

  lemma QuietAgrees(s: System, group: string, path: Path)
    requires Tracked(s, group, path) && Quiet(s, group, path)
    ensures Agree(s, group, path)
  {
    var last :| Settling(s, group, path, last);
    assert forall i | 0 <= i < |s| && s[i].group == group :: Matches(s[i].File(path), last);
  }

  lemma QuietDisagrees(s: System, group: string, path: Path)
    requires (forall i | 0 <= i < |s| :: Known(s[i], path)) && Lost(s, group, path) && Quiet(s, group, path)
    ensures !Agree(s, group, path)
  {
    if i, j :| CachesSplit(s, group, path, i, j) {
      assert Known(s[i], path) && Known(s[j], path);
      assert s[i].File(path) != s[j].File(path);
    }
  }

  // -------- whole runs --------

  /** Just started, for the first time or again: the in-memory caches are empty. What is pending is left open. */
  predicate Blank(s: System) {
    DistinctNames(s) && GoodFiles(s) && forall i | 0 <= i < |s| :: s[i].cache == map[]
  }

  /** The members of the group that report nothing hold the same file, or none. */
  predicate Aligned(s: System, group: string, path: Path) {
    forall i, j | 0 <= i < |s| && 0 <= j < |s| && s[i].group == group && s[j].group == group ::
      path in s[i].pending || path in s[j].pending || s[i].File(path) == s[j].File(path)
  }

  ghost predicate AllAligned(s: System) {
    forall group, path :: Aligned(s, group, path)
  }

  predicate WritesAmong(acts: seq<Action>, allowed: iset<Bytes>) {
    forall k | 0 <= k < |acts| && acts[k].UserWrite? :: acts[k].content in allowed
  }

  predicate FilesAmong(s: System, allowed: iset<Bytes>) {
    forall i, path | 0 <= i < |s| && path in s[i].files :: s[i].files[path] in allowed
  }

  /** An event that is sent puts the group on track, a swallowed one takes it off; nothing else matters. */
  predicate TrackAfter(s: System, a: Action, group: string, path: Path, before: bool)
    requires a.peer < |s|
  {
    if !Concerns(s, a, group, path) then before
    else Dispatches(s, a.peer, path) || (before && !Swallowed(s, a.peer, path))
  }

  predicate OnTrack(s: System, acts: seq<Action>, group: string, path: Path, before: bool)
    requires Legal(s, acts)
    decreases |acts|
  {
    if acts == [] then before
    else OnTrack(Step(s, acts[0]), acts[1..], group, path, TrackAfter(s, acts[0], group, path, before))
  }

  ghost predicate Judged(s: System, group: string, path: Path, onTrack: bool) {
    Base(s) && if onTrack then Tracked(s, group, path) else Lost(s, group, path)
  }

  lemma BlankIsJudged(s: System, group: string, path: Path)
    requires Blank(s)
    ensures Base(s) && Judged(s, group, path, Aligned(s, group, path))
  {
    forall i, path | 0 <= i < |s| ensures Known(s[i], path) { }
    forall group, path ensures Gone(s, group, path) { }
    if Aligned(s, group, path) {
      if i :| 0 <= i < |s| && s[i].group == group && path !in s[i].pending {
        assert Settling(s, group, path, Never(s[i].File(path)));
      } else {
        assert Settling(s, group, path, Never(None));
      }
    }
  }

  lemma BlankInv(s: System)
    requires Blank(s) && AllAligned(s)
    ensures Inv(s)
  {
    forall group, path ensures Base(s) && Tracked(s, group, path) {
      assert Aligned(s, group, path);
      BlankIsJudged(s, group, path);
    }
    BlankIsJudged(s, "", "");
  }

  lemma StepIsJudged(s: System, a: Action, group: string, path: Path, before: bool)
    requires Enabled(s, a) && (a.UserWrite? ==> GoodContent(a.content)) && Judged(s, group, path, before)
    ensures Judged(Step(s, a), group, path, TrackAfter(s, a, group, path, before))
  {
    StepKeepsBase(s, a);
    if !Concerns(s, a, group, path) {
      if before {
        var last :| Settling(s, group, path, last);
        UntouchedKeepsTrack(s, a, group, path, last);
      } else {
        UntouchedStaysLost(s, a, group, path);
      }
    } else if Dispatches(s, a.peer, path) {
      DispatchReaches(s, a.peer, path);
    } else if Swallowed(s, a.peer, path) {
      SwallowedIsLost(s, a.peer, path);
    } else if before {
      ChangeKeepsTrackIff(s, a.peer, path);
    } else {
      SkipStaysLost(s, a.peer, path);
    }
  }

  lemma {:induction false} RunIsJudged(s: System, acts: seq<Action>, group: string, path: Path, before: bool)
    requires Legal(s, acts) && WritesAmong(acts, iset c | GoodContent(c)) && Judged(s, group, path, before)
    ensures Judged(Run(s, acts), group, path, OnTrack(s, acts, group, path, before))
    decreases |acts|
  {
    if acts != [] {
      assert acts[0].UserWrite? ==> GoodContent(acts[0].content);
      StepIsJudged(s, acts[0], group, path, before);
      RunIsJudged(Step(s, acts[0]), acts[1..], group, path, TrackAfter(s, acts[0], group, path, before));
    }
  }

  /**
    The exact outcome of every run: a group with no event left on a path holds one file, or none, if and only if the
    last event that was sent or swallowed was sent; without any, if and only if the quiet members agreed at the start.
   */
  lemma RunDecides(s: System, acts: seq<Action>, group: string, path: Path)
    requires Blank(s) && Legal(s, acts) && WritesAmong(acts, iset c | GoodContent(c))
    requires Quiet(Run(s, acts), group, path)
    ensures Agree(Run(s, acts), group, path) <==> OnTrack(s, acts, group, path, Aligned(s, group, path))
  {
    var aligned := Aligned(s, group, path);
    BlankIsJudged(s, group, path);
    RunIsJudged(s, acts, group, path, aligned);
    if OnTrack(s, acts, group, path, aligned) {
      QuietAgrees(Run(s, acts), group, path);
    } else {
      QuietDisagrees(Run(s, acts), group, path);
    }
  }

  /** No event of the run is swallowed. */
  predicate NothingSwallowed(s: System, acts: seq<Action>)
    requires Legal(s, acts)
    decreases |acts|
  {
    acts == [] ||
    ((acts[0].ProcessChange? ==> !Swallowed(s, acts[0].peer, acts[0].path)) &&
     NothingSwallowed(Step(s, acts[0]), acts[1..]))
  }

  lemma {:induction false} StaysOnTrack(s: System, acts: seq<Action>, group: string, path: Path)
    requires Legal(s, acts) && NothingSwallowed(s, acts)
    ensures OnTrack(s, acts, group, path, true)
    decreases |acts|
  {
    if acts != [] {
      StaysOnTrack(Step(s, acts[0]), acts[1..], group, path);
    }
  }

  /** Safety over whole runs: whenever a group has no event left on a path, its members hold the same file or none. */
  lemma Convergence(s: System, acts: seq<Action>, group: string, path: Path)
    requires Blank(s) && Aligned(s, group, path)
    requires Legal(s, acts) && NothingSwallowed(s, acts)
    requires WritesAmong(acts, iset c | GoodContent(c))
    requires Quiet(Run(s, acts), group, path)
    ensures Agree(Run(s, acts), group, path)
  {
    StaysOnTrack(s, acts, group, path);
    RunDecides(s, acts, group, path);
  }

  /** Whatever happened before: a last event that is sent makes the group agree, one that is swallowed leaves it apart. */
  lemma LastEventDecides(s: System, i: nat, path: Path)
    requires i < |s| && Base(s)
    requires Quiet(Change(s, i, path), s[i].group, path)
    ensures Dispatches(s, i, path) ==> Agree(Change(s, i, path), s[i].group, path)
    ensures Swallowed(s, i, path) ==> !Agree(Change(s, i, path), s[i].group, path)
  {
    if Dispatches(s, i, path) {
      DispatchReaches(s, i, path);
      QuietAgrees(Change(s, i, path), s[i].group, path);
    } else if Swallowed(s, i, path) {
      StepKeepsBase(s, ProcessChange(i, path));
      SwallowedIsLost(s, i, path);
      QuietDisagrees(Change(s, i, path), s[i].group, path);
    }
  }

  // -------- a discipline for users that rules swallowing out --------

  /**
    A user does not bring back the bytes that the peer saw synced last while another member of the group remembers
    something else, that is, after a deletion made elsewhere arrived while the peer's own was still waiting.
   */
  predicate NoRevival(s: System, a: Action)
    requires Enabled(s, a)
  {
    a.UserWrite? && s[a.peer].Cached(a.path) == Some(a.content) ==>
      forall j | 0 <= j < |s| && s[j].group == s[a.peer].group :: s[j].Cached(a.path) == Some(a.content)
  }

  predicate Disciplined(s: System, acts: seq<Action>)
    requires Legal(s, acts)
    decreases |acts|
  {
    acts == [] || (NoRevival(s, acts[0]) && Disciplined(Step(s, acts[0]), acts[1..]))
  }

  predicate NoneSwallowed(s: System) {
    forall i, path | 0 <= i < |s| && path in s[i].files :: !Swallowed(s, i, path)
  }

  lemma HandledIsNotSwallowed(s: System, i: nat, path: Path, k: nat)
    requires i < |s| && k < |s| && s[k].group == s[i].group && Base(s) && NoneSwallowed(s)
    requires path in Change(s, i, path)[k].files
    ensures !Swallowed(Change(s, i, path), k, path)
  {
    var t := Change(s, i, path);
    var fd := s[i].Payload(path);
    assert forall j | 0 <= j < |s| && j != i :: s[j].name != s[i].name;
    assert path in s[k].files ==> !Swallowed(s, k, path) && GoodContent(s[k].files[path]);
    if s[i].Cached(path) == Some(fd.data) {
      assert forall j | 0 <= j < |s| :: t[j].Cached(path) == s[j].Cached(path);
    } else if !fd.deleted {
      assert forall j | 0 <= j < |s| && s[j].group == s[i].group :: t[j].Cached(path) == Some(fd.data);
    } else {
      assert t[k].Cached(path) == Some(DELETED_MARK);
    }
  }

  lemma DisciplineStep(s: System, a: Action)
    requires Base(s) && NoneSwallowed(s) && Enabled(s, a) && NoRevival(s, a)
    requires a.UserWrite? ==> GoodContent(a.content)
    ensures NoneSwallowed(Step(s, a))
  {
    var t := Step(s, a);
    StepKeepsNames(s, a);
    forall k, path | 0 <= k < |t| && path in t[k].files
      ensures !Swallowed(t, k, path)
    {
      if a.ProcessChange? && path == a.path && s[k].group == s[a.peer].group {
        HandledIsNotSwallowed(s, a.peer, path, k);
      } else {
        forall j | 0 <= j < |s| && s[j].group == s[k].group
          ensures t[j].Cached(path) == s[j].Cached(path)
        {
          StepFrame(s, a, j, path);
        }
        assert path in s[k].files ==> !Swallowed(s, k, path);
        if t[k].File(path) != s[k].File(path) {
          assert a == UserWrite(k, path, t[k].files[path]);
        }
      }
    }
  }

  lemma {:induction false} DisciplineSuffices(s: System, acts: seq<Action>)
    requires Base(s) && NoneSwallowed(s) && Legal(s, acts) && Disciplined(s, acts)
    requires WritesAmong(acts, iset c | GoodContent(c))
    ensures NothingSwallowed(s, acts)
    decreases |acts|
  {
    if acts != [] {
      assert acts[0].UserWrite? ==> GoodContent(acts[0].content);
      assert acts[0].ProcessChange? ==> !Swallowed(s, acts[0].peer, acts[0].path);
      StepKeepsBase(s, acts[0]);
      DisciplineStep(s, acts[0]);
      DisciplineSuffices(Step(s, acts[0]), acts[1..]);
    }
  }

  /** What a user can rely on: with ordinary contents and no revival, a group with no event left holds one state. */
  lemma DisciplinedRunsConverge(s: System, acts: seq<Action>, group: string, path: Path)
    requires Blank(s) && Aligned(s, group, path)
    requires Legal(s, acts) && Disciplined(s, acts)
    requires WritesAmong(acts, iset c | GoodContent(c))
    requires Quiet(Run(s, acts), group, path)
    ensures Agree(Run(s, acts), group, path)
  {
    BlankIsJudged(s, group, path);
    DisciplineSuffices(s, acts);
    Convergence(s, acts, group, path);
  }
}

/**
  Two starts on the same tree, the first with failing targets: what failed is sent again, and nothing else. Paths have
  no underscore in front here; OfflineScan.dfy shows what becomes of the others.
 */
module ScanFailures {
  import opened Types
  import opened FileTree
  import opened StatIndex
  import opened Vault
  import opened OfflineScan
  import Bridge
  import LruCache
  import Paths

  /** The targets that fail in one start, by the file and by the key whose deletion fails. */
  datatype Failures = Failures(files: set<Loc>, keys: set<string>)

  predicate NoneInFront(t: Tree, stats: Index) {
    (forall p | p in t && IsVisibleFile(t, p) :: !("_" <= NameOf(p))) && forall k | k in stats :: !("_" <= k)
  }

  ghost predicate Sane(t: Tree, stats: Index) {
    WellFormed(t) && ProperTree(t) && StatKeys(stats) && NoneInFront(t, stats)
  }

  /** The order of the walk, and that of the store when the second scan begins. */
  ghost predicate OrdersWith(t: Tree, stats: Index, walk: seq<Loc>, keys: seq<string>, failures: Failures) {
    && Lists(walk, VisibleFiles(t)) && AllVisible(t, walk)
    && Lists(keys, Walked(t, Begin(stats), walk, failures.files).stats.Keys)
  }

  /** Both scans of a start. */
  function Start(t: Tree, stats: Index, walk: seq<Loc>, keys: seq<string>, failures: Failures): Scan
    requires AllVisible(t, walk)
  {
    AllDeleted(Walked(t, Begin(stats), walk, failures.files), VanishedKeys(t, keys), failures.keys)
  }

  predicate FileFailed(t: Tree, stats: Index, p: Loc, failures: Failures) {
    HasChanged(t, stats, p) && p in failures.files
  }

  predicate KeyFailed(t: Tree, stats: Index, k: string, failures: Failures) {
    k in stats && Vanished(t, k) && k in failures.keys
  }

  // -------- the first start --------

  /** A start by its results: w is reached between the two scans, r at the end, and files and gone were dispatched. */
  ghost predicate Started(
    t: Tree, stats: Index, walk: seq<Loc>, keys: seq<string>, failures: Failures,
    w: Scan, files: seq<Loc>, r: Scan, gone: seq<string>)
  {
    && WalkResult(t, stats, walk, failures.files, files, w.stats, w.sent) && CacheOf(t, w.recent, files)
    && DropResult(w, VanishedKeys(t, keys), failures.keys, gone, r.stats, r.sent)
    && (forall p :: p in walk <==> IsVisibleFile(t, p)) && (forall k :: k in keys <==> k in w.stats)
  }

  lemma StartIsStarted(t: Tree, stats: Index, walk: seq<Loc>, keys: seq<string>, failures: Failures)
    returns (w: Scan, files: seq<Loc>, r: Scan, gone: seq<string>)
    requires Sane(t, stats) && OrdersWith(t, stats, walk, keys, failures)
    ensures Started(t, stats, walk, keys, failures, w, files, r, gone) && r == Start(t, stats, walk, keys, failures)
  {
    w, files := Walked(t, Begin(stats), walk, failures.files), Dispatched(t, Begin(stats), walk, failures.files);
    r, gone := Start(t, stats, walk, keys, failures), DispatchedKeys(w, VanishedKeys(t, keys), failures.keys);
    WalkResults(t, stats, walk, failures.files);
    WalkCaches(t, Begin(stats), walk, failures.files);
    VanishedDistinct(t, keys);
    DropResults(w, VanishedKeys(t, keys), failures.keys);
    assert forall p :: p in VisibleFiles(t) <==> IsVisibleFile(t, p);
    assert forall k :: k in w.stats.Keys <==> k in w.stats;
  }

  lemma SameName(t: Tree, p: Loc, q: Loc)
    requires WellFormed(t) && ProperTree(t) && IsVisibleFile(t, p) && IsVisibleFile(t, q) && NameOf(p) == NameOf(q)
    ensures p == q
  {
    FileHasName(t, p);
    FileHasName(t, q);
  }

  lemma FileKeyIsName(t: Tree, stats: Index, p: Loc)
    requires Sane(t, stats) && IsVisibleFile(t, p)
    ensures FileKey(p) == NameOf(p)
  {}

  /** Every changed file is dispatched, for no two files share a name. */
  lemma ChangedAreDispatched(t: Tree, stats: Index, walk: seq<Loc>, failing: set<Loc>, files: seq<Loc>, after: Index, sent: seq<Sent>, p: Loc)
    requires Sane(t, stats) && WalkResult(t, stats, walk, failing, files, after, sent)
    requires p in walk && HasChanged(t, stats, p)
    ensures p in files
  {
    if p !in files {
      var q :| q in files && Shares(t, p, q);
      SharersAreSame(t, stats, p, q);
    }
  }

  lemma SharersAreSame(t: Tree, stats: Index, p: Loc, q: Loc)
    requires Sane(t, stats) && IsVisibleFile(t, p) && IsVisibleFile(t, q) && FileKey(p) == FileKey(q)
    ensures p == q
  {
    FileKeyIsName(t, stats, p);
    FileKeyIsName(t, stats, q);
    SameName(t, p, q);
  }

  lemma FileIsThere(t: Tree, p: Loc)
    requires WellFormed(t) && ProperTree(t) && IsVisibleFile(t, p)
    ensures !Vanished(t, NameOf(p)) && NamesFile(t, NameOf(p)) && LocOf(NameOf(p)) == p
  {
    FileHasName(t, p);
  }

  lemma NamedFile(t: Tree, stats: Index, key: string)
    requires Sane(t, stats) && NamesFile(t, key)
    ensures key == NameOf(LocOf(key)) && !Vanished(t, key) && !("_" <= key)
  {
    NamedKey(key);
    FileIsThere(t, LocOf(key));
  }

  /** The index between the two scans, for the key of a file. */
  lemma FileBetween(t: Tree, stats: Index, walk: seq<Loc>, failures: Failures, files: seq<Loc>, after: Index, sent: seq<Sent>, key: string)
    requires Sane(t, stats) && WalkResult(t, stats, walk, failures.files, files, after, sent)
    requires NamesFile(t, key) && LocOf(key) in walk
    ensures FileFailed(t, stats, LocOf(key), failures) ==> Lookup(after, key) == Lookup(stats, key)
    ensures !FileFailed(t, stats, LocOf(key), failures) ==> Lookup(after, key) == Some(StatOf(t[LocOf(key)]))
  {
    var p := LocOf(key);
    NamedFile(t, stats, key);
    if FileFailed(t, stats, p, failures) {
      ChangedAreDispatched(t, stats, walk, failures.files, files, after, sent, p);
      assert StoredBefore(t, walk, failures.files, files, key);
    } else {
      assert !HasChanged(t, after, p);
    }
  }

  /** The index between the two scans. */
  lemma BetweenScans(t: Tree, stats: Index, walk: seq<Loc>, failures: Failures, files: seq<Loc>, after: Index, sent: seq<Sent>, key: string)
    requires Sane(t, stats) && WalkResult(t, stats, walk, failures.files, files, after, sent)
    requires forall p :: p in walk <==> IsVisibleFile(t, p)
    ensures Lookup(after, key) ==
      if NamesFile(t, key) && !FileFailed(t, stats, LocOf(key), failures) then Some(StatOf(t[LocOf(key)])) else Lookup(stats, key)
  {
    if NamesFile(t, key) {
      FileBetween(t, stats, walk, failures, files, after, sent, key);
    } else {
      assert StoredBefore(t, walk, failures.files, files, key);
    }
  }

  /** The keys of the store are paths without an underscore in front, and dropped under themselves. */
  lemma KeyInFront(t: Tree, stats: Index, walk: seq<Loc>, failures: Failures, files: seq<Loc>, after: Index, sent: seq<Sent>, k: string)
    requires Sane(t, stats) && WalkResult(t, stats, walk, failures.files, files, after, sent)
    requires (forall p :: p in walk <==> IsVisibleFile(t, p)) && k in after
    ensures !("_" <= k) && StatKey(k) && Paths.KeyOf(k) == k && DropKey(k) == k
  {
    BetweenScans(t, stats, walk, failures, files, after, sent, k);
    if NamesFile(t, k) {
      NamedFile(t, stats, k);
    }
    DropIs(k);
  }

  /** A vanished key is in the store between the scans exactly if it was at the start. */
  lemma VanishedBetween(t: Tree, stats: Index, walk: seq<Loc>, failures: Failures, files: seq<Loc>, after: Index, sent: seq<Sent>, k: string)
    requires Sane(t, stats) && WalkResult(t, stats, walk, failures.files, files, after, sent)
    requires (forall p :: p in walk <==> IsVisibleFile(t, p)) && Vanished(t, k)
    ensures k in after <==> k in stats
  {
    BetweenScans(t, stats, walk, failures, files, after, sent, k);
    if NamesFile(t, k) {
      NamedFile(t, stats, k);
    }
  }

  /** The cache knows only files that are there. */
  lemma NoVanishedCached(t: Tree, stats: Index, recent: Bridge.Recent, files: seq<Loc>, k: string)
    requires Sane(t, stats) && CacheOf(t, recent, files) && Vanished(t, k)
    ensures k !in LruCache.Contents(recent)
  {
    if k in LruCache.Contents(recent) {
      var q :| q in files && FileKey(q) == k && t[q].data == LruCache.Contents(recent)[k];
      FileKeyIsName(t, stats, q);
      FileIsThere(t, q);
    }
  }

  /** Every vanished key is dispatched: the cache does not know it, and no other one is converted to it. */
  lemma VanishedIsDispatched(
    t: Tree, stats: Index, walk: seq<Loc>, keys: seq<string>, failures: Failures,
    w: Scan, files: seq<Loc>, r: Scan, gone: seq<string>, k: string)
    requires Sane(t, stats) && Started(t, stats, walk, keys, failures, w, files, r, gone)
    requires k in VanishedKeys(t, keys)
    ensures k in gone
  {
    VanishedIs(t, keys);
    KeyInFront(t, stats, walk, failures, files, w.stats, w.sent, k);
    NoVanishedCached(t, stats, w.recent, files, k);
    if d :| d in gone && Paths.KeyOf(d) == Paths.KeyOf(k) {
      assert d in VanishedKeys(t, keys);
      KeyInFront(t, stats, walk, failures, files, w.stats, w.sent, d);
    }
  }

  /** What the deletions forget: the vanished keys whose target did not fail. */
  lemma ForgetsWhatIsGone(
    t: Tree, stats: Index, walk: seq<Loc>, keys: seq<string>, failures: Failures,
    w: Scan, files: seq<Loc>, r: Scan, gone: seq<string>, key: string)
    requires Sane(t, stats) && Started(t, stats, walk, keys, failures, w, files, r, gone)
    ensures Forgets(VanishedKeys(t, keys), failures.keys, gone, key) <==>
      key in stats && Vanished(t, key) && key !in failures.keys
  {
    var all := VanishedKeys(t, keys);
    VanishedIs(t, keys);
    if Vanished(t, key) {
      VanishedBetween(t, stats, walk, failures, files, w.stats, w.sent, key);
    }
    if k :| k in all && DropKey(k) == key && !(k in failures.keys && k in gone) {
      KeyInFront(t, stats, walk, failures, files, w.stats, w.sent, k);
      VanishedIsDispatched(t, stats, walk, keys, failures, w, files, r, gone, k);
    }
    if key in all {
      KeyInFront(t, stats, walk, failures, files, w.stats, w.sent, key);
    }
  }

  /** What the first start leaves under a key: it holds on to what failed, and to nothing else that is out of date. */
  lemma StartLeaves(t: Tree, stats: Index, walk: seq<Loc>, keys: seq<string>, failures: Failures, key: string)
    requires Sane(t, stats) && OrdersWith(t, stats, walk, keys, failures)
    ensures Lookup(Start(t, stats, walk, keys, failures).stats, key) ==
      if key in stats && Vanished(t, key) then (if key in failures.keys then Lookup(stats, key) else None)
      else if NamesFile(t, key) && !FileFailed(t, stats, LocOf(key), failures) then Some(StatOf(t[LocOf(key)]))
      else Lookup(stats, key)
  {
    var w, files, r, gone := StartIsStarted(t, stats, walk, keys, failures);
    ForgetsWhatIsGone(t, stats, walk, keys, failures, w, files, r, gone, key);
    BetweenScans(t, stats, walk, failures, files, w.stats, w.sent, key);
    if NamesFile(t, key) {
      NamedFile(t, stats, key);
    }
  }

  lemma KeyIsListed(t: Tree, stats: Index, walk: seq<Loc>, keys: seq<string>, failures: Failures, k: string)
    requires Sane(t, stats) && OrdersWith(t, stats, walk, keys, failures)
    ensures k in VanishedKeys(t, keys) <==> k in stats && Vanished(t, k)
    ensures k in keys ==> !("_" <= k)
  {
    var w, files, r, gone := StartIsStarted(t, stats, walk, keys, failures);
    VanishedIs(t, keys);
    if Vanished(t, k) {
      VanishedBetween(t, stats, walk, failures, files, w.stats, w.sent, k);
    }
    if k in keys {
      KeyInFront(t, stats, walk, failures, files, w.stats, w.sent, k);
    }
  }

  // -------- the second start --------

  /** What is to be sent again, in the order of the walk. */
  function FailedFiles(t: Tree, stats: Index, walk: seq<Loc>, failures: Failures): seq<Sent>
    requires AllVisible(t, walk)
  {
    if walk == [] then []
    else
      var last := walk[|walk| - 1];
      FailedFiles(t, stats, walk[..|walk| - 1], failures) +
      if FileFailed(t, stats, last, failures) then [SentFile(NameOf(last), t[last].data)] else []
  }

  lemma {:induction false} SameFiles(t: Tree, stats: Index, after: Index, walk: seq<Loc>, failures: Failures)
    requires AllVisible(t, walk) && forall p | p in walk :: HasChanged(t, after, p) <==> FileFailed(t, stats, p, failures)
    ensures ChangedFiles(t, after, walk) == FailedFiles(t, stats, walk, failures)
  {
    if walk != [] {
      SameFiles(t, stats, after, walk[..|walk| - 1], failures);
      assert walk[|walk| - 1] in walk;
    }
  }

  lemma StillChanged(t: Tree, stats: Index, walk: seq<Loc>, keys: seq<string>, failures: Failures, p: Loc)
    requires Sane(t, stats) && OrdersWith(t, stats, walk, keys, failures) && IsVisibleFile(t, p)
    ensures HasChanged(t, Start(t, stats, walk, keys, failures).stats, p) <==> FileFailed(t, stats, p, failures)
  {
    FileIsThere(t, p);
    StartLeaves(t, stats, walk, keys, failures, NameOf(p));
  }

  lemma StartStaysSane(t: Tree, stats: Index, walk: seq<Loc>, keys: seq<string>, failures: Failures)
    requires Sane(t, stats) && OrdersWith(t, stats, walk, keys, failures)
    ensures Sane(t, Start(t, stats, walk, keys, failures).stats)
  {
    forall k | k in Start(t, stats, walk, keys, failures).stats ensures StatKey(k) && !("_" <= k) {
      StartLeaves(t, stats, walk, keys, failures, k);
      if NamesFile(t, k) {
        NamedFile(t, stats, k);
      }
    }
  }

  /** The second start finds just those keys vanished whose deletion failed. */
  lemma StillVanished(t: Tree, stats: Index, walk: seq<Loc>, keys: seq<string>, failures: Failures, walk2: seq<Loc>, keys2: seq<string>)
    requires Sane(t, stats) && OrdersWith(t, stats, walk, keys, failures)
    requires OrdersWith(t, Start(t, stats, walk, keys, failures).stats, walk2, keys2, Failures({}, {}))
    ensures forall k :: k in VanishedKeys(t, keys2) <==> KeyFailed(t, stats, k, failures)
  {
    var r := Start(t, stats, walk, keys, failures).stats;
    StartStaysSane(t, stats, walk, keys, failures);
    forall k ensures k in VanishedKeys(t, keys2) <==> KeyFailed(t, stats, k, failures) {
      KeyIsListed(t, r, walk2, keys2, Failures({}, {}), k);
      StartLeaves(t, stats, walk, keys, failures, k);
      if NamesFile(t, k) {
        NamedFile(t, stats, k);
      }
    }
  }

  /**
    After a start with any failing targets, a start without failures sends just the files whose target failed, each
    once, and then the deletions of just those keys whose deletion failed, each once.
   */
  lemma SecondStartSendsWhatFailed(t: Tree, stats: Index, walk: seq<Loc>, keys: seq<string>, failures: Failures, walk2: seq<Loc>, keys2: seq<string>)
    requires Sane(t, stats) && OrdersWith(t, stats, walk, keys, failures)
    requires OrdersWith(t, Start(t, stats, walk, keys, failures).stats, walk2, keys2, Failures({}, {}))
    ensures Start(t, Start(t, stats, walk, keys, failures).stats, walk2, keys2, Failures({}, {})).sent ==
      FailedFiles(t, stats, walk2, failures) + Deletions(VanishedKeys(t, keys2))
    ensures Distinct(walk2) && forall p :: p in walk2 <==> IsVisibleFile(t, p)
    ensures Distinct(VanishedKeys(t, keys2)) && forall k :: k in VanishedKeys(t, keys2) <==> KeyFailed(t, stats, k, failures)
  {
    var r := Start(t, stats, walk, keys, failures).stats;
    StartStaysSane(t, stats, walk, keys, failures);
    StillVanished(t, stats, walk, keys, failures, walk2, keys2);
    VanishedDistinct(t, keys2);
    forall p | p in walk2 ensures HasChanged(t, r, p) <==> FileFailed(t, stats, p, failures) {
      StillChanged(t, stats, walk, keys, failures, p);
    }
    SameFiles(t, stats, r, walk2, failures);
    VanishedIs(t, keys2);
    forall k | k in keys2 ensures !("_" <= k) {
      KeyIsListed(t, r, walk2, keys2, Failures({}, {}), k);
    }
    assert forall p :: p in VisibleFiles(t) <==> IsVisibleFile(t, p);
    DifferenceIsSent(t, r, walk2, keys2);
  }
}

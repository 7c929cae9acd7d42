/** The two scans at startup: what changed and what vanished while the bridge was not running. */
module OfflineScan {
  import opened Types
  import opened FileTree
  import opened StatIndex
  import opened Vault
  import Bridge
  import LruCache
  import Paths

  datatype Sent = SentFile(path: Path, data: Bytes) | SentDeletion(path: Path)

  /** The state of a scanning peer: its stored stats, its hash cache, and what the hub was given. */
  datatype Scan = Scan(stats: Index, recent: Bridge.Recent, sent: seq<Sent>)

  predicate Visible(p: Loc) {
    forall k | 0 <= k < |p| :: !("." <= p[k])
  }

  predicate IsVisibleFile(t: Tree, p: Loc) {
    IsFile(t, p) && Visible(p)
  }

  /** A visible file whose stat is not the one remembered. */
  predicate HasChanged(t: Tree, stats: Index, p: Loc) {
    IsVisibleFile(t, p) && Lookup(stats, NameOf(p)) != Some(StatOf(t[p]))
  }

  predicate Vanished(t: Tree, key: string) {
    StatAt(t, LocOf(key)).NotExist?
  }

  // -------- what the source does, on values --------

  predicate Repeats(sc: Scan, path: Path, hash: Hash) {
    Lookup(LruCache.Contents(sc.recent), path) == Some(hash)
  }

  /** DispatchFrom: a repeat stops here, anything else is marked and handed to the hub. */
  function Handed(sc: Scan, path: Path, hash: Hash, what: Sent): Scan {
    var looked := sc.(recent := LruCache.Used(sc.recent, path));
    if Repeats(sc, path, hash) then looked
    else looked.(recent := LruCache.Added(looked.recent, Bridge.CACHE_SIZE, path, hash), sent := sc.sent + [what])
  }

  /** The callback of the walk: a repeat, or a dispatch without failing target, lets the stat be stored. */
  function Visited(t: Tree, sc: Scan, p: Loc, ok: bool): Scan
    requires IsVisibleFile(t, p)
  {
    if !HasChanged(t, sc.stats, p) then sc
    else
      var path, data := Paths.KeyOf(NameOf(p)), t[p].data;
      var next := Handed(sc, path, data, SentFile(Paths.KeyOf(path), data));
      if ok || Repeats(sc, path, data) then next.(stats := next.stats[NameOf(p) := StatOf(t[p])]) else next
  }

  function Walked(t: Tree, sc: Scan, walk: seq<Loc>, failing: set<Loc>): Scan
    requires forall p | p in walk :: IsVisibleFile(t, p)
  {
    if walk == [] then sc
    else
      var last := walk[|walk| - 1];
      Visited(t, Walked(t, sc, walk[..|walk| - 1], failing), last, last !in failing)
  }

  function VanishedKeys(t: Tree, keys: seq<string>): seq<string> {
    if keys == [] then []
    else (if Vanished(t, keys[0]) then [keys[0]] else []) + VanishedKeys(t, keys[1..])
  }

  /** The key that dispatchDeletion drops for a key that has vanished: its path is converted to a global one and back. */
  function DropKey(key: string): string {
    LocalKey(Paths.KeyOf(key))
  }

  function Deleted(sc: Scan, key: string, ok: bool): Scan {
    var path := Paths.KeyOf(key);
    var next := Handed(sc, path, [], SentDeletion(Paths.KeyOf(path)));
    if ok || Repeats(sc, path, []) then next.(stats := next.stats - {DropKey(key)}) else next
  }

  function AllDeleted(sc: Scan, keys: seq<string>, failing: set<string>): Scan {
    if keys == [] then sc
    else
      var last := keys[|keys| - 1];
      Deleted(AllDeleted(sc, keys[..|keys| - 1], failing), last, last !in failing)
  }

  function Begin(stats: Index): Scan {
    Scan(stats, [], [])
  }

  function VisibleFiles(t: Tree): set<Loc> {
    set p | p in t && IsVisibleFile(t, p)
  }

  ghost predicate Lists<T(!new)>(s: seq<T>, of: set<T>) {
    (forall i, j | 0 <= i < j < |s| :: s[i] != s[j]) && forall x :: x in s <==> x in of
  }

  /** walk is the order of the directory walk, keys the order of the store when the second scan begins. */
  ghost predicate Orders(t: Tree, stats: Index, walk: seq<Loc>, keys: seq<string>) {
    && Lists(walk, VisibleFiles(t)) && (forall p | p in walk :: IsVisibleFile(t, p))
    && Lists(keys, Walked(t, Begin(stats), walk, {}).stats.Keys)
  }

  /** Both scans of a start in which every dispatch succeeds. */
  function Scanned(t: Tree, stats: Index, walk: seq<Loc>, keys: seq<string>): Scan
    requires forall p | p in walk :: IsVisibleFile(t, p)
  {
    AllDeleted(Walked(t, Begin(stats), walk, {}), VanishedKeys(t, keys), {})
  }

  // -------- the object --------

  /** A storage peer at startup; its hash cache is empty then. */
  class Starting {
    const tree: Tree
    var stats: Index
    var recent: Bridge.Recent
    var sent: seq<Sent>

    constructor (tree: Tree, stats: Index)
      ensures this.tree == tree && Value() == Begin(stats)
    {
      this.tree, this.stats, recent, sent := tree, stats, [], [];
    }

    function Value(): Scan
      reads this
    {
      Scan(stats, recent, sent)
    }

    method DispatchFrom(path: Path, data: Bytes, what: Sent, ok: bool) returns (success: bool)
      modifies this`recent, this`sent
      ensures Value() == Handed(old(Value()), path, data, what)
      ensures success <==> ok || old(Repeats(Value(), path, data))
      ensures sent == old(sent) + if old(Repeats(Value(), path, data)) then [] else [what]
    {
      var repeating := Lookup(LruCache.Contents(recent), path) == Some(data);
      recent := LruCache.Used(recent, path);
      if repeating {
        return true;
      }
      recent := LruCache.Added(recent, Bridge.CACHE_SIZE, path, data);
      sent := sent + [what];
      success := ok;
    }

    /**
      The callback of the walk, with dispatchFile. A file whose stat is the one stored is passed over; any other one is
      handed to the hub unless it is a repeat, and its stat is stored unless it was handed on and a target failed.
     */
    method Visit(p: Loc, ok: bool)
      requires IsVisibleFile(tree, p)
      modifies this
      ensures Value() == Visited(tree, old(Value()), p, ok)
      ensures !HasChanged(tree, old(stats), p) ==> sent == old(sent) && stats == old(stats)
      ensures HasChanged(tree, old(stats), p) ==>
        && sent == old(sent) + (if old(Repeats(Value(), FileKey(p), tree[p].data)) then [] else [FileMessage(tree, p)])
        && (stats == old(stats)[NameOf(p) := StatOf(tree[p])] || stats == old(stats))
        && (HasChanged(tree, stats, p) <==> !ok && sent != old(sent))
    {
      var relPath := NameOf(p);
      if Lookup(stats, relPath) != Some(StatOf(tree[p])) {
        var globalPath := Paths.ToGlobalPath(relPath, "");
        var data := tree[p].data;
        var success := DispatchFrom(globalPath, data, SentFile(Paths.ToGlobalPath(globalPath, ""), data), ok);
        if success {
          stats := stats[relPath := StatOf(tree[p])];
        }
      }
    }

    /** The walk; dispatched lists the files that are handed to the hub. */
    method ScanOfflineChanges(walk: seq<Loc>, failing: set<Loc>) returns (ghost dispatched: seq<Loc>)
      requires forall p | p in walk :: IsVisibleFile(tree, p)
      modifies this
      ensures Value() == Walked(tree, old(Value()), walk, failing)
      ensures old(Value()) == Begin(old(stats)) && WellFormed(tree) && ProperTree(tree) && Distinct(walk) ==>
        WalkResult(tree, old(stats), walk, failing, dispatched, stats, sent)
    {
      dispatched := Dispatched(tree, Value(), walk, failing);
      if Value() == Begin(stats) && WellFormed(tree) && ProperTree(tree) && Distinct(walk) {
        WalkResults(tree, stats, walk, failing);
      }
      VisitAll(walk, failing);
    }

    method VisitAll(walk: seq<Loc>, failing: set<Loc>)
      requires AllVisible(tree, walk)
      modifies this
      ensures Value() == Walked(tree, old(Value()), walk, failing)
    {
      for i := 0 to |walk|
        invariant Value() == Walked(tree, old(Value()), walk[..i], failing)
      {
        assert walk[i] in walk && walk[..i + 1][..i] == walk[..i];
        Visit(walk[i], walk[i] !in failing);
      }
      assert walk[..|walk|] == walk;
    }

    /** The iteration over the stored stats; deletions are only collected, the store does not change meanwhile. */
    method CollectVanished(keys: seq<string>) returns (pathsToDelete: seq<string>)
      ensures pathsToDelete == VanishedKeys(tree, keys)
      ensures forall k :: k in pathsToDelete <==> k in keys && Vanished(tree, k)
    {
      pathsToDelete := [];
      for i := 0 to |keys|
        invariant pathsToDelete == VanishedKeys(tree, keys[..i])
      {
        assert keys[..i + 1] == keys[..i] + [keys[i]];
        VanishedSnoc(tree, keys[..i], keys[i]);
        var look := StatAt(tree, LocOf(keys[i]));
        if look.NotExist? {
          pathsToDelete := pathsToDelete + [keys[i]];
        }
      }
      assert keys[..|keys|] == keys;
      VanishedIs(tree, keys);
    }

    /** A deletion that is no repeat is handed to the hub; the stat is forgotten unless it was and a target failed. */
    method DispatchDeletion(localPath: string, ok: bool)
      modifies this
      ensures Value() == Deleted(old(Value()), localPath, ok)
      ensures sent == old(sent) +
        if old(Repeats(Value(), Paths.KeyOf(localPath), [])) then [] else [SentDeletion(Paths.KeyOf(Paths.KeyOf(localPath)))]
      ensures stats == if !ok && sent != old(sent) then old(stats) else old(stats) - {DropKey(localPath)}
    {
      var globalPath := Paths.ToGlobalPath(localPath, "");
      var success := DispatchFrom(globalPath, [], SentDeletion(Paths.ToGlobalPath(globalPath, "")), ok);
      if success {
        stats := stats - {Paths.ToLocalPath(globalPath, "")};
      }
    }

    /** The deletions; dispatched lists the keys that are handed to the hub. */
    method ScanOfflineDeletions(keys: seq<string>, failing: set<string>) returns (ghost dispatched: seq<string>)
      modifies this
      ensures Value() == AllDeleted(old(Value()), VanishedKeys(tree, keys), failing)
      ensures old(Bridge.CacheFits(recent)) && Distinct(keys) ==>
        DropResult(old(Value()), VanishedKeys(tree, keys), failing, dispatched, stats, sent)
    {
      dispatched := DispatchedKeys(Value(), VanishedKeys(tree, keys), failing);
      if Bridge.CacheFits(recent) && Distinct(keys) {
        VanishedDistinct(tree, keys);
        DropResults(Value(), VanishedKeys(tree, keys), failing);
      }
      var pathsToDelete := CollectVanished(keys);
      DispatchAll(pathsToDelete, failing);
    }

    method DispatchAll(pathsToDelete: seq<string>, failing: set<string>)
      modifies this
      ensures Value() == AllDeleted(old(Value()), pathsToDelete, failing)
    {
      for i := 0 to |pathsToDelete|
        invariant Value() == AllDeleted(old(Value()), pathsToDelete[..i], failing)
      {
        assert pathsToDelete[..i + 1][..i] == pathsToDelete[..i];
        DispatchDeletion(pathsToDelete[i], pathsToDelete[i] !in failing);
      }
      assert pathsToDelete[..|pathsToDelete|] == pathsToDelete;
    }

    /** Start: both scans. Where nothing fails and no path involved begins with an underscore, the difference is sent. */
    method ScanOffline(walk: seq<Loc>, keys: seq<string>, failingFiles: set<Loc>, failingKeys: set<string>)
      requires Value() == Begin(stats) && AllVisible(tree, walk)
      modifies this
      ensures Value() ==
        AllDeleted(Walked(tree, Begin(old(stats)), walk, failingFiles), VanishedKeys(tree, keys), failingKeys)
      ensures failingFiles == {} && failingKeys == {} && WellFormed(tree) && ProperTree(tree) && StatKeys(old(stats)) &&
              Orders(tree, old(stats), walk, keys) && NoUnderscores(walk, VanishedKeys(tree, keys)) ==>
        sent == ChangedFiles(tree, old(stats), walk) + Deletions(VanishedKeys(tree, keys))
    {
      ghost var before := stats;
      var _ := ScanOfflineChanges(walk, failingFiles);
      var _ := ScanOfflineDeletions(keys, failingKeys);
      if failingFiles == {} && failingKeys == {} && WellFormed(tree) && ProperTree(tree) && StatKeys(before) &&
         Orders(tree, before, walk, keys) && NoUnderscores(walk, VanishedKeys(tree, keys)) {
        DifferenceIsSent(tree, before, walk, keys);
      }
    }
  }

  // -------- what failing targets leave --------

  /** The key under which a file is cached, and what the hub is given. */
  function FileKey(p: Loc): Path {
    Paths.KeyOf(NameOf(p))
  }

  function FileMessage(t: Tree, p: Loc): Sent
    requires IsVisibleFile(t, p)
  {
    SentFile(Paths.KeyOf(FileKey(p)), t[p].data)
  }

  predicate Distinct<T(==)>(s: seq<T>) {
    forall i, j | 0 <= i < j < |s| :: s[i] != s[j]
  }

  predicate AllVisible(t: Tree, walk: seq<Loc>) {
    forall p | p in walk :: IsVisibleFile(t, p)
  }

  function FilesSent(t: Tree, ps: seq<Loc>): seq<Sent>
    requires AllVisible(t, ps)
  {
    seq(|ps|, i requires 0 <= i < |ps| => FileMessage(t, ps[i]))
  }

  predicate IsDispatched(t: Tree, sc: Scan, p: Loc)
    requires IsVisibleFile(t, p)
  {
    HasChanged(t, sc.stats, p) && !Repeats(sc, FileKey(p), t[p].data)
  }

  /** The files that the walk hands to the hub. */
  ghost function Dispatched(t: Tree, sc: Scan, walk: seq<Loc>, failing: set<Loc>): seq<Loc>
    requires AllVisible(t, walk)
  {
    if walk == [] then []
    else
      var front, last := walk[..|walk| - 1], walk[|walk| - 1];
      Dispatched(t, sc, front, failing) + if IsDispatched(t, Walked(t, sc, front, failing), last) then [last] else []
  }

  /** Two files share a cache entry. */
  predicate Shares(t: Tree, p: Loc, q: Loc) {
    IsFile(t, p) && IsFile(t, q) && FileKey(p) == FileKey(q) && t[p].data == t[q].data
  }

  /**
    What a walk leaves, for any failing targets: the dispatched files were sent, in this order; they had changed, and
    every other changed file shares the cache entry of one of them; a file is still not stored if and only if it was
    dispatched and a target failed; and nothing else is touched.
   */
  ghost predicate WalkResult(t: Tree, stats: Index, walk: seq<Loc>, failing: set<Loc>, dispatched: seq<Loc>, after: Index, sent: seq<Sent>) {
    && AllVisible(t, dispatched) && sent == FilesSent(t, dispatched) && Distinct(dispatched)
    && (forall p | p in dispatched :: p in walk && HasChanged(t, stats, p))
    && (forall p | p in walk && HasChanged(t, stats, p) && p !in dispatched :: exists q :: q in dispatched && Shares(t, p, q))
    && (forall p | p in walk :: HasChanged(t, after, p) <==> p in failing && p in dispatched)
    && (forall k :: StoredBefore(t, walk, failing, dispatched, k) ==> Lookup(after, k) == Lookup(stats, k))
  }

  /** The key is of no file of the walk, or of one whose stat must not be stored. */
  predicate StoredBefore(t: Tree, walk: seq<Loc>, failing: set<Loc>, dispatched: seq<Loc>, k: string) {
    NamesFile(t, k) && LocOf(k) in walk ==> LocOf(k) in failing && LocOf(k) in dispatched
  }

  /** What the cache knows was dispatched. */
  predicate CacheOf(t: Tree, recent: Bridge.Recent, dispatched: seq<Loc>) {
    && Bridge.CacheFits(recent) && AllVisible(t, dispatched)
    && forall k | k in LruCache.Contents(recent) ::
         exists q :: q in dispatched && FileKey(q) == k && t[q].data == LruCache.Contents(recent)[k]
  }

  /** A file that is marked is known from then on, and was dispatched. */
  lemma MarkCaches(t: Tree, recent: Bridge.Recent, next: Bridge.Recent, p: Loc, dispatched: seq<Loc>)
    requires IsVisibleFile(t, p) && CacheOf(t, recent, dispatched) && Bridge.CacheFits(next)
    requires Lookup(LruCache.Contents(next), FileKey(p)) == Some(t[p].data)
    requires forall k | k in LruCache.Contents(next) :: k != FileKey(p) ==>
      Lookup(LruCache.Contents(recent), k) == Some(LruCache.Contents(next)[k])
    ensures CacheOf(t, next, dispatched + [p])
  {
    var more := dispatched + [p];
    assert p in more;
    forall k | k in LruCache.Contents(next)
      ensures exists q :: q in more && FileKey(q) == k && t[q].data == LruCache.Contents(next)[k]
    {
      if k != FileKey(p) {
        var q :| q in dispatched && FileKey(q) == k && t[q].data == LruCache.Contents(recent)[k];
        assert q in more;
      }
    }
  }

  /** One visit, by what it does to the cache. */
  lemma VisitCaches(t: Tree, sc: Scan, p: Loc, ok: bool, dispatched: seq<Loc>)
    requires IsVisibleFile(t, p) && CacheOf(t, sc.recent, dispatched)
    ensures CacheOf(t, Visited(t, sc, p, ok).recent, dispatched + if IsDispatched(t, sc, p) then [p] else [])
  {
    var next := Visited(t, sc, p, ok);
    assert dispatched + [] == dispatched;
    if HasChanged(t, sc.stats, p) {
      LruCache.UsedKeepsContents(sc.recent, FileKey(p));
      LruCache.UsedAddedKnows(sc.recent, Bridge.CACHE_SIZE, FileKey(p), t[p].data);
      if IsDispatched(t, sc, p) {
        MarkCaches(t, sc.recent, next.recent, p, dispatched);
      }
    }
  }

  /** One visit, by what it does to the stats and what it sends. */
  lemma VisitStores(t: Tree, sc: Scan, p: Loc, ok: bool)
    requires IsVisibleFile(t, p)
    ensures var next := Visited(t, sc, p, ok);
      && next.sent == sc.sent + (if IsDispatched(t, sc, p) then [FileMessage(t, p)] else [])
      && (HasChanged(t, next.stats, p) <==> !ok && IsDispatched(t, sc, p))
      && (forall k | k != NameOf(p) :: Lookup(next.stats, k) == Lookup(sc.stats, k))
      && (!ok && IsDispatched(t, sc, p) ==> next.stats == sc.stats)
  {}

  lemma {:induction false} WalkCaches(t: Tree, sc: Scan, walk: seq<Loc>, failing: set<Loc>)
    requires AllVisible(t, walk) && sc.recent == []
    ensures CacheOf(t, Walked(t, sc, walk, failing).recent, Dispatched(t, sc, walk, failing))
  {
    if walk != [] {
      var front, last := walk[..|walk| - 1], walk[|walk| - 1];
      WalkCaches(t, sc, front, failing);
      VisitCaches(t, Walked(t, sc, front, failing), last, last !in failing, Dispatched(t, sc, front, failing));
    }
  }

  lemma {:induction false} WalkDispatches(t: Tree, sc: Scan, walk: seq<Loc>, failing: set<Loc>)
    requires AllVisible(t, walk)
    ensures var dispatched := Dispatched(t, sc, walk, failing);
      AllVisible(t, dispatched) && Walked(t, sc, walk, failing).sent == sc.sent + FilesSent(t, dispatched)
    ensures forall p | p in Dispatched(t, sc, walk, failing) :: p in walk
  {
    if walk == [] {
      assert sc.sent + FilesSent(t, []) == sc.sent;
    } else {
      var front, last := walk[..|walk| - 1], walk[|walk| - 1];
      WalkDispatches(t, sc, front, failing);
      VisitStores(t, Walked(t, sc, front, failing), last, last !in failing);
      SentSnoc(t, sc.sent, Dispatched(t, sc, front, failing), last);
    }
  }

  lemma SentSnoc(t: Tree, sent: seq<Sent>, ps: seq<Loc>, p: Loc)
    requires AllVisible(t, ps) && IsVisibleFile(t, p)
    ensures AllVisible(t, ps + [p]) && sent + FilesSent(t, ps + [p]) == (sent + FilesSent(t, ps)) + [FileMessage(t, p)]
    ensures ps + [] == ps && (sent + FilesSent(t, ps)) + [] == sent + FilesSent(t, ps)
  {
    assert FilesSent(t, ps + [p]) == FilesSent(t, ps) + [FileMessage(t, p)];
  }

  lemma SnocIs(walk: seq<Loc>, failing: set<Loc>, front: seq<Loc>, last: Loc)
    requires walk != [] && front == walk[..|walk| - 1] && last == walk[|walk| - 1] && Distinct(walk)
    ensures last !in front && Distinct(front) && forall p :: p in walk <==> p in front || p == last
  {
    assert walk == front + [last];
  }

  /** The last file of the walk: what was known about it before, and what is after. */
  lemma VisitLast(t: Tree, sc: Scan, walk: seq<Loc>, failing: set<Loc>, front: seq<Loc>, last: Loc)
    requires WellFormed(t) && ProperTree(t) && AllVisible(t, walk) && Distinct(walk)
    requires walk != [] && front == walk[..|walk| - 1] && last == walk[|walk| - 1]
    requires AllVisible(t, front) && Untouched(t, sc, front, failing)
    ensures var before, next := Walked(t, sc, front, failing), Walked(t, sc, walk, failing);
      && (HasChanged(t, before.stats, last) <==> HasChanged(t, sc.stats, last))
      && (HasChanged(t, next.stats, last) <==> last in failing && IsDispatched(t, before, last))
      && (last in failing && IsDispatched(t, before, last) ==> next.stats == before.stats)
      && (forall k | !(NamesFile(t, k) && LocOf(k) == last) :: Lookup(next.stats, k) == Lookup(before.stats, k))
  {
    var before := Walked(t, sc, front, failing);
    SnocIs(walk, failing, front, last);
    FileHasName(t, last);
    assert StoredBefore(t, front, failing, Dispatched(t, sc, front, failing), NameOf(last));
    VisitStores(t, before, last, last !in failing);
    forall k | !(NamesFile(t, k) && LocOf(k) == last) ensures k != NameOf(last) { }
  }

  /** A key of no file that was to be stored has the stat that it had. */
  ghost predicate Untouched(t: Tree, sc: Scan, walk: seq<Loc>, failing: set<Loc>)
    requires AllVisible(t, walk)
  {
    forall k :: StoredBefore(t, walk, failing, Dispatched(t, sc, walk, failing), k) ==>
      Lookup(Walked(t, sc, walk, failing).stats, k) == Lookup(sc.stats, k)
  }

  lemma {:induction false} WalkLeaves(t: Tree, sc: Scan, walk: seq<Loc>, failing: set<Loc>)
    requires WellFormed(t) && ProperTree(t) && AllVisible(t, walk) && Distinct(walk)
    ensures Untouched(t, sc, walk, failing)
  {
    if walk != [] {
      var front, last := walk[..|walk| - 1], walk[|walk| - 1];
      WalkLeaves(t, sc, front, failing);
      VisitLast(t, sc, walk, failing, front, last);
      WalkDispatches(t, sc, front, failing);
      SnocIs(walk, failing, front, last);
      forall k | StoredBefore(t, walk, failing, Dispatched(t, sc, walk, failing), k)
        ensures Lookup(Walked(t, sc, walk, failing).stats, k) == Lookup(sc.stats, k)
      {
        LeavesOne(t, sc, walk, failing, front, last, k);
      }
    }
  }

  lemma LeavesOne(t: Tree, sc: Scan, walk: seq<Loc>, failing: set<Loc>, front: seq<Loc>, last: Loc, k: string)
    requires WellFormed(t) && ProperTree(t) && AllVisible(t, walk) && Distinct(walk)
    requires walk != [] && front == walk[..|walk| - 1] && last == walk[|walk| - 1] && last !in front
    requires AllVisible(t, front) && Untouched(t, sc, front, failing)
    requires forall p | p in Dispatched(t, sc, front, failing) :: p in front
    requires forall p :: p in walk <==> p in front || p == last
    requires StoredBefore(t, walk, failing, Dispatched(t, sc, walk, failing), k)
    ensures Lookup(Walked(t, sc, walk, failing).stats, k) == Lookup(sc.stats, k)
  {
    VisitLast(t, sc, walk, failing, front, last);
    assert StoredBefore(t, front, failing, Dispatched(t, sc, front, failing), k);
  }

  /** Which files are stored, and which were dispatched. */
  lemma {:induction false} WalkStores(t: Tree, sc: Scan, walk: seq<Loc>, failing: set<Loc>)
    requires WellFormed(t) && ProperTree(t) && AllVisible(t, walk) && Distinct(walk)
    ensures forall p | p in walk ::
      HasChanged(t, Walked(t, sc, walk, failing).stats, p) <==> p in failing && p in Dispatched(t, sc, walk, failing)
    ensures forall p | p in Dispatched(t, sc, walk, failing) :: IsVisibleFile(t, p) && HasChanged(t, sc.stats, p)
    ensures Distinct(Dispatched(t, sc, walk, failing))
  {
    if walk != [] {
      var front, last := walk[..|walk| - 1], walk[|walk| - 1];
      SnocIs(walk, failing, front, last);
      WalkStores(t, sc, front, failing);
      WalkDispatches(t, sc, front, failing);
      WalkLeaves(t, sc, front, failing);
      VisitLast(t, sc, walk, failing, front, last);
      forall p | p in front
        ensures HasChanged(t, Walked(t, sc, walk, failing).stats, p) <==> HasChanged(t, Walked(t, sc, front, failing).stats, p)
      {
        FileHasName(t, p);
      }
    }
  }

  /** A changed file that is not dispatched shares the cache entry of one that is. */
  lemma {:induction false} RepeatsShare(t: Tree, sc: Scan, walk: seq<Loc>, failing: set<Loc>, p: Loc)
    requires WellFormed(t) && ProperTree(t) && AllVisible(t, walk) && Distinct(walk) && sc.recent == []
    requires p in walk && HasChanged(t, sc.stats, p) && p !in Dispatched(t, sc, walk, failing)
    ensures exists q :: q in Dispatched(t, sc, walk, failing) && Shares(t, p, q)
  {
    var front, last := walk[..|walk| - 1], walk[|walk| - 1];
    SnocIs(walk, failing, front, last);
    if p in front {
      RepeatsShare(t, sc, front, failing, p);
      var q :| q in Dispatched(t, sc, front, failing) && Shares(t, p, q);
      assert q in Dispatched(t, sc, walk, failing);
    } else {
      WalkLeaves(t, sc, front, failing);
      VisitLast(t, sc, walk, failing, front, last);
      WalkCaches(t, sc, front, failing);
      var before := Walked(t, sc, front, failing);
      assert !IsDispatched(t, before, p) && Repeats(before, FileKey(p), t[p].data);
      var q :| q in Dispatched(t, sc, front, failing) && FileKey(q) == FileKey(p) && t[q].data == t[p].data;
      assert q in Dispatched(t, sc, walk, failing);
    }
  }

  lemma WalkResults(t: Tree, stats: Index, walk: seq<Loc>, failing: set<Loc>)
    requires WellFormed(t) && ProperTree(t) && AllVisible(t, walk) && Distinct(walk)
    ensures var next, dispatched := Walked(t, Begin(stats), walk, failing), Dispatched(t, Begin(stats), walk, failing);
      WalkResult(t, stats, walk, failing, dispatched, next.stats, next.sent)
  {
    var sc, dispatched := Begin(stats), Dispatched(t, Begin(stats), walk, failing);
    WalkDispatches(t, sc, walk, failing);
    WalkStores(t, sc, walk, failing);
    WalkLeaves(t, sc, walk, failing);
    assert [] + FilesSent(t, dispatched) == FilesSent(t, dispatched);
    forall p | p in walk && HasChanged(t, stats, p) && p !in dispatched
      ensures exists q :: q in dispatched && Shares(t, p, q)
    {
      RepeatsShare(t, sc, walk, failing, p);
    }
  }

  // -------- and what failing deletions leave --------

  function DeletionMessage(key: string): Sent {
    SentDeletion(Paths.KeyOf(Paths.KeyOf(key)))
  }

  function DeletionsSent(ks: seq<string>): seq<Sent> {
    seq(|ks|, i requires 0 <= i < |ks| => DeletionMessage(ks[i]))
  }

  predicate DropDispatched(sc: Scan, key: string) {
    !Repeats(sc, Paths.KeyOf(key), [])
  }

  ghost function DispatchedKeys(sc: Scan, ks: seq<string>, failing: set<string>): seq<string> {
    if ks == [] then []
    else
      var front, last := ks[..|ks| - 1], ks[|ks| - 1];
      DispatchedKeys(sc, front, failing) + if DropDispatched(AllDeleted(sc, front, failing), last) then [last] else []
  }

  /**
    What the deletions of vanished keys leave, for any failing targets: the dispatched ones were sent, in this order;
    any other key shares the cache entry of one of them, or that entry was there before; and a key is forgotten if and
    only if some vanished one is converted to it that was not dispatched, or was without a failing target.
   */
  ghost predicate DropResult(before: Scan, ks: seq<string>, failing: set<string>, dispatched: seq<string>, after: Index, sent: seq<Sent>) {
    && sent == before.sent + DeletionsSent(dispatched)
    && (forall k | k in dispatched :: k in ks)
    && (forall k | k in ks && k !in dispatched ::
          Repeats(before, Paths.KeyOf(k), []) || exists d :: d in dispatched && Paths.KeyOf(d) == Paths.KeyOf(k))
    && (forall key :: Lookup(after, key) == if Forgets(ks, failing, dispatched, key) then None else Lookup(before.stats, key))
  }

  ghost predicate Forgets(ks: seq<string>, failing: set<string>, dispatched: seq<string>, key: string) {
    exists k :: k in ks && DropKey(k) == key && !(k in failing && k in dispatched)
  }

  /** One deletion, by what it sends and forgets. */
  lemma DeletionDrops(sc: Scan, key: string, ok: bool)
    ensures var next := Deleted(sc, key, ok);
      && next.sent == sc.sent + (if DropDispatched(sc, key) then [DeletionMessage(key)] else [])
      && next.stats == if !ok && DropDispatched(sc, key) then sc.stats else sc.stats - {DropKey(key)}
  {}

  /** What the cache knows it knew before, or it was dispatched. */
  predicate KeyCache(before: Bridge.Recent, after: Bridge.Recent, dispatched: seq<string>) {
    && Bridge.CacheFits(after)
    && forall k | k in LruCache.Contents(after) ::
         || Lookup(LruCache.Contents(before), k) == Some(LruCache.Contents(after)[k])
         || exists d :: d in dispatched && Paths.KeyOf(d) == k
  }

  lemma DeletionCaches(before: Bridge.Recent, sc: Scan, key: string, ok: bool, dispatched: seq<string>)
    requires KeyCache(before, sc.recent, dispatched)
    ensures KeyCache(before, Deleted(sc, key, ok).recent, dispatched + if DropDispatched(sc, key) then [key] else [])
  {
    var next, path := Deleted(sc, key, ok), Paths.KeyOf(key);
    LruCache.UsedKeepsContents(sc.recent, path);
    LruCache.UsedAddedKnows(sc.recent, Bridge.CACHE_SIZE, path, []);
    var more := dispatched + if DropDispatched(sc, key) then [key] else [];
    forall k | k in LruCache.Contents(next.recent)
      ensures || Lookup(LruCache.Contents(before), k) == Some(LruCache.Contents(next.recent)[k])
              || exists d :: d in more && Paths.KeyOf(d) == k
    {
      if DropDispatched(sc, key) && k == path {
        assert key in more;
      } else {
        assert k in LruCache.Contents(sc.recent) && LruCache.Contents(sc.recent)[k] == LruCache.Contents(next.recent)[k];
        if d :| d in dispatched && Paths.KeyOf(d) == k {
          assert d in more;
        }
      }
    }
  }

  lemma {:induction false} KeysCache(sc: Scan, ks: seq<string>, failing: set<string>)
    requires Bridge.CacheFits(sc.recent)
    ensures KeyCache(sc.recent, AllDeleted(sc, ks, failing).recent, DispatchedKeys(sc, ks, failing))
  {
    if ks != [] {
      var front, last := ks[..|ks| - 1], ks[|ks| - 1];
      KeysCache(sc, front, failing);
      DeletionCaches(sc.recent, AllDeleted(sc, front, failing), last, last !in failing, DispatchedKeys(sc, front, failing));
    }
  }

  lemma {:induction false} KeysDispatch(sc: Scan, ks: seq<string>, failing: set<string>)
    ensures AllDeleted(sc, ks, failing).sent == sc.sent + DeletionsSent(DispatchedKeys(sc, ks, failing))
    ensures forall k | k in DispatchedKeys(sc, ks, failing) :: k in ks
  {
    if ks == [] {
      assert sc.sent + DeletionsSent([]) == sc.sent;
    } else {
      var front, last := ks[..|ks| - 1], ks[|ks| - 1];
      KeysDispatch(sc, front, failing);
      DeletionDrops(AllDeleted(sc, front, failing), last, last !in failing);
      DeletionsSnocSent(sc.sent, DispatchedKeys(sc, front, failing), last);
    }
  }

  lemma DeletionsSnocSent(sent: seq<Sent>, ks: seq<string>, k: string)
    ensures sent + DeletionsSent(ks + [k]) == (sent + DeletionsSent(ks)) + [DeletionMessage(k)]
    ensures ks + [] == ks && (sent + DeletionsSent(ks)) + [] == sent + DeletionsSent(ks)
  {
    assert DeletionsSent(ks + [k]) == DeletionsSent(ks) + [DeletionMessage(k)];
  }

  /** The last key forgets its own, or not; the others forget what they forgot. */
  lemma ForgetsSnoc(front: seq<string>, last: string, failing: set<string>, before: seq<string>, dispatched: seq<string>, key: string)
    requires forall k | k in front :: k in dispatched <==> k in before
    ensures Forgets(front + [last], failing, dispatched, key) <==>
      Forgets(front, failing, before, key) || (DropKey(last) == key && !(last in failing && last in dispatched))
  {
    var ks := front + [last];
    assert last in ks && forall k | k in front :: k in ks;
    if k :| k in front && DropKey(k) == key && !(k in failing && k in before) {
      assert k in ks && !(k in failing && k in dispatched);
    }
    if k :| k in ks && DropKey(k) == key && !(k in failing && k in dispatched) {
      assert k in front || k == last;
    }
  }

  lemma {:induction false} KeysForget(sc: Scan, ks: seq<string>, failing: set<string>, key: string)
    requires Distinct(ks)
    ensures Lookup(AllDeleted(sc, ks, failing).stats, key) ==
      if Forgets(ks, failing, DispatchedKeys(sc, ks, failing), key) then None else Lookup(sc.stats, key)
  {
    if ks != [] {
      var front, last := ks[..|ks| - 1], ks[|ks| - 1];
      KeysForget(sc, front, failing, key);
      KeysDispatch(sc, front, failing);
      DeletionDrops(AllDeleted(sc, front, failing), last, last !in failing);
      KeysSnoc(sc, ks, failing, front, last);
      ForgetsSnoc(front, last, failing, DispatchedKeys(sc, front, failing), DispatchedKeys(sc, ks, failing), key);
    }
  }

  lemma KeysSnoc(sc: Scan, ks: seq<string>, failing: set<string>, front: seq<string>, last: string)
    requires ks != [] && Distinct(ks) && front == ks[..|ks| - 1] && last == ks[|ks| - 1]
    requires forall k | k in DispatchedKeys(sc, front, failing) :: k in front
    ensures ks == front + [last] && last !in front
    ensures forall k | k in front :: k in DispatchedKeys(sc, ks, failing) <==> k in DispatchedKeys(sc, front, failing)
    ensures last in DispatchedKeys(sc, ks, failing) <==> DropDispatched(AllDeleted(sc, front, failing), last)
  {}

  /** A key that is not dispatched shares its cache entry. */
  lemma {:induction false} KeysShare(sc: Scan, ks: seq<string>, failing: set<string>, k: string)
    requires Distinct(ks) && Bridge.CacheFits(sc.recent) && k in ks && k !in DispatchedKeys(sc, ks, failing)
    ensures Repeats(sc, Paths.KeyOf(k), []) ||
      exists d :: d in DispatchedKeys(sc, ks, failing) && Paths.KeyOf(d) == Paths.KeyOf(k)
  {
    var front, last := ks[..|ks| - 1], ks[|ks| - 1];
    assert ks == front + [last];
    if k in front {
      KeysShare(sc, front, failing, k);
      if d :| d in DispatchedKeys(sc, front, failing) && Paths.KeyOf(d) == Paths.KeyOf(k) {
        assert d in DispatchedKeys(sc, ks, failing);
      }
    } else {
      KeysCache(sc, front, failing);
      assert Repeats(AllDeleted(sc, front, failing), Paths.KeyOf(k), []);
      if d :| d in DispatchedKeys(sc, front, failing) && Paths.KeyOf(d) == Paths.KeyOf(k) {
        assert d in DispatchedKeys(sc, ks, failing);
      }
    }
  }

  lemma DropResults(sc: Scan, ks: seq<string>, failing: set<string>)
    requires Distinct(ks) && Bridge.CacheFits(sc.recent)
    ensures var next := AllDeleted(sc, ks, failing);
      DropResult(sc, ks, failing, DispatchedKeys(sc, ks, failing), next.stats, next.sent)
  {
    KeysDispatch(sc, ks, failing);
    forall key ensures Lookup(AllDeleted(sc, ks, failing).stats, key) ==
      if Forgets(ks, failing, DispatchedKeys(sc, ks, failing), key) then None else Lookup(sc.stats, key)
    {
      KeysForget(sc, ks, failing, key);
    }
    forall k | k in ks && k !in DispatchedKeys(sc, ks, failing)
      ensures Repeats(sc, Paths.KeyOf(k), []) ||
        exists d :: d in DispatchedKeys(sc, ks, failing) && Paths.KeyOf(d) == Paths.KeyOf(k)
    {
      KeysShare(sc, ks, failing, k);
    }
  }

  lemma {:induction false} VanishedSnoc(t: Tree, a: seq<string>, k: string)
    ensures VanishedKeys(t, a + [k]) == VanishedKeys(t, a) + if Vanished(t, k) then [k] else []
  {
    if a == [] {
      assert a + [k] == [k] && [k][1..] == [] && VanishedKeys(t, []) == [];
    } else {
      assert (a + [k])[1..] == a[1..] + [k] && (a + [k])[0] == a[0];
      VanishedSnoc(t, a[1..], k);
      var first := if Vanished(t, a[0]) then [a[0]] else [];
      assert first + (VanishedKeys(t, a[1..]) + if Vanished(t, k) then [k] else []) ==
        (first + VanishedKeys(t, a[1..])) + if Vanished(t, k) then [k] else [];
    }
  }

  lemma {:induction false} VanishedIs(t: Tree, keys: seq<string>)
    ensures forall k :: k in VanishedKeys(t, keys) <==> k in keys && Vanished(t, k)
  {
    if keys != [] {
      VanishedIs(t, keys[1..]);
    }
  }

  // -------- the index after a start --------

  /** The names that a file system gives. */
  predicate ProperTree(t: Tree) {
    forall q | q in t :: Paths.ProperNames(q)
  }

  /** The key is the name of a visible file. */
  predicate NamesFile(t: Tree, key: string) {
    Named(key) && StatKey(key) && IsVisibleFile(t, LocOf(key))
  }

  lemma FileHasName(t: Tree, p: Loc)
    requires WellFormed(t) && ProperTree(t) && IsVisibleFile(t, p)
    ensures NamesFile(t, NameOf(p)) && LocOf(NameOf(p)) == p
  {
    LocKey(p);
  }

  lemma NameIsLoc(t: Tree, key: string, p: Loc)
    requires WellFormed(t) && ProperTree(t) && IsVisibleFile(t, p)
    ensures key == NameOf(p) <==> NamesFile(t, key) && LocOf(key) == p
  {
    FileHasName(t, p);
    if NamesFile(t, key) {
      KeyLoc(key);
    }
  }

  lemma InFrontOrLast(walk: seq<Loc>, p: Loc)
    requires walk != []
    ensures p in walk <==> p in walk[..|walk| - 1] || p == walk[|walk| - 1]
  {
    assert walk == walk[..|walk| - 1] + [walk[|walk| - 1]];
  }

  lemma VisitedAt(t: Tree, sc: Scan, p: Loc, key: string)
    requires IsVisibleFile(t, p)
    ensures Lookup(Visited(t, sc, p, true).stats, key) ==
      if key == NameOf(p) then Some(StatOf(t[p])) else Lookup(sc.stats, key)
  {}

  /** What the change scan leaves under a key. */
  lemma {:induction false} WalkedAt(t: Tree, sc: Scan, walk: seq<Loc>, key: string)
    requires WellFormed(t) && ProperTree(t) && forall p | p in walk :: IsVisibleFile(t, p)
    ensures Lookup(Walked(t, sc, walk, {}).stats, key) ==
      if NamesFile(t, key) && LocOf(key) in walk then Some(StatOf(t[LocOf(key)])) else Lookup(sc.stats, key)
  {
    if walk != [] {
      var front, last := walk[..|walk| - 1], walk[|walk| - 1];
      WalkedAt(t, sc, front, key);
      NameIsLoc(t, key, last);
      VisitedAt(t, Walked(t, sc, front, {}), last, key);
      InFrontOrLast(walk, LocOf(key));
    }
  }

  lemma DeletedOnce(sc: Scan, key: string)
    ensures Deleted(sc, key, true).stats == sc.stats - {DropKey(key)}
  {}

  function DropKeys(ks: seq<string>): (ds: seq<string>)
    ensures |ds| == |ks| && forall i | 0 <= i < |ks| :: ds[i] == DropKey(ks[i])
  {
    seq(|ks|, i requires 0 <= i < |ks| => DropKey(ks[i]))
  }

  /** What the deletion scan drops. */
  lemma {:induction false} DeletedIs(sc: Scan, ks: seq<string>)
    ensures AllDeleted(sc, ks, {}).stats == StatsWithout(sc.stats, DropKeys(ks))
  {
    if ks == [] {
      assert StatsWithout(sc.stats, []) == sc.stats;
    } else {
      DeletedIs(sc, ks[..|ks| - 1]);
      LastDeleted(sc, ks);
      WithoutLast(sc.stats, ks);
    }
  }

  lemma LastDeleted(sc: Scan, ks: seq<string>)
    requires ks != []
    ensures AllDeleted(sc, ks, {}).stats == AllDeleted(sc, ks[..|ks| - 1], {}).stats - {DropKey(ks[|ks| - 1])}
  {
    DeletedOnce(AllDeleted(sc, ks[..|ks| - 1], {}), ks[|ks| - 1]);
  }

  lemma WithoutLast(stats: Index, ks: seq<string>)
    requires ks != []
    ensures StatsWithout(stats, DropKeys(ks)) == StatsWithout(stats, DropKeys(ks[..|ks| - 1])) - {DropKey(ks[|ks| - 1])}
  {
    assert DropKeys(ks) == DropKeys(ks[..|ks| - 1]) + [DropKey(ks[|ks| - 1])];
    WithoutSnoc(stats, DropKeys(ks[..|ks| - 1]), DropKey(ks[|ks| - 1]));
  }

  /** A key without underscore is dropped under itself; no key with an underscore is ever dropped. */
  lemma DropIs(key: string)
    ensures !("_" <= DropKey(key))
    ensures StatKey(key) && !("_" <= key) ==> DropKey(key) == key
  {
    if StatKey(key) && !("_" <= key) {
      LocalKeyLoc(key);
    }
  }

  /** A hidden name below a first name with an underscore stays hidden in the dropped key. */
  lemma DropStaysHidden(key: string)
    requires StatKey(key) && !Visible(LocOf(key))
    ensures !Visible(LocOf(DropKey(key)))
  {
    if "_" <= key {
      KeyLoc(key);
      assert key[0] == '_' && Named(key);
      assert "" + NameOf(LocOf(key)) == NameOf(LocOf(key));
      StrippedStaysHidden(key, LocOf(key));
    } else {
      DropIs(key);
    }
  }

  lemma StrippedStaysHidden(key: string, p: Loc)
    requires p != [] && Paths.ProperNames(p) && key == NameOf(p) && "_" <= key && !Visible(p)
    ensures !Visible(LocOf(DropKey(key)))
  {
    var tail := p[1..];
    var j :| 0 <= j < |p| && "." <= p[j];
    assert Paths.ProperName(p[0]) && p[0][0] == key[0] == '_' && j > 0;
    assert tail[j - 1] == p[j] && Paths.ProperNames(tail);
    var rest := p[0][1..];
    assert key == p[0] + "/" + NameOf(tail) && Paths.KeyOf(key) == rest + "/" + NameOf(tail);
    Paths.LocalOfStripped(rest, tail);
    HiddenTail(DropKey(key), rest, tail, j - 1);
  }

  lemma HiddenTail(local: string, first: string, tail: Loc, j: nat)
    requires j < |tail| && "." <= tail[j]
    requires var q := LocOf(local); q == tail || q == [first] + tail
    ensures !Visible(LocOf(local))
  {
    var q := LocOf(local);
    if q == tail {
      assert "." <= q[j];
    } else {
      assert "." <= q[j + 1];
    }
  }

  /** What both scans leave under a key. */
  lemma ScannedAt(t: Tree, stats: Index, walk: seq<Loc>, keys: seq<string>, key: string)
    requires WellFormed(t) && ProperTree(t) && Orders(t, stats, walk, keys)
    ensures Lookup(Scanned(t, stats, walk, keys).stats, key) ==
      if exists d :: d in stats && Vanished(t, d) && DropKey(d) == key then None
      else if NamesFile(t, key) then Some(StatOf(t[LocOf(key)])) else Lookup(stats, key)
  {
    var walked := Walked(t, Begin(stats), walk, {});
    WalkedAt(t, Begin(stats), walk, key);
    var gone := VanishedKeys(t, keys);
    DeletedIs(walked, gone);
    VanishedIs(t, keys);
    forall d ensures d in VanishedKeys(t, keys) <==> d in stats && Vanished(t, d) {
      WalkedAt(t, Begin(stats), walk, d);
      assert d in walked.stats.Keys <==> d in walked.stats;
    }
    assert NamesFile(t, key) ==> LocOf(key) in VisibleFiles(t);
    DropKeysIs(gone, key);
  }

  lemma DropKeysIs(ks: seq<string>, key: string)
    ensures key in DropKeys(ks) <==> exists d :: d in ks && DropKey(d) == key
  {
    if d :| d in ks && DropKey(d) == key {
      var i :| 0 <= i < |ks| && ks[i] == d;
      assert DropKeys(ks)[i] == key;
    }
    if key in DropKeys(ks) {
      var i :| 0 <= i < |ks| && DropKeys(ks)[i] == key;
      assert ks[i] in ks && DropKey(ks[i]) == key;
    }
  }

  /** The index is the tree, as far as visible paths go. */
  predicate IndexIsTree(t: Tree, stats: Index) {
    && (forall p | p in t && IsVisibleFile(t, p) :: Lookup(stats, NameOf(p)) == Some(StatOf(t[p])))
    && (forall k | k in stats && Visible(LocOf(k)) :: NamesFile(t, k))
  }

  /** A remembered path is gone for good without an underscore in front, or still names its file. */
  predicate Settled(t: Tree, key: string) {
    if Vanished(t, key) then !("_" <= key) else NamesFile(t, key)
  }

  lemma SettledGivesTree(t: Tree, stats: Index, walk: seq<Loc>, keys: seq<string>)
    requires WellFormed(t) && ProperTree(t) && StatKeys(stats) && Orders(t, stats, walk, keys)
    requires forall k | k in stats && Visible(LocOf(k)) :: Settled(t, k)
    ensures IndexIsTree(t, Scanned(t, stats, walk, keys).stats)
  {
    var r := Scanned(t, stats, walk, keys).stats;
    forall p | p in t && IsVisibleFile(t, p) ensures Lookup(r, NameOf(p)) == Some(StatOf(t[p])) {
      FileHasName(t, p);
      ScannedAt(t, stats, walk, keys, NameOf(p));
      forall d | d in stats && Vanished(t, d) ensures DropKey(d) != NameOf(p) {
        DropIs(d);
        if !Visible(LocOf(d)) {
          DropStaysHidden(d);
        }
      }
    }
    forall k | k in r && Visible(LocOf(k)) ensures NamesFile(t, k) {
      ScannedAt(t, stats, walk, keys, k);
      if !NamesFile(t, k) {
        assert k in stats && Settled(t, k);
        DropIs(k);
      }
    }
  }

  lemma TreeNeedsSettled(t: Tree, stats: Index, walk: seq<Loc>, keys: seq<string>, k: string)
    requires WellFormed(t) && ProperTree(t) && StatKeys(stats) && Orders(t, stats, walk, keys)
    requires IndexIsTree(t, Scanned(t, stats, walk, keys).stats)
    requires k in stats && Visible(LocOf(k))
    ensures Settled(t, k)
  {
    var r := Scanned(t, stats, walk, keys).stats;
    ScannedAt(t, stats, walk, keys, k);
    if "_" <= k && Vanished(t, k) {
      StaysForEver(t, stats, walk, keys, k);
    } else if !Vanished(t, k) {
      if d :| d in stats && Vanished(t, d) && DropKey(d) == k {
        DropIs(d);
        if !Visible(LocOf(d)) {
          DropStaysHidden(d);
        } else {
          StaysForEver(t, stats, walk, keys, d);
        }
      }
    }
  }

  /** A remembered path with an underscore that has vanished is never dropped. */
  lemma StaysForEver(t: Tree, stats: Index, walk: seq<Loc>, keys: seq<string>, k: string)
    requires WellFormed(t) && ProperTree(t) && Orders(t, stats, walk, keys)
    requires k in stats && Vanished(t, k) && "_" <= k
    ensures k in Scanned(t, stats, walk, keys).stats && !NamesFile(t, k)
  {
    ScannedAt(t, stats, walk, keys, k);
    forall d ensures DropKey(d) != k {
      DropIs(d);
    }
  }

  /**
    Where every dispatch succeeds, the index ends up equal to the tree, as far as visible paths go, if and only if every
    remembered visible path that has vanished has no underscore in front, and every other one names its file.
   */
  lemma ScanIsExactIff(t: Tree, stats: Index, walk: seq<Loc>, keys: seq<string>)
    requires WellFormed(t) && ProperTree(t) && StatKeys(stats) && Orders(t, stats, walk, keys)
    ensures IndexIsTree(t, Scanned(t, stats, walk, keys).stats) <==>
      forall k | k in stats && Visible(LocOf(k)) :: Settled(t, k)
  {
    if forall k | k in stats && Visible(LocOf(k)) :: Settled(t, k) {
      SettledGivesTree(t, stats, walk, keys);
    }
    if IndexIsTree(t, Scanned(t, stats, walk, keys).stats) {
      forall k | k in stats && Visible(LocOf(k)) ensures Settled(t, k) {
        TreeNeedsSettled(t, stats, walk, keys, k);
      }
    }
  }

  // -------- a second start --------

  lemma {:induction false} NothingChanged(t: Tree, sc: Scan, walk: seq<Loc>)
    requires forall p | p in walk :: IsVisibleFile(t, p) && !HasChanged(t, sc.stats, p)
    ensures Walked(t, sc, walk, {}) == sc
  {
    if walk != [] {
      NothingChanged(t, sc, walk[..|walk| - 1]);
    }
  }

  lemma {:induction false} NothingVanished(t: Tree, keys: seq<string>)
    requires forall k | k in keys :: !Vanished(t, k)
    ensures VanishedKeys(t, keys) == []
  {
    if keys != [] {
      assert keys[0] in keys && forall k | k in keys[1..] :: k in keys;
      NothingVanished(t, keys[1..]);
    }
  }

  /** As long as nothing was sent, nothing was cached. */
  lemma {:induction false} SilentIsBlank(t: Tree, sc: Scan, walk: seq<Loc>)
    requires sc.recent == [] && sc.sent == [] && forall p | p in walk :: IsVisibleFile(t, p)
    ensures Walked(t, sc, walk, {}).sent == [] ==> Walked(t, sc, walk, {}).recent == []
  {
    if walk != [] {
      SilentIsBlank(t, sc, walk[..|walk| - 1]);
    }
  }

  lemma {:induction false} DeletionsAreHeard(sc: Scan, ks: seq<string>)
    requires sc.sent != [] || (sc.recent == [] && ks != [])
    ensures AllDeleted(sc, ks, {}).sent != []
  {
    if |ks| > 1 || (|ks| == 1 && sc.sent != []) {
      if sc.sent != [] || |ks| > 1 {
        DeletionsAreHeard(sc, ks[..|ks| - 1]);
      }
    } else if |ks| == 1 {
      assert ks[..0] == [] && AllDeleted(sc, [], {}) == sc;
    }
  }

  lemma SecondScanSends(t: Tree, stats: Index, walk: seq<Loc>, keys: seq<string>, walk2: seq<Loc>, keys2: seq<string>, d: string)
    requires WellFormed(t) && ProperTree(t) && StatKeys(stats) && Orders(t, stats, walk, keys)
    requires Orders(t, Scanned(t, stats, walk, keys).stats, walk2, keys2)
    requires d in stats && Vanished(t, d) && "_" <= d
    ensures Scanned(t, Scanned(t, stats, walk, keys).stats, walk2, keys2).sent != []
  {
    var r := Scanned(t, stats, walk, keys).stats;
    StaysForEver(t, stats, walk, keys, d);
    var walked := Walked(t, Begin(r), walk2, {});
    WalkedAt(t, Begin(r), walk2, d);
    assert d in walked.stats.Keys;
    VanishedIs(t, keys2);
    assert d in VanishedKeys(t, keys2);
    SilentIsBlank(t, Begin(r), walk2);
    DeletionsAreHeard(walked, VanishedKeys(t, keys2));
  }

  lemma SecondScanRests(t: Tree, stats: Index, walk: seq<Loc>, keys: seq<string>, walk2: seq<Loc>, keys2: seq<string>)
    requires WellFormed(t) && ProperTree(t) && StatKeys(stats) && Orders(t, stats, walk, keys)
    requires Orders(t, Scanned(t, stats, walk, keys).stats, walk2, keys2)
    requires forall d | d in stats && Vanished(t, d) :: !("_" <= d)
    ensures Scanned(t, Scanned(t, stats, walk, keys).stats, walk2, keys2).sent == []
  {
    var r := Scanned(t, stats, walk, keys).stats;
    forall p | p in walk2 ensures !HasChanged(t, r, p) {
      FileHasName(t, p);
      ScannedAt(t, stats, walk, keys, NameOf(p));
      forall d | d in stats && Vanished(t, d) ensures DropKey(d) != NameOf(p) {
        DropIs(d);
      }
    }
    NothingChanged(t, Begin(r), walk2);
    forall k | k in keys2 ensures !Vanished(t, k) {
      assert k in Walked(t, Begin(r), walk2, {}).stats.Keys;
      ScannedAt(t, stats, walk, keys, k);
      if k in stats && Vanished(t, k) {
        DropIs(k);
      }
    }
    NothingVanished(t, keys2);
  }

  /** A second start on the same tree is silent if and only if no remembered path that vanished begins with an underscore. */
  lemma SecondScanIsSilentIff(t: Tree, stats: Index, walk: seq<Loc>, keys: seq<string>, walk2: seq<Loc>, keys2: seq<string>)
    requires WellFormed(t) && ProperTree(t) && StatKeys(stats) && Orders(t, stats, walk, keys)
    requires Orders(t, Scanned(t, stats, walk, keys).stats, walk2, keys2)
    ensures Scanned(t, Scanned(t, stats, walk, keys).stats, walk2, keys2).sent == [] <==>
      forall d | d in stats && Vanished(t, d) :: !("_" <= d)
  {
    if d :| d in stats && Vanished(t, d) && "_" <= d {
      SecondScanSends(t, stats, walk, keys, walk2, keys2, d);
    } else {
      SecondScanRests(t, stats, walk, keys, walk2, keys2);
    }
  }

  // -------- what is sent --------

  function ChangedFiles(t: Tree, stats: Index, walk: seq<Loc>): seq<Sent>
    requires forall p | p in walk :: IsVisibleFile(t, p)
  {
    if walk == [] then []
    else
      var last := walk[|walk| - 1];
      ChangedFiles(t, stats, walk[..|walk| - 1]) +
      if HasChanged(t, stats, last) then [SentFile(NameOf(last), t[last].data)] else []
  }

  function Deletions(keys: seq<string>): seq<Sent> {
    seq(|keys|, i requires 0 <= i < |keys| => SentDeletion(keys[i]))
  }

  predicate NoUnderscores(walk: seq<Loc>, vanished: seq<string>) {
    (forall p | p in walk :: !("_" <= NameOf(p))) && forall k | k in vanished :: !("_" <= k)
  }

  /** A path that the cache does not know is sent, and only that path is new to the cache. */
  lemma NewIsSent(sc: Scan, path: Path, hash: Hash, what: Sent)
    requires Bridge.CacheFits(sc.recent) && path !in LruCache.Contents(sc.recent)
    ensures var next := Handed(sc, path, hash, what);
      && Bridge.CacheFits(next.recent) && next.sent == sc.sent + [what] && next.stats == sc.stats
      && forall k | k in LruCache.Contents(next.recent) :: k == path || k in LruCache.Contents(sc.recent)
  {
    LruCache.UsedAddedKnows(sc.recent, Bridge.CACHE_SIZE, path, hash);
  }

  lemma {:induction false} WalkSends(t: Tree, stats: Index, walk: seq<Loc>)
    requires WellFormed(t) && ProperTree(t)
    requires forall p | p in walk :: IsVisibleFile(t, p) && !("_" <= NameOf(p))
    requires forall i, j | 0 <= i < j < |walk| :: walk[i] != walk[j]
    ensures var sc := Walked(t, Begin(stats), walk, {});
      && Bridge.CacheFits(sc.recent) && sc.sent == ChangedFiles(t, stats, walk)
      && forall k | k in LruCache.Contents(sc.recent) :: NamesFile(t, k) && LocOf(k) in walk
  {
    if walk != [] {
      var front, last := walk[..|walk| - 1], walk[|walk| - 1];
      var sc, name := Walked(t, Begin(stats), front, {}), NameOf(last);
      WalkSends(t, stats, front);
      FileHasName(t, last);
      WalkedAt(t, Begin(stats), front, name);
      assert last !in front;
      if HasChanged(t, sc.stats, last) {
        assert Paths.KeyOf(name) == name;
        NewIsSent(sc, name, t[last].data, SentFile(name, t[last].data));
      }
    }
  }

  lemma DeletedSends(sc: Scan, key: string)
    requires Bridge.CacheFits(sc.recent) && !("_" <= key) && key !in LruCache.Contents(sc.recent)
    ensures var next := Deleted(sc, key, true);
      && Bridge.CacheFits(next.recent) && next.sent == sc.sent + [SentDeletion(key)]
      && forall k | k in LruCache.Contents(next.recent) :: k == key || k in LruCache.Contents(sc.recent)
  {
    assert Paths.KeyOf(key) == key;
    NewIsSent(sc, key, [], SentDeletion(key));
  }

  /** The keys may be sent one after the other: the cache knows none of them, and none comes twice. */
  predicate Fresh(recent: Bridge.Recent, ks: seq<string>) {
    && Bridge.CacheFits(recent)
    && (forall k | k in ks :: !("_" <= k) && k !in LruCache.Contents(recent))
    && forall i, j | 0 <= i < j < |ks| :: ks[i] != ks[j]
  }

  predicate KnowsOnly(before: Bridge.Recent, ks: seq<string>, after: Bridge.Recent) {
    Bridge.CacheFits(after) && forall k | k in LruCache.Contents(after) :: k in ks || k in LruCache.Contents(before)
  }

  lemma LastDeletionSent(sc: Scan, ks: seq<string>, before: Scan)
    requires Fresh(sc.recent, ks) && ks != [] && KnowsOnly(sc.recent, ks[..|ks| - 1], before.recent)
    ensures var next := Deleted(before, ks[|ks| - 1], true);
      KnowsOnly(sc.recent, ks, next.recent) && next.sent == before.sent + [SentDeletion(ks[|ks| - 1])]
  {
    assert ks[|ks| - 1] in ks && ks[|ks| - 1] !in ks[..|ks| - 1];
    DeletedSends(before, ks[|ks| - 1]);
    assert forall k | k in ks[..|ks| - 1] :: k in ks;
  }

  /** Everything in ks was sent, and nothing else is new to the cache. */
  predicate AllSent(sc: Scan, ks: seq<string>, next: Scan) {
    next.sent == sc.sent + Deletions(ks) && KnowsOnly(sc.recent, ks, next.recent)
  }

  lemma AllSentSnoc(sc: Scan, ks: seq<string>, before: Scan)
    requires Fresh(sc.recent, ks) && ks != [] && AllSent(sc, ks[..|ks| - 1], before)
    ensures AllSent(sc, ks, Deleted(before, ks[|ks| - 1], true))
  {
    LastDeletionSent(sc, ks, before);
    AppendSent(sc, ks, before, Deleted(before, ks[|ks| - 1], true));
  }

  lemma AppendSent(sc: Scan, ks: seq<string>, before: Scan, next: Scan)
    requires ks != [] && AllSent(sc, ks[..|ks| - 1], before) && KnowsOnly(sc.recent, ks, next.recent)
    requires next.sent == before.sent + [SentDeletion(ks[|ks| - 1])]
    ensures AllSent(sc, ks, next)
  {
    DeletionsSnoc(ks);
    Reassociate(sc.sent, Deletions(ks[..|ks| - 1]), SentDeletion(ks[|ks| - 1]));
  }

  lemma DeletionsSnoc(ks: seq<string>)
    requires ks != []
    ensures Deletions(ks) == Deletions(ks[..|ks| - 1]) + [SentDeletion(ks[|ks| - 1])]
  {}

  lemma Reassociate(a: seq<Sent>, b: seq<Sent>, x: Sent)
    ensures a + (b + [x]) == (a + b) + [x]
  {}

  lemma FrontIsFresh(recent: Bridge.Recent, ks: seq<string>)
    requires Fresh(recent, ks) && ks != []
    ensures Fresh(recent, ks[..|ks| - 1])
  {
    var front := ks[..|ks| - 1];
    forall k | k in front ensures !("_" <= k) && k !in LruCache.Contents(recent) {
      assert k in ks;
    }
    assert forall i, j | 0 <= i < j < |front| :: front[i] == ks[i] && front[j] == ks[j];
  }

  lemma NothingSent(sc: Scan)
    requires Bridge.CacheFits(sc.recent)
    ensures AllSent(sc, [], sc)
  {
    assert sc.sent + Deletions([]) == sc.sent;
  }

  lemma {:induction false} DeletionsSend(sc: Scan, ks: seq<string>)
    requires Fresh(sc.recent, ks)
    ensures AllSent(sc, ks, AllDeleted(sc, ks, {}))
  {
    if ks == [] {
      NothingSent(sc);
    } else {
      FrontIsFresh(sc.recent, ks);
      DeletionsSend(sc, ks[..|ks| - 1]);
      AllSentSnoc(sc, ks, AllDeleted(sc, ks[..|ks| - 1], {}));
    }
  }

  lemma {:induction false} VanishedDistinct(t: Tree, keys: seq<string>)
    requires forall i, j | 0 <= i < j < |keys| :: keys[i] != keys[j]
    ensures forall i, j | 0 <= i < j < |VanishedKeys(t, keys)| :: VanishedKeys(t, keys)[i] != VanishedKeys(t, keys)[j]
  {
    if keys != [] {
      VanishedDistinct(t, keys[1..]);
      VanishedIs(t, keys[1..]);
      assert keys[0] !in keys[1..];
    }
  }

  /** Without underscores, the scans send each changed visible file once, and each vanished key once as a deletion. */
  lemma DifferenceIsSent(t: Tree, stats: Index, walk: seq<Loc>, keys: seq<string>)
    requires WellFormed(t) && ProperTree(t) && StatKeys(stats) && Orders(t, stats, walk, keys)
    requires NoUnderscores(walk, VanishedKeys(t, keys))
    ensures Scanned(t, stats, walk, keys).sent == ChangedFiles(t, stats, walk) + Deletions(VanishedKeys(t, keys))
  {
    WalkSends(t, stats, walk);
    VanishedIs(t, keys);
    VanishedDistinct(t, keys);
    var walked, gone := Walked(t, Begin(stats), walk, {}), VanishedKeys(t, keys);
    assert Fresh(walked.recent, gone);
    DeletionsSend(walked, gone);
    assert AllSent(walked, gone, Scanned(t, stats, walk, keys));
    assert Scanned(t, stats, walk, keys).sent == walked.sent + Deletions(gone);
  }

  // -------- underscores --------

  /** A file and the one whose name has an underscore more share a cache entry: with equal bytes the second is not sent. */
  lemma TwinIsSkipped(t: Tree, sc: Scan, p: Loc, q: Loc, ok: bool)
    requires WellFormed(t) && ProperTree(t) && Bridge.CacheFits(sc.recent)
    requires HasChanged(t, sc.stats, p) && HasChanged(t, sc.stats, q) && t[p].data == t[q].data
    requires NameOf(q) == "_" + NameOf(p) && !("_" <= NameOf(p))
    ensures var first := Visited(t, sc, p, ok);
      Visited(t, first, q, true).sent == first.sent && !HasChanged(t, Visited(t, first, q, true).stats, q)
  {
    FileHasName(t, p);
    FileHasName(t, q);
    assert Paths.KeyOf(NameOf(q)) == NameOf(p) == Paths.KeyOf(NameOf(p));
    var data := t[p].data;
    var first := Visited(t, sc, p, ok);
    LruCache.UsedKeepsContents(sc.recent, NameOf(p));
    LruCache.UsedAddedKnows(sc.recent, Bridge.CACHE_SIZE, NameOf(p), data);
    assert Repeats(first, NameOf(p), data);
  }

  /** The file n is there, and the name with an underscore more is remembered and gone. */
  predicate IsNeighbour(t: Tree, p: Loc, n: string) {
    && WellFormed(t) && ProperTree(t) && IsVisibleFile(t, p) && t[p].data != []
    && n == NameOf(p) && !("_" <= n) && Vanished(t, "_" + n)
  }

  lemma NeighbourKeys(t: Tree, p: Loc, n: string)
    requires IsNeighbour(t, p, n)
    ensures !Vanished(t, n) && DropKey("_" + n) == n && Paths.KeyOf("_" + n) == n == Paths.KeyOf(n)
  {
    FileHasName(t, p);
    LocalKeyLoc(n);
  }

  lemma OneVanished(t: Tree, p: Loc, n: string)
    requires IsNeighbour(t, p, n)
    ensures VanishedKeys(t, ["_" + n, n]) == ["_" + n]
  {
    NeighbourKeys(t, p, n);
    assert ["_" + n, n][1..] == [n] && [n][1..] == [] && VanishedKeys(t, []) == [];
    assert VanishedKeys(t, [n]) == [];
  }

  lemma NeighbourDropped(t: Tree, p: Loc, n: string, sc: Scan)
    requires IsNeighbour(t, p, n) && !Repeats(sc, n, [])
    ensures var next := AllDeleted(sc, VanishedKeys(t, ["_" + n, n]), {});
      next.sent == sc.sent + [SentDeletion(n)] && next.stats == sc.stats - {n}
  {
    OneVanished(t, p, n);
    NeighbourKeys(t, p, n);
    assert ["_" + n][..0] == [] && AllDeleted(sc, [], {}) == sc;
    assert AllDeleted(sc, ["_" + n], {}) == Deleted(sc, "_" + n, true);
  }

  lemma WalkOne(t: Tree, sc: Scan, p: Loc)
    requires IsVisibleFile(t, p)
    ensures Walked(t, sc, [p], {}) == Visited(t, sc, p, true)
  {
    assert [p][..0] == [] && Walked(t, sc, [], {}) == sc;
  }

  /** The first start deletes the neighbour for the whole group, and forgets it; the key with the underscore stays. */
  lemma NeighbourIsDeleted(t: Tree, p: Loc, n: string, stats: Index)
    requires IsNeighbour(t, p, n) && Lookup(stats, n) == Some(StatOf(t[p]))
    ensures Scanned(t, stats, [p], ["_" + n, n]).sent == [SentDeletion(n)]
    ensures Scanned(t, stats, [p], ["_" + n, n]).stats == stats - {n}
  {
    WalkOne(t, Begin(stats), p);
    NeighbourDropped(t, p, n, Begin(stats));
  }

  /** Every later start sends the file and its deletion again, and leaves everything as it was. */
  lemma NeighbourIsDeletedAgain(t: Tree, p: Loc, n: string, stats: Index)
    requires IsNeighbour(t, p, n) && n !in stats
    ensures Scanned(t, stats, [p], ["_" + n, n]).sent == [SentFile(n, t[p].data), SentDeletion(n)]
    ensures Scanned(t, stats, [p], ["_" + n, n]).stats == stats
  {
    NeighbourSent(t, p, n, stats);
    NeighbourDropped(t, p, n, Walked(t, Begin(stats), [p], {}));
    SentAndDropped(stats, n, StatOf(t[p]), SentFile(n, t[p].data), SentDeletion(n));
  }

  predicate FileSent(t: Tree, p: Loc, n: string, stats: Index, walked: Scan)
    requires IsVisibleFile(t, p)
  {
    walked.sent == [SentFile(n, t[p].data)] && walked.stats == stats[n := StatOf(t[p])] && !Repeats(walked, n, [])
  }

  lemma NeighbourSent(t: Tree, p: Loc, n: string, stats: Index)
    requires IsNeighbour(t, p, n) && n !in stats
    ensures FileSent(t, p, n, stats, Walked(t, Begin(stats), [p], {}))
  {
    NeighbourKeys(t, p, n);
    WalkOne(t, Begin(stats), p);
    LruCache.UsedAddedKnows([], Bridge.CACHE_SIZE, n, t[p].data);
  }

  lemma SentAndDropped(before: Index, n: string, stat: Stat, sent: Sent, dropped: Sent)
    requires n !in before
    ensures before[n := stat] - {n} == before && [sent] + [dropped] == [sent, dropped]
  {}
}

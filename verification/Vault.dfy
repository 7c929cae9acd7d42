/** The file system side of a storage peer: Put and Delete as the source performs them, step by step. */
module Vault {
  import opened Types
  import opened FileTree
  import opened StatIndex
  import opened SyncPeers
  import Paths

  /** What os.Stat reports. */
  datatype Look = NotExist | NotDirectory | Found(node: Node)

  function StatAt(t: Tree, p: Loc): Look {
    if p in t then Found(t[p])
    else if exists a :: a in Ancestors(p) && a in t && t[a].File? then NotDirectory
    else NotExist
  }

  /** os.MkdirAll, when no file is in the way. */
  function MkdirAll(t: Tree, dir: Loc): Tree {
    t + (map a | a in Ancestors(dir) + {dir} && a !in t :: Dir)
  }

  /** os.RemoveAll. */
  function RemoveAll(t: Tree, p: Loc): Tree {
    map q | q in t && !(p <= q) :: t[q]
  }

  predicate IsEmptyDir(t: Tree, dir: Loc) {
    forall r | r in t :: !(dir < r)
  }

  /** cleanupEmptyDirs: remove dir if it is empty, and go on with its parent; the root stays. */
  function Cleaned(t: Tree, dir: Loc): Tree {
    if dir == [] || dir !in t || !IsEmptyDir(t, dir) then t
    else Cleaned(t - {dir}, dir[..|dir| - 1])
  }

  /** The upward walk removes exactly the hollow directories. */
  lemma {:induction false} CleanedIs(t: Tree, dir: Loc)
    requires WellFormed(t) && dir in t && t[dir].Dir?
    ensures Cleaned(t, dir) == map q | q in t && !Hollow(t, dir, q) :: t[q]
  {
    var hollow := map q | q in t && !Hollow(t, dir, q) :: t[q];
    if dir == [] {
      assert hollow == t;
    } else if !IsEmptyDir(t, dir) {
      var r :| r in t && dir < r;
      forall q | q in t ensures !Hollow(t, dir, q) {
        if q <= dir {
          assert q <= r;
        }
      }
      assert hollow == t;
    } else {
      var u, up := t - {dir}, dir[..|dir| - 1];
      AncestorIs(up, dir);
      forall q, a | q in u && a in Ancestors(q) ensures a in u && u[a].Dir? {
        AncestorIs(a, q);
      }
      CleanedIs(u, up);
      forall q | q in t ensures q in u && !Hollow(u, up, q) <==> !Hollow(t, dir, q) {
        OneUp(t, dir, q);
      }
      assert (map q | q in u && !Hollow(u, up, q) :: u[q]) == hollow;
    }
  }

  /** Whether q is hollow below dir does not depend on dir itself. */
  lemma HollowOneUp(t: Tree, dir: Loc, q: Loc)
    requires dir != [] && q != dir
    ensures Hollow(t - {dir}, dir[..|dir| - 1], q) <==> Hollow(t, dir, q)
  {
    var u, up := t - {dir}, dir[..|dir| - 1];
    UpTo(q, dir);
    if Hollow(u, up, q) {
      forall r | r in t && q <= r ensures r <= dir {
        UpTo(r, dir);
        assert r != dir ==> r in u;
      }
    }
    if Hollow(t, dir, q) {
      forall r | r in u && q <= r ensures r <= up {
        UpTo(r, dir);
      }
    }
  }

  lemma OneUp(t: Tree, dir: Loc, q: Loc)
    requires WellFormed(t) && dir in t && dir != [] && IsEmptyDir(t, dir) && q in t
    ensures var u, up := t - {dir}, dir[..|dir| - 1];
      q in u && !Hollow(u, up, q) <==> !Hollow(t, dir, q)
  {
    var u, up := t - {dir}, dir[..|dir| - 1];
    if q == dir {
      forall r | r in t && q <= r ensures r <= dir {
        assert !(dir < r);
      }
      assert Hollow(t, dir, q);
    } else {
      HollowOneUp(t, dir, q);
    }
  }

  lemma UpTo(q: Loc, p: Loc)
    requires p != []
    ensures q <= p[..|p| - 1] <==> q < p
    ensures q <= p[..|p| - 1] <==> q <= p && q != p
    ensures q in Ancestors(p[..|p| - 1]) + {p[..|p| - 1]} <==> q < p
  {
    var dir := p[..|p| - 1];
    AncestorIs(q, dir);
    if q <= p {
      if |q| == |p| {
        assert q == p;
      } else {
        assert q == dir[..|q|];
        assert |q| == |dir| ==> q == dir;
      }
    }
  }

  /** The tree without the files on the way to dir. */
  function WayCleared(t: Tree, dir: Loc): Tree {
    map q | q in t && !(q <= dir && IsFile(t, q)) :: t[q]
  }

  /** On a well-formed tree at most one location on the way to dir is a file. */
  lemma OnlyBlocker(t: Tree, dir: Loc, k: nat)
    requires WellFormed(t) && 1 <= k <= |dir| && IsFile(t, dir[..k])
    ensures t - {dir[..k]} == WayCleared(t, dir)
    ensures forall q | q <= dir && IsFile(t, q) :: q == dir[..k]
    ensures WellFormed(t - {dir[..k]})
  {
    var b := dir[..k];
    forall q | q <= dir && IsFile(t, q) ensures q == b {
      if |q| < k {
        assert q == b[..|q|];
        Above(t, q, b);
      } else {
        assert b <= q;
        Above(t, b, q);
      }
    }
    forall q | q in t && b in Ancestors(q) ensures false {
      AncestorIs(b, q);
      Above(t, b, q);
    }
  }

  /** And its key is the only one that is dropped. */
  lemma OnlyStat(t: Tree, stats: Index, dir: Loc, k: nat)
    requires WellFormed(t) && StatKeys(stats) && Paths.ProperNames(dir)
    requires 1 <= k <= |dir| && IsFile(t, dir[..k])
    ensures stats - {NameOf(dir[..k])} == StatsCleared(t, stats, dir)
  {
    OnlyBlocker(t, dir, k);
    LocKey(dir[..k]);
    forall key | key in stats
      ensures key == NameOf(dir[..k]) <==> Named(key) && LocOf(key) <= dir && IsFile(t, LocOf(key))
    {
      KeyLoc(key);
    }
  }

  lemma NoBlocker(t: Tree, stats: Index, dir: Loc)
    requires forall j | 0 <= j <= |dir| :: dir[..j] in t ==> t[dir[..j]].Dir?
    ensures t == WayCleared(t, dir) && stats == StatsCleared(t, stats, dir)
  {
    forall q | q in t && q <= dir ensures t[q].Dir? {
      assert q == dir[..|q|];
    }
  }

  function Written(t: Tree, p: Loc, file: Node): Tree {
    var open := if p == [] then t
                else MkdirAll(WayCleared(t, p[..|p| - 1]), p[..|p| - 1]);
    (if p in open && open[p].Dir? then RemoveAll(open, p) else open)[p := file]
  }

  /** The steps of Put amount to AfterPut. */
  lemma PutTree(t: Tree, p: Loc, file: Node)
    requires WellFormed(t) && file.File?
    ensures Written(t, p, file) == AfterPut(t, p, file)
  {
    forall q ensures Lookup(Written(t, p, file), q) == Lookup(AfterPut(t, p, file), q) {
      WrittenAt(t, p, file, q);
    }
    SameTree(Written(t, p, file), AfterPut(t, p, file));
  }

  lemma WrittenAt(t: Tree, p: Loc, file: Node, q: Loc)
    requires WellFormed(t) && file.File?
    ensures Lookup(Written(t, p, file), q) == Lookup(AfterPut(t, p, file), q)
  {
    AncestorIs(q, p);
    if p != [] {
      UpTo(q, p);
      UpTo(p, p);
    }
    if q == p {
    } else if q < p {
      assert !(p <= q);
    } else if p <= q {
      if q in t {
        Above(t, p, q);
      }
    }
  }

  /** Clearing and making the way to p does not change whether p is a directory. */
  lemma DirAppears(t: Tree, p: Loc)
    requires WellFormed(t) && p != []
    ensures var open := MkdirAll(WayCleared(t, p[..|p| - 1]), p[..|p| - 1]);
      p in open && open[p].Dir? <==> p in t && t[p].Dir?
  {
    UpTo(p, p);
  }

  /** The stats without those at or below dir. */
  function StatsOutside(stats: Index, dir: Loc): Index {
    if dir == [] then stats else map k | k in stats && !(Named(k) && dir <= LocOf(k)) :: stats[k]
  }

  /** The stats after both cleanups of a Put. */
  function StatsWritten(t: Tree, stats: Index, p: Loc, key: string, stat: Stat): Index
    requires p != []
  {
    var above := StatsCleared(t, stats, p[..|p| - 1]);
    (if p in t && t[p].Dir? then StatsOutside(above, p) else above)[key := stat]
  }

  /** A Put drops the stats of the file on the way and of what lies below a replaced directory, and no others. */
  lemma PutStats(t: Tree, stats: Index, p: Loc, key: string, stat: Stat)
    requires p != []
    ensures StatsWritten(t, stats, p, key, stat) == StatsAfterPut(t, stats, p, key, stat)
  {
    forall k ensures Lookup(StatsWritten(t, stats, p, key, stat), k) == Lookup(StatsAfterPut(t, stats, p, key, stat), k) {
      UpTo(LocOf(k), p);
    }
    SameIndex(StatsWritten(t, stats, p, key, stat), StatsAfterPut(t, stats, p, key, stat));
  }

  /** Taking away a file, or a directory that holds nothing, leaves a well-formed tree. */
  lemma LeafRemoval(t: Tree, p: Loc)
    requires WellFormed(t) && p in t && p != [] && (t[p].Dir? ==> IsEmptyDir(t, p))
    ensures WellFormed(t - {p})
    ensures p[..|p| - 1] in t - {p} && t[p[..|p| - 1]].Dir?
    ensures forall q | q in t && q <= p[..|p| - 1] :: t[q].Dir?
    ensures forall r | r in t :: !(p < r)
  {
    var up := p[..|p| - 1];
    AncestorIs(up, p);
    forall r | r in t ensures !(p < r) {
      if p < r {
        Above(t, p, r);
      }
    }
    forall q, a | q in t - {p} && a in Ancestors(q) ensures a != p {
      AncestorIs(a, q);
    }
    forall q | q in t && q <= up ensures t[q].Dir? {
      UpTo(q, p);
      Above(t, q, p);
    }
  }

  lemma DeletedAt(t: Tree, p: Loc, q: Loc)
    requires p != []
    ensures Lookup(map r | r in t - {p} && !Hollow(t - {p}, p[..|p| - 1], r) :: t[r], q) == Lookup(AfterDelete(t, p), q)
  {
    if q != p {
      HollowOneUp(t, p, q);
    }
  }

  /** Removing p and then cleaning its parents amounts to AfterDelete. */
  lemma DeleteTree(t: Tree, p: Loc)
    requires WellFormed(t) && p in t && p != [] && (t[p].Dir? ==> IsEmptyDir(t, p))
    ensures Cleaned(t - {p}, p[..|p| - 1]) == AfterDelete(t, p)
  {
    var u, up := t - {p}, p[..|p| - 1];
    LeafRemoval(t, p);
    CleanedIs(u, up);
    var left := map r | r in u && !Hollow(u, up, r) :: t[r];
    forall q ensures Lookup(left, q) == Lookup(AfterDelete(t, p), q) {
      DeletedAt(t, p, q);
    }
    SameTree(left, AfterDelete(t, p));
  }

  lemma DeleteStaysWellFormed(t: Tree, p: Loc)
    requires WellFormed(t) && p in t && p != [] && (t[p].Dir? ==> IsEmptyDir(t, p))
    ensures WellFormed(AfterDelete(t, p))
  {
    LeafRemoval(t, p);
    var v := AfterDelete(t, p);
    forall q, a | q in v && a in Ancestors(q) ensures a in v && v[a].Dir? {
      AncestorIs(a, q);
      Above(t, a, q);
      assert !(p < q);
      assert forall r | r in t && q <= r :: a <= r;
    }
  }

  lemma OthersSurvive(t: Tree, p: Loc)
    requires WellFormed(t) && p in t && p != [] && (t[p].Dir? ==> IsEmptyDir(t, p))
    ensures p !in AfterDelete(t, p) && forall q | q != p && IsFile(t, q) :: IsFile(AfterDelete(t, p), q)
  {
    LeafRemoval(t, p);
    forall q | q != p && IsFile(t, q) ensures IsFile(AfterDelete(t, p), q) {
      UpTo(q, p);
    }
  }

  /** A Delete that goes through leaves no stat behind exactly when the file is not remembered under its other key as well. */
  lemma DeleteLeavesNoOrphansIff(t: Tree, stats: Index, p: Loc, key: string)
    requires WellFormed(t) && p in t && p != [] && (t[p].Dir? ==> IsEmptyDir(t, p))
    ensures NoNewOrphans(t, stats, AfterDelete(t, p), stats - {key}) <==>
      forall k | k in stats && LocOf(k) == p && IsFile(t, p) :: k == key
  {
    OthersSurvive(t, p);
    DeleteOrphansIff(t, AfterDelete(t, p), stats, p, key);
  }

  /** The test of cleanupDirectoryStats on a key. */
  predicate InDir(relPath: string, key: string) {
    relPath + "/" <= key || key == relPath
  }

  lemma OutsideIs(stats: Index, keys: seq<string>, dir: Loc, relPath: string)
    requires StatKeys(stats) && Paths.ProperNames(dir) && relPath == if dir == [] then "." else NameOf(dir)
    requires forall k | k in stats :: k in keys <==> InDir(relPath, k)
    ensures StatsWithout(stats, keys) == StatsOutside(stats, dir)
  {
    forall k | k in stats ensures InDir(relPath, k) <==> dir != [] && Named(k) && dir <= LocOf(k) {
      if dir == [] {
        DotMatchesNothing(k);
      } else {
        BelowIs(dir, k);
      }
    }
  }

  /** A path that a peer can be sent: one below the root, or that of the root itself. */
  predicate Sendable(path: Path) {
    path == "" || StatKey(path)
  }

  class Vault {
    var tree: Tree
    var stats: Index
    var cache: map<Path, Hash>

    ghost predicate Valid()
      reads this
    {
      WellFormed(tree) && StatKeys(stats)
    }

    constructor ()
      ensures Valid() && NoEmptyDirs(tree) && tree == map[[] := Dir] && stats == map[] && cache == map[]
    {
      tree, stats, cache := map[[] := Dir], map[], map[];
    }

    /** Looks for a file from the root towards dir, and stops after removing the first one. */
    method RemoveFileConflictsInParentPath(dir: Loc)
      requires Valid() && Paths.ProperNames(dir)
      modifies this`tree, this`stats
      ensures Valid()
      ensures tree == WayCleared(old(tree), dir) && stats == StatsCleared(old(tree), old(stats), dir)
    {
      for k := 1 to |dir| + 1
        invariant tree == old(tree) && stats == old(stats)
        invariant forall j | 0 <= j < k :: dir[..j] in tree ==> tree[dir[..j]].Dir?
      {
        var check := dir[..k];
        var look := StatAt(tree, check);
        if look.Found? && look.node.File? {
          OnlyBlocker(tree, dir, k);
          OnlyStat(tree, stats, dir, k);
          tree := tree - {check};
          stats := stats - {NameOf(check)};
          return;
        }
      }
      NoBlocker(tree, stats, dir);
    }

    /** Forgets the stats of all files in a removed directory; the root's relative path "." matches no key. */
    method CleanupDirectoryStats(dir: Loc)
      requires StatKeys(stats) && Paths.ProperNames(dir)
      modifies this`stats
      ensures stats == StatsOutside(old(stats), dir)
    {
      var relPath := if dir == [] then "." else NameOf(dir);
      var keysToDelete: seq<string> := [];
      var left := stats.Keys;
      while left != {}
        invariant left <= stats.Keys && stats == old(stats)
        invariant forall k | k in stats :: k in keysToDelete <==> k !in left && InDir(relPath, k)
        decreases left
      {
        var key :| key in left;
        left := left - {key};
        if InDir(relPath, key) {
          keysToDelete := keysToDelete + [key];
        }
      }
      assert StatsWithout(stats, []) == stats;
      for i := 0 to |keysToDelete|
        invariant stats == StatsWithout(old(stats), keysToDelete[..i])
      {
        WithoutSnoc(old(stats), keysToDelete[..i], keysToDelete[i]);
        assert keysToDelete[..i + 1] == keysToDelete[..i] + [keysToDelete[i]];
        stats := stats - {keysToDelete[i]};
      }
      assert keysToDelete[..|keysToDelete|] == keysToDelete;
      OutsideIs(old(stats), keysToDelete, dir, relPath);
    }

    method RemoveDirectoryIfExists(p: Loc) returns (removed: bool)
      requires StatKeys(stats) && Paths.ProperNames(p)
      modifies this`tree, this`stats
      ensures removed <==> p in old(tree) && old(tree)[p].Dir?
      ensures tree == if removed then RemoveAll(old(tree), p) else old(tree)
      ensures stats == if removed then StatsOutside(old(stats), p) else old(stats)
    {
      var look := StatAt(tree, p);
      if !look.Found? || look.node.File? {
        return false;
      }
      tree := RemoveAll(tree, p);
      CleanupDirectoryStats(p);
      removed := true;
    }

    /**
      Put of a storage peer. Whatever was in the way is replaced; nothing else in the tree changes. A put of the root
      itself replaces the whole tree by one file, which is the only way to lose well-formedness.
     */
    method Put(path: Path, data: FileData, now: int) returns (reply: Reply)
      requires Valid() && Sendable(path)
      modifies this
      ensures reply == Answer(Lookup(old(cache), path) != Some(HashOf(Some(data))))
      ensures !reply.success ==> tree == old(tree) && stats == old(stats) && cache == old(cache)
      ensures reply.success ==>
        && tree == AfterPut(old(tree), LocOf(path), File(data.data, now))
        && cache == old(cache)[path := HashOf(Some(data))]
        && (path != "" ==>
              && Valid()
              && stats == StatsAfterPut(old(tree), old(stats), LocOf(path), LocalKey(path), Stat(now, |data.data|)))
    {
      if path in cache && cache[path] == HashOf(Some(data)) {
        return Answer(false);
      }
      var localPath := LocalKey(path);
      SendableLoc(path);
      WriteFile(LocOf(localPath), localPath, File(data.data, now));
      cache := cache[path := HashOf(Some(data))];
      if path != "" {
        PutKeepsWellFormedIff(old(tree), LocOf(path), data.data, now);
      }
      reply := Answer(true);
    }

    /** The part of Put between the check for a repeat and the mark: clear the way, write, remember the stat. */
    method WriteFile(p: Loc, key: string, file: Node)
      requires Valid() && Paths.ProperNames(p) && file.File?
      modifies this`tree, this`stats
      ensures tree == AfterPut(old(tree), p, file)
      ensures p != [] ==> stats == StatsAfterPut(old(tree), old(stats), p, key, StatOf(file))
    {
      if p != [] {
        RemoveFileConflictsInParentPath(p[..|p| - 1]);
        tree := MkdirAll(tree, p[..|p| - 1]);
        DirAppears(old(tree), p);
      }
      var _ := RemoveDirectoryIfExists(p);
      tree := tree[p := file];
      stats := stats[key := StatOf(file)];
      PutTree(old(tree), p, file);
      if p != [] {
        PutStats(old(tree), old(stats), p, key, StatOf(file));
      }
    }

    /** Delete of a storage peer: a missing file is skipped, a file below a file or a full directory is an error. */
    method Delete(path: Path) returns (reply: Reply)
      requires Valid() && StatKey(path)
      modifies this
      ensures reply.Answer? && reply.success ==>
        && Valid()
        && tree == AfterDelete(old(tree), LocOf(path))
        && stats == old(stats) - {LocalKey(path)} && cache == old(cache)[path := DELETED_MARK]
      ensures reply != Answer(true) ==> tree == old(tree) && stats == old(stats) && cache == old(cache)
      ensures Lookup(old(cache), path) == Some(DELETED_MARK) ==> reply == Answer(false)
      ensures Lookup(old(cache), path) != Some(DELETED_MARK) ==>
        var p := LocOf(path);
        && (reply == Answer(false) <==> StatAt(old(tree), p).NotExist?)
        && (reply == Answer(true) <==> p in old(tree) && (old(tree)[p].Dir? ==> IsEmptyDir(old(tree), p)))
    {
      if path in cache && cache[path] == DELETED_MARK {
        return Answer(false);
      }
      var localPath := LocalKey(path);
      var p := LocOf(localPath);
      SendableLoc(path);
      KeyLoc(path);
      var look := StatAt(tree, p);
      if look.NotExist? {
        return Answer(false);
      }
      if look.NotDirectory? || (look.node.Dir? && !IsEmptyDir(tree, p)) {
        return Failure;
      }
      RemoveLeaf(p, localPath);
      cache := cache[path := DELETED_MARK];
      reply := Answer(true);
    }

    /** The removal itself. The parents of p are directories, so the second look for blocking files finds none. */
    method RemoveLeaf(p: Loc, key: string)
      requires Valid() && Paths.ProperNames(p)
      requires p != [] && p in tree && (tree[p].Dir? ==> IsEmptyDir(tree, p))
      modifies this`tree, this`stats
      ensures Valid() && tree == AfterDelete(old(tree), p) && stats == old(stats) - {key}
    {
      LeafRemoval(tree, p);
      DeleteTree(tree, p);
      DeleteStaysWellFormed(tree, p);
      tree := tree - {p};
      stats := stats - {key};
      var parent := p[..|p| - 1];
      ghost var t, st := tree, stats;
      RemoveFileConflictsInParentPath(parent);
      assert tree == t;
      assert stats == st;
      CleanupEmptyDirs(parent);
    }

    method CleanupEmptyDirs(dir: Loc)
      modifies this`tree
      ensures tree == Cleaned(old(tree), dir)
      decreases |dir|
    {
      if dir == [] {
        return;
      }
      if dir !in tree || !IsEmptyDir(tree, dir) {
        return;
      }
      tree := tree - {dir};
      CleanupEmptyDirs(dir[..|dir| - 1]);
    }
  }

  lemma SendableLoc(path: Path)
    requires Sendable(path)
    ensures LocOf(LocalKey(path)) == LocOf(path) && Paths.ProperNames(LocOf(path))
    ensures path == "" <==> LocOf(path) == []
    ensures path != "" ==> StatKey(LocalKey(path))
  {
    if path != "" {
      LocalKeyLoc(path);
      KeyLoc(path);
    }
  }

  lemma DotMatchesNothing(key: string)
    requires StatKey(key)
    ensures key != "." && !("./" <= key)
  {
    KeyLoc(key);
    if "." <= key {
      Paths.JoinNotRooted(LocOf(key));
      var name := LocOf(key)[0];
      assert Paths.ProperName(name) && key[0] == name[0];
      if "./" <= key {
        Paths.SplitConcat(".", key[2..]);
        assert key == "." + "/" + key[2..];
        Paths.SplitName(".");
      }
    }
  }
}

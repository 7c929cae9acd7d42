/**
  The keys under which a storage peer remembers its files. The watcher and the scans use a path relative to the root;
  a Put or Delete uses the local form of the path it is given, which begins with a slash when that path begins with an
  underscore or a slash.
 */
module StatIndex {
  import opened Types
  import opened FileTree
  import Ids
  import Paths

  type Index = map<string, Stat>

  /** The path of a location relative to the root. */
  function NameOf(p: Loc): string {
    Paths.JoinNames(p)
  }

  /** The location that a key or a path is about: joined to the root, a slash in front changes nothing. */
  function LocOf(key: string): Loc {
    var name := Ids.TrimPrefix(key, "/");
    if name == "" then [] else Paths.Split(name)
  }

  predicate Named(key: string) {
    !("/" <= key)
  }

  /** A path below the root, with or without a slash in front. */
  predicate StatKey(key: string) {
    Paths.ProperPath(Ids.TrimPrefix(key, "/"))
  }

  predicate StatKeys(stats: Index) {
    forall k | k in stats :: StatKey(k)
  }

  /** The key that Put and Delete use. */
  function LocalKey(path: Path): string {
    Paths.ToLocalPath(path, "")
  }

  lemma KeyLoc(key: string)
    requires StatKey(key)
    ensures LocOf(key) != [] && Paths.ProperNames(LocOf(key))
    ensures key == (if Named(key) then "" else "/") + NameOf(LocOf(key))
  {
    Paths.JoinSplit(Ids.TrimPrefix(key, "/"));
  }

  lemma LocKey(p: Loc)
    requires p != [] && Paths.ProperNames(p)
    ensures Named(NameOf(p)) && StatKey(NameOf(p)) && LocOf(NameOf(p)) == p
    ensures !Named("/" + NameOf(p)) && StatKey("/" + NameOf(p)) && LocOf("/" + NameOf(p)) == p
  {
    Paths.JoinNotRooted(p);
    Paths.SplitJoin(p);
    assert ("/" + NameOf(p))[1..] == NameOf(p);
  }

  /** The local form of a path is about the same location. */
  lemma LocalKeyLoc(path: Path)
    requires StatKey(path)
    ensures StatKey(LocalKey(path)) && LocOf(LocalKey(path)) == LocOf(path)
    ensures LocalKey(path) == if "_" <= path then "/" + path else path
  {
    var p := LocOf(path);
    KeyLoc(path);
    LocKey(p);
    if Named(path) {
      Paths.CleanProper(p);
      assert path == NameOf(p);
    } else {
      Paths.CleanRooted(p);
      assert path == "/" + NameOf(p);
    }
  }

  lemma PrefixIsBelow(dir: Loc, key: string, rest: string)
    requires dir != [] && Paths.ProperNames(dir) && key == NameOf(dir) + "/" + rest
    ensures Named(key) && LocOf(key) == dir + Paths.Split(rest)
  {
    Paths.JoinNotRooted(dir);
    assert key[0] == NameOf(dir)[0];
    Paths.SplitConcat(NameOf(dir), rest);
    Paths.SplitJoin(dir);
  }

  lemma BelowHasPrefix(dir: Loc, key: string, rest: Loc)
    requires dir != [] && rest != [] && key == NameOf(dir + rest)
    ensures NameOf(dir) + "/" <= key
  {
    Paths.JoinNamesConcat(dir, rest);
  }

  lemma PrefixedIsBelow(dir: Loc, key: string)
    requires dir != [] && Paths.ProperNames(dir) && NameOf(dir) + "/" <= key
    ensures Named(key) && dir <= LocOf(key)
  {
    PrefixIsBelow(dir, key, key[|NameOf(dir) + "/"|..]);
  }

  /** The name of a location without a slash in front. */
  lemma NamedKey(key: string)
    requires StatKey(key) && Named(key)
    ensures key == NameOf(LocOf(key))
  {
    KeyLoc(key);
    assert "" + NameOf(LocOf(key)) == NameOf(LocOf(key));
  }

  lemma BelowIsPrefixed(dir: Loc, key: string)
    requires dir != [] && dir <= LocOf(key) && key == NameOf(LocOf(key)) && key != NameOf(dir)
    ensures NameOf(dir) + "/" <= key
  {
    var rest := LocOf(key)[|dir|..];
    assert LocOf(key) == dir + rest;
    assert rest == [] ==> LocOf(key) == dir;
    BelowHasPrefix(dir, key, rest);
  }

  /** Comparing strings as cleanupDirectoryStats does finds the keys at or below dir, except those with a slash. */
  lemma BelowIs(dir: Loc, key: string)
    requires dir != [] && Paths.ProperNames(dir) && StatKey(key)
    ensures key == NameOf(dir) || NameOf(dir) + "/" <= key <==> Named(key) && dir <= LocOf(key)
  {
    LocKey(dir);
    if NameOf(dir) + "/" <= key {
      PrefixedIsBelow(dir, key);
    } else if key != NameOf(dir) && Named(key) && dir <= LocOf(key) {
      NamedKey(key);
      BelowIsPrefixed(dir, key);
    }
  }

  /** A stat without a file was without one before. */
  predicate NoNewOrphans(t: Tree, stats: Index, u: Tree, left: Index) {
    forall k | k in left :: IsFile(u, LocOf(k)) || (k in stats && !IsFile(t, LocOf(k)))
  }

  // -------- Put --------

  /** The stats without those of the files on the way to dir. */
  function StatsCleared(t: Tree, stats: Index, dir: Loc): Index {
    map k | k in stats && !(Named(k) && LocOf(k) <= dir && IsFile(t, LocOf(k))) :: stats[k]
  }

  /** The stats after a Put at p: those of the file on the way, and of all below a directory at p, are gone. */
  function StatsAfterPut(t: Tree, stats: Index, p: Loc, key: string, stat: Stat): Index {
    (map k | k in stats && !(Named(k) && LocOf(k) < p && IsFile(t, LocOf(k))) &&
             !(Named(k) && p <= LocOf(k) && p in t && t[p].Dir?) :: stats[k])[key := stat]
  }

  lemma SameIndex(a: Index, b: Index)
    requires forall k :: Lookup(a, k) == Lookup(b, k)
    ensures a == b
  {
    forall k ensures k in a <==> k in b {
      assert Lookup(a, k) == Lookup(b, k);
    }
    forall k | k in a ensures a[k] == b[k] {
      assert Lookup(a, k) == Lookup(b, k);
    }
  }

  function StatsWithout(stats: Index, ds: seq<string>): Index {
    map k | k in stats && k !in ds :: stats[k]
  }

  lemma WithoutSnoc(stats: Index, ds: seq<string>, d: string)
    ensures StatsWithout(stats, ds + [d]) == StatsWithout(stats, ds) - {d}
  {
    assert forall k :: k in ds + [d] <==> k in ds || k == d;
  }

  /** What becomes of the file of a key: only files in the way of the Put go. */
  lemma FileAfterPut(t: Tree, p: Loc, file: Node, q: Loc)
    requires WellFormed(t) && file.File? && IsFile(t, q)
    ensures IsFile(AfterPut(t, p, file), q) <==> q == p || !Comparable(q, p)
    ensures p < q ==> p in t && t[p].Dir?
  {
    AncestorIs(q, p);
    if p <= q {
      Above(t, p, q);
    }
  }

  /**
    A Put takes the stats of the files that it replaces with them, exactly when none of these files is remembered under
    a key with a slash: the cleanups do not find such keys.
   */
  lemma PutOrphansIff(t: Tree, stats: Index, p: Loc, key: string, file: Node)
    requires WellFormed(t) && file.File? && LocOf(key) == p
    ensures NoNewOrphans(t, stats, AfterPut(t, p, file), StatsAfterPut(t, stats, p, key, StatOf(file))) <==>
      forall k | k in stats && !Named(k) && IsFile(t, LocOf(k)) && Comparable(LocOf(k), p) :: LocOf(k) == p
  {
    var u, left := AfterPut(t, p, file), StatsAfterPut(t, stats, p, key, StatOf(file));
    assert IsFile(u, p);
    forall k | k in stats && IsFile(t, LocOf(k))
      ensures IsFile(u, LocOf(k)) <==> LocOf(k) == p || !Comparable(LocOf(k), p)
      ensures p < LocOf(k) ==> p in t && t[p].Dir?
    {
      FileAfterPut(t, p, file, LocOf(k));
    }
    forall k | k in stats && !Named(k) && IsFile(t, LocOf(k)) && Comparable(LocOf(k), p) && LocOf(k) != p
      ensures k in left && !IsFile(u, LocOf(k))
    { }
  }

  // -------- Delete --------

  /** A Delete leaves no stat behind exactly when the file is not remembered under its other key as well. */
  lemma DeleteOrphansIff(t: Tree, u: Tree, stats: Index, p: Loc, key: string)
    requires p !in u && forall q | q != p && IsFile(t, q) :: IsFile(u, q)
    ensures NoNewOrphans(t, stats, u, stats - {key}) <==>
      forall k | k in stats && LocOf(k) == p && IsFile(t, p) :: k == key
  {
    forall k | k in stats && LocOf(k) == p && IsFile(t, p) && k != key ensures k in stats - {key} { }
  }
}

/** Directory trees, and what Put and Delete of a storage peer make of them. A location is the sequence of its names. */
module FileTree {
  import opened Types

  type Loc = seq<string>

  datatype Node = Dir | File(data: Bytes, mtime: int)

  type Tree = map<Loc, Node>

  /** The file stat that the bridge remembers: modification time and size. */
  datatype Stat = Stat(mtime: int, size: nat)

  function StatOf(n: Node): Stat
    requires n.File?
  {
    Stat(n.mtime, |n.data|)
  }

  function Ancestors(p: Loc): set<Loc> {
    set k | 0 <= k < |p| :: p[..k]
  }

  predicate Comparable(q: Loc, p: Loc) {
    q <= p || p <= q
  }

  predicate WellFormed(t: Tree) {
    && [] in t && t[[]].Dir?
    && forall q, a | q in t && a in Ancestors(q) :: a in t && t[a].Dir?
  }

  /** Only the root may be an empty directory. */
  predicate NoEmptyDirs(t: Tree) {
    forall q | q in t && t[q].Dir? && q != [] :: exists r :: r in t && q < r
  }

  predicate IsFile(t: Tree, q: Loc) {
    q in t && t[q].File?
  }

  lemma AncestorIs(a: Loc, p: Loc)
    ensures a in Ancestors(p) <==> a < p
  {
    if a < p {
      assert p[..|a|] == a;
    }
  }

  /** A location below another one has it as an ancestor, and ancestors of a node are directories. */
  lemma Above(t: Tree, a: Loc, q: Loc)
    requires WellFormed(t) && q in t && a <= q
    ensures a in t && (a == q || t[a].Dir?)
  {
    if |a| == |q| {
      assert a == q;
    } else {
      AncestorIs(a, q);
    }
  }

  /** The tree after a Put: what lies on the way or below is gone, the way is made of directories, the file is there. */
  function AfterPut(t: Tree, p: Loc, file: Node): Tree {
    (map q | q in t && !Comparable(q, p) :: t[q]) + (map a | a in Ancestors(p) :: Dir) + map[p := file]
  }

  /** Whatever was there: the file at p holds the new bytes, and everything that does not have to go stays as it was. */
  lemma PutReplaces(t: Tree, p: Loc, data: Bytes, now: int, q: Loc)
    ensures Lookup(AfterPut(t, p, File(data, now)), p) == Some(File(data, now))
    ensures q < p ==> Lookup(AfterPut(t, p, File(data, now)), q) == Some(Dir)
    ensures p < q ==> q !in AfterPut(t, p, File(data, now))
    ensures !(q <= p) && !(p <= q) ==> Lookup(AfterPut(t, p, File(data, now)), q) == Lookup(t, q)
  {
    AncestorIs(q, p);
  }

  /** A directory on the way to p below which nothing lies except on the way to p. */
  predicate Hollow(t: Tree, p: Loc, q: Loc) {
    q != [] && q <= p && forall r | r in t && q <= r :: r <= p
  }

  /** The tree after the removal of p: p is gone, and with it the ancestors that held nothing else. */
  function AfterDelete(t: Tree, p: Loc): Tree {
    map q | q in t && q != p && !Hollow(t, p, q) :: t[q]
  }

  /** Put keeps the tree well formed unless it is asked to write the root itself. */
  lemma PutKeepsWellFormedIff(t: Tree, p: Loc, data: Bytes, now: int)
    requires WellFormed(t)
    ensures WellFormed(AfterPut(t, p, File(data, now))) <==> p != []
  {
    var u := AfterPut(t, p, File(data, now));
    if p != [] {
      AncestorIs([], p);
      forall q, a | q in u && a in Ancestors(q) ensures a in u && u[a].Dir? {
        AncestorIs(a, q);
        AncestorIs(a, p);
        if q == p || q in Ancestors(p) {
          AncestorIs(q, p);
        } else {
          Above(t, a, q);
        }
      }
    }
  }

  lemma PutKeepsNoEmptyDirs(t: Tree, p: Loc, data: Bytes, now: int)
    requires WellFormed(t) && NoEmptyDirs(t)
    ensures NoEmptyDirs(AfterPut(t, p, File(data, now)))
  {
    var u := AfterPut(t, p, File(data, now));
    forall q | q in u && u[q].Dir? && q != [] ensures exists r :: r in u && q < r {
      AncestorIs(q, p);
      if q < p {
        assert p in u;
      } else {
        assert q in t && !Comparable(q, p);
        var r :| r in t && q < r;
        if Comparable(r, p) {
          ComparableBelow(q, r, p);
        }
        assert r in u;
      }
    }
  }

  /** What lies below a location that is not comparable with p is not comparable with p either. */
  lemma ComparableBelow(q: Loc, r: Loc, p: Loc)
    requires q <= r && Comparable(r, p)
    ensures Comparable(q, p)
  {
    if p <= r {
      if |q| <= |p| {
        assert q == r[..|q|] && p == r[..|p|];
      } else {
        assert p == q[..|p|];
      }
    }
  }

  lemma DeleteKeepsInvariants(t: Tree, p: Loc)
    requires WellFormed(t) && NoEmptyDirs(t) && p in t && t[p].File?
    ensures WellFormed(AfterDelete(t, p)) && NoEmptyDirs(AfterDelete(t, p))
  {
    var u := AfterDelete(t, p);
    forall q, a | q in u && a in Ancestors(q) ensures a in u && u[a].Dir? {
      AncestorIs(a, q);
      Above(t, a, q);
      if Hollow(t, p, a) {
        assert q <= p;
        assert forall r | r in t && q <= r :: a <= r;
      }
    }
    forall q | q in u && u[q].Dir? && q != [] ensures exists r :: r in u && q < r {
      if q <= p {
        var r :| r in t && q <= r && !(r <= p);
        NotHollow(t, p, r);
        assert r in u && q < r;
      } else {
        var r :| r in t && q < r;
        assert r <= p ==> q <= p;
        assert r in u;
      }
    }
  }

  lemma NotHollow(t: Tree, p: Loc, r: Loc)
    requires !(r <= p)
    ensures !Hollow(t, p, r)
  {}

  /** Every file but the deleted one survives, unchanged. */
  lemma DeleteKeepsOtherFiles(t: Tree, p: Loc, q: Loc)
    requires WellFormed(t) && p in t && t[p].File?
    ensures q != p && q in t && t[q].File? ==> q in AfterDelete(t, p) && AfterDelete(t, p)[q] == t[q]
    ensures q in AfterDelete(t, p) ==> q != p && q in t && AfterDelete(t, p)[q] == t[q]
  {
    if q != p && q in t && t[q].File? && q <= p {
      Above(t, q, p);
    }
  }

  /** p is free, and no file stands where one of its directories has to be. */
  predicate FreeFor(t: Tree, p: Loc) {
    p !in t && forall a | a in Ancestors(p) && a in t :: t[a].Dir?
  }

  lemma OldStays(t: Tree, p: Loc, data: Bytes, now: int, q: Loc)
    requires WellFormed(t) && NoEmptyDirs(t) && FreeFor(t, p) && q in t
    ensures var u := AfterPut(t, p, File(data, now)); q in AfterDelete(u, p) && u[q] == t[q]
  {
    AncestorIs(q, p);
    if p <= q {
      Above(t, p, q);
    } else if q < p && q != [] {
      assert t[q].Dir?;
      var r :| r in t && q < r;
      SomethingElse(t, p, q, r, data, now);
    }
  }

  /** A directory that the Put had to make held nothing else. */
  lemma MadeIsHollow(t: Tree, p: Loc, data: Bytes, now: int, q: Loc)
    requires WellFormed(t) && q !in t && q < p && q != []
    ensures Hollow(AfterPut(t, p, File(data, now)), p, q)
  {
    var u := AfterPut(t, p, File(data, now));
    forall r | r in u && q <= r ensures r <= p {
      AncestorIs(r, p);
      if !(r <= p) {
        assert r in t;
        Above(t, q, r);
      }
    }
  }

  lemma NothingNew(t: Tree, p: Loc, data: Bytes, now: int, q: Loc)
    requires WellFormed(t) && q in AfterDelete(AfterPut(t, p, File(data, now)), p)
    ensures q in t
  {
    AncestorIs(q, p);
    if q !in t {
      assert q < p;
      MadeIsHollow(t, p, data, now, q);
    }
  }

  /** A new file put where nothing is in the way, and deleted again, leaves the tree as it was. */
  lemma DeleteUndoesPut(t: Tree, p: Loc, data: Bytes, now: int)
    requires WellFormed(t) && NoEmptyDirs(t) && FreeFor(t, p)
    ensures AfterDelete(AfterPut(t, p, File(data, now)), p) == t
  {
    var v := AfterDelete(AfterPut(t, p, File(data, now)), p);
    forall q ensures Lookup(v, q) == Lookup(t, q) {
      BackAt(t, p, data, now, q);
    }
    SameTree(v, t);
  }

  lemma BackAt(t: Tree, p: Loc, data: Bytes, now: int, q: Loc)
    requires WellFormed(t) && NoEmptyDirs(t) && FreeFor(t, p)
    ensures Lookup(AfterDelete(AfterPut(t, p, File(data, now)), p), q) == Lookup(t, q)
  {
    if q in t {
      OldStays(t, p, data, now, q);
    } else if q in AfterDelete(AfterPut(t, p, File(data, now)), p) {
      NothingNew(t, p, data, now, q);
    }
  }

  lemma SameTree(t: Tree, u: Tree)
    requires forall q :: Lookup(t, q) == Lookup(u, q)
    ensures t == u
  {
    forall q ensures q in t <==> q in u {
      assert Lookup(t, q) == Lookup(u, q);
    }
    forall q | q in t ensures t[q] == u[q] {
      assert Lookup(t, q) == Lookup(u, q);
    }
  }

  /** A directory of t on the way to the new file p keeps some descendant that is not on that way. */
  lemma {:induction false} SomethingElse(t: Tree, p: Loc, q: Loc, r: Loc, data: Bytes, now: int)
    requires WellFormed(t) && NoEmptyDirs(t) && FreeFor(t, p)
    requires q < p && q != [] && r in t && q < r
    ensures !Hollow(AfterPut(t, p, File(data, now)), p, q)
    decreases |p| - |r|
  {
    var u := AfterPut(t, p, File(data, now));
    AncestorIs(r, p);
    if r < p {
      assert t[r].Dir?;
      var next :| next in t && r < next;
      if p <= next {
        Above(t, p, next);
      }
      if |next| > |p| {
        assert !(next <= p) && !(p <= next);
        assert next in u;
      } else {
        SomethingElse(t, p, q, next, data, now);
      }
    } else {
      if p <= r {
        Above(t, p, r);
      }
      assert r in u && !(r <= p);
    }
  }
}

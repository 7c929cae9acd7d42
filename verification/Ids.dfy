/** Document IDs: paths with colons for slashes, and chunk IDs "h:<document>:<index>". */
module Ids {
  function Replace(s: string, from: char, to: char): (r: string)
    ensures |r| == |s| && forall i | 0 <= i < |s| :: r[i] == if s[i] == from then to else s[i]
  {
    seq(|s|, i requires 0 <= i < |s| => if s[i] == from then to else s[i])
  }

  function TrimPrefix(s: string, prefix: string): string {
    if prefix <= s then s[|prefix|..] else s
  }

  function DocPathToID(path: string): string {
    Replace(TrimPrefix(path, "/"), '/', ':')
  }

  /** How the changes feed turns the ID of a deleted document back into a path. */
  function IDToDocPath(id: string): string {
    Replace(id, ':', '/')
  }

  /** The ID gives the path back exactly when the path holds no colon and does not begin with a slash. */
  lemma PathRoundTripIff(path: string)
    ensures IDToDocPath(DocPathToID(path)) == path <==> ':' !in path && !("/" <= path)
  {
    var t := TrimPrefix(path, "/");
    var back := IDToDocPath(DocPathToID(path));
    if "/" <= path {
      assert |back| == |path| - 1;
    } else if ':' in path {
      var i :| 0 <= i < |path| && path[i] == ':';
      assert back[i] == '/';
    } else {
      assert back == path;
    }
  }

  /**
    The local paths for which documents are stored: ToLocalPath puts a slash before an underscore and nowhere else.
    A path whose first name is "h" would collide with the IDs of chunks.
   */
  predicate IsLocal(path: string) {
    && ':' !in path
    && (if "/" <= path then "/_" <= path else !("_" <= path))
    && !("h/" <= path)
  }

  lemma TrimInjective(p: string, q: string)
    requires IsLocal(p) && IsLocal(q) && TrimPrefix(p, "/") == TrimPrefix(q, "/")
    ensures p == q
  {
    if "/" <= p {
      assert p == "/" + p[1..] && p[1] == '_';
    }
    if "/" <= q {
      assert q == "/" + q[1..] && q[1] == '_';
    }
  }

  lemma DocIDInjective(p: string, q: string)
    requires IsLocal(p) && IsLocal(q) && DocPathToID(p) == DocPathToID(q)
    ensures p == q
  {
    var s, t := TrimPrefix(p, "/"), TrimPrefix(q, "/");
    forall i | 0 <= i < |s| ensures s[i] == t[i] {
      assert DocPathToID(p)[i] == DocPathToID(q)[i];
      assert s[i] in p && t[i] in q;
    }
    TrimInjective(p, q);
  }

  // -------- chunk IDs --------

  function Digit(d: nat): char
    requires d < 10
  {
    '0' + d as char
  }

  function Itoa(n: nat): (s: string)
    ensures s != [] && ':' !in s
  {
    if n < 10 then [Digit(n)] else Itoa(n / 10) + [Digit(n % 10)]
  }

  lemma {:induction false} ItoaInjective(m: nat, n: nat)
    requires Itoa(m) == Itoa(n)
    ensures m == n
  {
    var a, b := Itoa(m), Itoa(n);
    assert a[|a| - 1] == Digit(m % 10) && b[|b| - 1] == Digit(n % 10);
    assert m % 10 == n % 10;
    if m >= 10 && n >= 10 {
      assert Itoa(m / 10) == a[..|a| - 1] && Itoa(n / 10) == b[..|b| - 1];
      ItoaInjective(m / 10, n / 10);
    }
  }

  function ChunkID(docID: string, index: nat): string {
    "h:" + docID + ":" + Itoa(index)
  }

  lemma SplitAtLastColon(a: string, x: string, b: string, y: string)
    requires a + ":" + x == b + ":" + y && ':' !in x && ':' !in y
    ensures a == b && x == y
  {
    var s := a + ":" + x;
    assert s[|a|] == ':' && s[|b|] == ':';
    assert forall k | |a| < k < |s| :: s[k] == x[k - |a| - 1] && s[k] != ':';
    assert forall k | |b| < k < |s| :: s[k] == y[k - |b| - 1] && s[k] != ':';
    assert a == s[..|a|] && b == s[..|b|];
    assert x == s[|a| + 1..] && y == s[|b| + 1..];
  }

  /** A chunk ID determines its document and its index, even when the document ID holds colons. */
  lemma ChunkIDInjective(d: string, i: nat, e: string, j: nat)
    requires ChunkID(d, i) == ChunkID(e, j)
    ensures d == e && i == j
  {
    SplitAtLastColon("h:" + d, Itoa(i), "h:" + e, Itoa(j));
    assert d == ("h:" + d)[2..] && e == ("h:" + e)[2..];
    ItoaInjective(i, j);
  }

  /** A document and a chunk never share an ID. */
  lemma DocIsNoChunk(path: string, d: string, i: nat)
    requires IsLocal(path)
    ensures DocPathToID(path) != ChunkID(d, i)
  {
    var t, c := TrimPrefix(path, "/"), ChunkID(d, i);
    assert c[0] == 'h' && c[1] == ':';
    assert forall k | 0 <= k < |t| :: t[k] in path;
    assert |t| >= 2 && t[0] == 'h' && t[1] == '/' && t == path ==> "h/" <= path;
    assert "/" <= path ==> t[0] == path[1] == '_';
  }

  /** Without the rule for the name "h", they can. */
  lemma NameHCollides(name: string, i: nat)
    requires ':' !in name && '/' !in name
    ensures DocPathToID("h/" + name + "/" + Itoa(i)) == ChunkID(DocPathToID(name), i)
  {
    var path, chunk := "h/" + name + "/" + Itoa(i), ChunkID(DocPathToID(name), i);
    ItoaHasNoSlash(i);
    assert path[0] == 'h' && (name != [] ==> name[0] in name);
    assert TrimPrefix(path, "/") == path && TrimPrefix(name, "/") == name;
    assert DocPathToID(name) == name;
    forall k | 0 <= k < |path| ensures DocPathToID(path)[k] == chunk[k] {
      if 2 <= k < 2 + |name| {
        assert path[k] == name[k - 2] && chunk[k] == name[k - 2];
      } else if k > 2 + |name| {
        assert path[k] == Itoa(i)[k - 3 - |name|] && path[k] in Itoa(i);
      }
    }
  }

  lemma {:induction false} ItoaHasNoSlash(n: nat)
    ensures '/' !in Itoa(n)
  {
    if n >= 10 {
      ItoaHasNoSlash(n / 10);
    }
  }
}

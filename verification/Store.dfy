/** The persistent key-value store: prefix iteration over sorted keys, and the namespaces that peers keep in it. */
module Store {
  import opened Types

  predicate Less(a: string, b: string) {
    b != [] && (a == [] || a[0] < b[0] || (a[0] == b[0] && Less(a[1..], b[1..])))
  }

  predicate Sorted(keys: seq<string>) {
    forall i, j | 0 <= i < j < |keys| :: Less(keys[i], keys[j])
  }

  function Select(keys: seq<string>, prefix: string): seq<string> {
    if keys == [] then []
    else (if prefix <= keys[0] then [keys[0]] else []) + Select(keys[1..], prefix)
  }

  /** What a caller sees whose callback fails on the given keys: everything up to the first failure. */
  function UpToFailure(keys: seq<string>, failing: set<string>): seq<string> {
    if keys == [] then []
    else if keys[0] in failing then [keys[0]]
    else [keys[0]] + UpToFailure(keys[1..], failing)
  }

  lemma {:induction false} PrefixedIsNotLess(k: string, prefix: string)
    requires prefix <= k
    ensures !Less(k, prefix)
  {
    if prefix != [] {
      PrefixedIsNotLess(k[1..], prefix[1..]);
    }
  }

  /** Past the seek point, the first key without the prefix ends the keys that have it. */
  lemma {:induction false} NothingAfter(a: string, b: string, prefix: string)
    requires !Less(a, prefix) && !(prefix <= a) && Less(a, b)
    ensures !(prefix <= b)
  {
    if prefix <= b {
      assert prefix != [] && a != [];
      assert prefix[0] == a[0] && prefix[1..] <= a[1..] ==> prefix <= a;
      if a[0] == prefix[0] {
        NothingAfter(a[1..], b[1..], prefix[1..]);
      }
    }
  }

  lemma {:induction false} SelectNone(keys: seq<string>, prefix: string)
    requires forall k | k in keys :: !(prefix <= k)
    ensures Select(keys, prefix) == []
  {
    if keys != [] {
      assert keys[0] in keys && forall k | k in keys[1..] :: k in keys;
      SelectNone(keys[1..], prefix);
    }
  }

  lemma {:induction false} SelectConcat(a: seq<string>, b: seq<string>, prefix: string)
    ensures Select(a + b, prefix) == Select(a, prefix) + Select(b, prefix)
  {
    if a == [] {
      assert a + b == b;
    } else {
      assert (a + b)[1..] == a[1..] + b;
      SelectConcat(a[1..], b, prefix);
    }
  }

  lemma {:induction false} UpToFailureConcat(a: seq<string>, b: seq<string>, failing: set<string>)
    requires forall k | k in a :: k !in failing
    ensures UpToFailure(a + b, failing) == a + UpToFailure(b, failing)
  {
    if a == [] {
      assert a + b == b;
    } else {
      assert (a + b)[1..] == a[1..] + b;
      assert a[0] in a && forall k | k in a[1..] :: k in a;
      UpToFailureConcat(a[1..], b, failing);
    }
  }

  lemma SelectFrom(keys: seq<string>, i: nat, prefix: string)
    requires i < |keys|
    ensures Select(keys[i..], prefix) == (if prefix <= keys[i] then [keys[i]] else []) + Select(keys[i + 1..], prefix)
  {
    assert keys[i..][1..] == keys[i + 1..];
  }

  /** Cursor.Seek: the first key that is not less than the prefix. */
  method Seek(keys: seq<string>, prefix: string) returns (i: nat)
    ensures i <= |keys| && (i < |keys| ==> !Less(keys[i], prefix))
    ensures forall j | 0 <= j < i :: Less(keys[j], prefix)
  {
    i := 0;
    while i < |keys| && Less(keys[i], prefix)
      invariant 0 <= i <= |keys| && forall j | 0 <= j < i :: Less(keys[j], prefix)
    {
      i := i + 1;
    }
  }

  /** The inner loop of IteratePrefix. */
  method HasPrefix(key: string, prefix: string) returns (has: bool)
    requires |key| >= |prefix|
    ensures has <==> prefix <= key
  {
    has := true;
    for i := 0 to |prefix|
      invariant has && prefix[..i] == key[..i]
    {
      if key[i] != prefix[i] {
        return false;
      }
    }
    assert prefix[..|prefix|] == prefix;
  }

  lemma AfterStop(keys: seq<string>, i: nat, prefix: string)
    requires Sorted(keys) && i < |keys| && !Less(keys[i], prefix) && !(prefix <= keys[i])
    ensures Select(keys[i..], prefix) == []
  {
    forall k | k in keys[i..] ensures !(prefix <= k) {
      var j :| i <= j < |keys| && keys[j] == k;
      if j > i {
        NothingAfter(keys[i], k, prefix);
      }
    }
    SelectNone(keys[i..], prefix);
  }

  lemma NothingBefore(keys: seq<string>, i: nat, prefix: string)
    requires i <= |keys| && forall j | 0 <= j < i :: Less(keys[j], prefix)
    ensures Select(keys, prefix) == Select(keys[i..], prefix)
  {
    forall k | k in keys[..i] ensures !(prefix <= k) {
      if prefix <= k {
        PrefixedIsNotLess(k, prefix);
      }
    }
    SelectNone(keys[..i], prefix);
    SelectConcat(keys[..i], keys[i..], prefix);
    assert keys[..i] + keys[i..] == keys;
  }

  /** The cursor stands at i, and has visited just the selected keys before it; no callback has failed. */
  predicate Visiting(keys: seq<string>, prefix: string, failing: set<string>, visited: seq<string>, i: nat) {
    && i <= |keys| && (i < |keys| ==> !Less(keys[i], prefix))
    && Select(keys, prefix) == visited + Select(keys[i..], prefix)
    && forall k | k in visited :: k !in failing
  }

  lemma VisitStarts(keys: seq<string>, prefix: string, failing: set<string>, i: nat)
    requires i <= |keys| && (i < |keys| ==> !Less(keys[i], prefix)) && forall j | 0 <= j < i :: Less(keys[j], prefix)
    ensures Visiting(keys, prefix, failing, [], i)
  {
    NothingBefore(keys, i, prefix);
  }

  /** One turn of the loop on a key whose callback succeeds. */
  lemma VisitOne(keys: seq<string>, prefix: string, failing: set<string>, visited: seq<string>, i: nat)
    requires Sorted(keys) && Visiting(keys, prefix, failing, visited, i)
    requires i < |keys| && prefix <= keys[i] && keys[i] !in failing
    ensures Visiting(keys, prefix, failing, visited + [keys[i]], i + 1)
  {
    SelectFrom(keys, i, prefix);
    assert visited + ([keys[i]] + Select(keys[i + 1..], prefix)) == (visited + [keys[i]]) + Select(keys[i + 1..], prefix);
    if i + 1 < |keys| {
      NotLessUpwards(keys[i], keys[i + 1], prefix);
    }
  }

  lemma VisitFails(keys: seq<string>, prefix: string, failing: set<string>, visited: seq<string>, i: nat)
    requires Visiting(keys, prefix, failing, visited, i) && i < |keys| && prefix <= keys[i] && keys[i] in failing
    ensures UpToFailure(Select(keys, prefix), failing) == visited + [keys[i]]
    ensures keys[i] in Select(keys, prefix)
  {
    SelectFrom(keys, i, prefix);
    var rest := Select(keys[i + 1..], prefix);
    assert Select(keys, prefix) == visited + ([keys[i]] + rest);
    UpToFailureConcat(visited, [keys[i]] + rest, failing);
    assert (visited + ([keys[i]] + rest))[|visited|] == keys[i];
  }

  lemma VisitEnds(keys: seq<string>, prefix: string, failing: set<string>, visited: seq<string>, i: nat)
    requires Sorted(keys) && Visiting(keys, prefix, failing, visited, i) && (i < |keys| ==> !(prefix <= keys[i]))
    ensures Select(keys, prefix) == visited == UpToFailure(visited, failing)
  {
    if i < |keys| {
      AfterStop(keys, i, prefix);
    }
    assert visited + [] == visited;
    UpToFailureConcat(visited, [], failing);
  }

  /** Selection keeps the keys that begin with the prefix, all of them, and their order. */
  lemma {:induction false} SelectIs(keys: seq<string>, prefix: string)
    ensures forall k :: k in Select(keys, prefix) <==> k in keys && prefix <= k
    ensures Sorted(keys) ==> Sorted(Select(keys, prefix))
  {
    if keys != [] {
      SelectIs(keys[1..], prefix);
      if Sorted(keys) && prefix <= keys[0] {
        var rest := Select(keys[1..], prefix);
        forall j | 0 <= j < |rest| ensures Less(keys[0], rest[j]) {
          assert rest[j] in keys[1..];
        }
        SortedFirst(keys[0], rest);
      }
    }
  }

  lemma SortedFirst(k: string, rest: seq<string>)
    requires Sorted(rest) && forall j | 0 <= j < |rest| :: Less(k, rest[j])
    ensures Sorted([k] + rest)
  {
    var all := [k] + rest;
    forall i, j | 0 <= i < j < |all| ensures Less(all[i], all[j]) {
      assert all[j] == rest[j - 1] && (i > 0 ==> all[i] == rest[i - 1]);
    }
  }

  /** What is seen of the keys is a front part of them: all, where none fails. */
  lemma {:induction false} UpToFailureIs(keys: seq<string>, failing: set<string>)
    ensures UpToFailure(keys, failing) <= keys
    ensures (forall k | k in keys :: k !in failing) ==> UpToFailure(keys, failing) == keys
  {
    if keys != [] {
      UpToFailureIs(keys[1..], failing);
      assert keys == [keys[0]] + keys[1..];
    }
  }

  /** Keys that begin with the prefix, in the order of the store and once each. */
  predicate Seen(keys: seq<string>, prefix: string, visited: seq<string>) {
    Sorted(visited) && forall k | k in visited :: k in keys && prefix <= k
  }

  lemma SeenIs(keys: seq<string>, prefix: string, failing: set<string>)
    requires Sorted(keys)
    ensures Seen(keys, prefix, UpToFailure(Select(keys, prefix), failing))
    ensures (forall k | k in Select(keys, prefix) :: k !in failing) ==>
      forall k | k in keys && prefix <= k :: k in UpToFailure(Select(keys, prefix), failing)
  {
    SelectIs(keys, prefix);
    UpToFailureIs(Select(keys, prefix), failing);
    var all, front := Select(keys, prefix), UpToFailure(Select(keys, prefix), failing);
    forall i, j | 0 <= i < j < |front| ensures Less(front[i], front[j]) {
      assert front[i] == all[i] && front[j] == all[j];
    }
    forall k | k in front ensures k in all {
      var i :| 0 <= i < |front| && front[i] == k;
      assert all[i] == k;
    }
  }

  /**
    Visits, in order and once each, exactly the keys that a filter over all keys would select, up to the first key
    on which the callback fails. Both early exits are sound.
   */
  method IteratePrefix(keys: seq<string>, prefix: string, failing: set<string>)
      returns (visited: seq<string>, failed: bool)
    requires Sorted(keys)
    ensures visited == UpToFailure(Select(keys, prefix), failing)
    ensures failed <==> exists k :: k in failing && k in Select(keys, prefix)
    ensures Seen(keys, prefix, visited)
    ensures !failed ==> forall k | k in keys && prefix <= k :: k in visited
  {
    SeenIs(keys, prefix, failing);
    visited, failed := [], false;
    var i := Seek(keys, prefix);
    VisitStarts(keys, prefix, failing, i);
    while i < |keys| && |keys[i]| >= |prefix|
      invariant Visiting(keys, prefix, failing, visited, i)
    {
      var hasPrefix := HasPrefix(keys[i], prefix);
      if !hasPrefix {
        break;
      }
      if keys[i] in failing {
        VisitFails(keys, prefix, failing, visited, i);
        return visited + [keys[i]], true;
      }
      VisitOne(keys, prefix, failing, visited, i);
      visited := visited + [keys[i]];
      i := i + 1;
    }
    VisitEnds(keys, prefix, failing, visited, i);
  }

  lemma {:induction false} NotLessUpwards(a: string, b: string, prefix: string)
    requires !Less(a, prefix) && Less(a, b)
    ensures !Less(b, prefix)
  {
    if Less(b, prefix) && a != [] && prefix != [] && b != [] && a[0] == b[0] == prefix[0] {
      NotLessUpwards(a[1..], b[1..], prefix[1..]);
    }
  }

  // -------- namespaces --------

  /** The keys under a prefix, with the prefix taken off, and their values. */
  function View(bucket: map<string, string>, prefix: string): map<string, string> {
    var tails := set k | k in bucket.Keys && prefix <= k :: k[|prefix|..];
    map t | t in tails && prefix + t in bucket :: bucket[prefix + t]
  }

  /** The part of every key of a peer that names the peer: its name, type and base directory. */
  function Namespace(name: string, peerType: string, baseDir: string): string {
    name + "-" + peerType + "-" + baseDir + "-"
  }

  predicate Apart(a: string, b: string) {
    !(a <= b) && !(b <= a)
  }

  lemma InView(bucket: map<string, string>, prefix: string, key: string)
    ensures key in View(bucket, prefix) <==> prefix + key in bucket
    ensures key in View(bucket, prefix) ==> View(bucket, prefix)[key] == bucket[prefix + key]
  {
    assert (prefix + key)[|prefix|..] == key;
    forall k | k in bucket && prefix <= k && k[|prefix|..] == key ensures k == prefix + key { }
  }

  /** Under its own prefix, SetSetting is a map update and DeleteSetting a removal. */
  lemma SettingsAreAMap(bucket: map<string, string>, prefix: string, key: string, value: string)
    ensures View(bucket[prefix + key := value], prefix) == View(bucket, prefix)[key := value]
    ensures View(bucket - {prefix + key}, prefix) == View(bucket, prefix) - {key}
  {
    var set', del := View(bucket[prefix + key := value], prefix), View(bucket - {prefix + key}, prefix);
    forall k: string ensures Lookup(set', k) == Lookup(View(bucket, prefix)[key := value], k)
                     ensures Lookup(del, k) == Lookup(View(bucket, prefix) - {key}, k)
    {
      InView(bucket, prefix, k);
      InView(bucket[prefix + key := value], prefix, k);
      InView(bucket - {prefix + key}, prefix, k);
      assert prefix + k == prefix + key ==> (prefix + k)[|prefix|..] == (prefix + key)[|prefix|..];
    }
    SameMap(set', View(bucket, prefix)[key := value]);
    SameMap(del, View(bucket, prefix) - {key});
  }

  lemma SameMap(a: map<string, string>, b: map<string, string>)
    requires forall k: string :: Lookup(a, k) == Lookup(b, k)
    ensures a == b
  {
    forall k: string ensures k in a <==> k in b {
      assert Lookup(a, k) == Lookup(b, k);
    }
    forall k | k in a ensures a[k] == b[k] {
      assert Lookup(a, k) == Lookup(b, k);
    }
  }

  /** Writing key under one prefix does not show under the other. */
  predicate Unseen(bucket: map<string, string>, mine: string, other: string, key: string, value: string) {
    View(bucket[mine + key := value], other) == View(bucket, other)
  }

  ghost predicate Independent(mine: string, other: string) {
    forall bucket: map<string, string>, key: string, value: string :: Unseen(bucket, mine, other, key, value)
  }

  /** Two namespaces are independent exactly when neither is a prefix of the other. */
  lemma IndependentIffApart(mine: string, other: string)
    ensures Independent(mine, other) <==> Apart(mine, other)
  {
    if Apart(mine, other) {
      forall bucket: map<string, string>, key: string, value: string
        ensures Unseen(bucket, mine, other, key, value)
      {
        ApartIsUnseen(bucket, mine, other, key, value);
      }
    } else {
      var key := if mine <= other then other[|mine|..] else "";
      assert other <= mine + key;
      var bucket: map<string, string> := map[];
      InView(bucket[mine + key := "x"], other, (mine + key)[|other|..]);
      InView(bucket, other, (mine + key)[|other|..]);
      assert other + (mine + key)[|other|..] == mine + key;
      assert !Unseen(bucket, mine, other, key, "x");
    }
  }

  lemma ApartIsUnseen(bucket: map<string, string>, mine: string, other: string, key: string, value: string)
    requires Apart(mine, other)
    ensures Unseen(bucket, mine, other, key, value)
  {
    NoCommonKey(mine, other, key);
    forall k: string ensures Lookup(View(bucket[mine + key := value], other), k) == Lookup(View(bucket, other), k) {
      InView(bucket[mine + key := value], other, k);
      InView(bucket, other, k);
      assert other <= other + k;
    }
    SameMap(View(bucket[mine + key := value], other), View(bucket, other));
  }

  lemma PrefixesCompare(a: string, b: string, s: string)
    requires a <= s && b <= s
    ensures a <= b || b <= a
  {
    if |a| <= |b| {
      assert a == s[..|a|] == b[..|a|];
    } else {
      assert b == s[..|b|] == a[..|b|];
    }
  }

  lemma NoCommonKey(mine: string, other: string, key: string)
    requires Apart(mine, other)
    ensures !(other <= mine + key)
  {
    if other <= mine + key {
      PrefixesCompare(mine, other, mine + key);
    }
  }

  /** Peer names without a dash keep their namespaces apart, whatever the types and base directories. */
  lemma {:induction false} DashFreeNamesAreApart(n1: string, t1: string, b1: string, n2: string, t2: string, b2: string)
    requires '-' !in n1 && '-' !in n2 && n1 != n2
    ensures Apart(Namespace(n1, t1, b1), Namespace(n2, t2, b2))
  {
    var a, b := Namespace(n1, t1, b1), Namespace(n2, t2, b2);
    assert a[..|n1|] == n1 && a[|n1|] == '-';
    assert b[..|n2|] == n2 && b[|n2|] == '-';
    if |n1| < |n2| {
      assert b[|n1|] == n2[|n1|];
    } else if |n2| < |n1| {
      assert a[|n2|] == n1[|n2|];
    }
  }

  /** Names with a dash can clash: the keys of one peer then show up as file stats of another. */
  lemma DashedNamesClash()
    ensures !Apart(Namespace("a", "storage", "") + "file-stat-", Namespace("a-storage--file-stat-b", "storage", ""))
  {
    var a, b := Namespace("a", "storage", "") + "file-stat-", Namespace("a-storage--file-stat-b", "storage", "");
    assert a == "a-storage--file-stat-";
    assert b == "a-storage--file-stat-" + "b-storage--";
  }
}

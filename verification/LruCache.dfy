/**
  The least-recently-used cache behind BasePeer. SyncPeers uses a plain map in its place; the lemmas here say when
  that is exact, and Bridge.dfy puts the cache into the protocol.
 */
module LruCache {
  import opened Types

  datatype Entry = Entry(key: Path, value: Hash)

  predicate DistinctKeys(es: seq<Entry>) {
    forall i, j | 0 <= i < j < |es| :: es[i].key != es[j].key
  }

  function Keys(es: seq<Entry>): set<Path> {
    set e | e in es :: e.key
  }

  function Contents(es: seq<Entry>): map<Path, Hash> {
    if es == [] then map[] else Contents(es[1..])[es[0].key := es[0].value]
  }

  function Without(es: seq<Entry>, key: Path): seq<Entry> {
    if es == [] then []
    else if es[0].key == key then es[1..]
    else [es[0]] + Without(es[1..], key)
  }

  /** Entries are listed from the most to the least recently used. A hit moves to the front. */
  function Used(es: seq<Entry>, key: Path): seq<Entry> {
    var m := Contents(es);
    if key in m then [Entry(key, m[key])] + Without(es, key) else es
  }

  /** A new key pushes out the last entry when the cache is full. */
  function Added(es: seq<Entry>, size: nat, key: Path, value: Hash): seq<Entry> {
    var front := [Entry(key, value)] + Without(es, key);
    if |front| <= size then front else front[..size]
  }

  lemma {:induction false} WithoutMembers(es: seq<Entry>, key: Path)
    requires DistinctKeys(es)
    ensures DistinctKeys(Without(es, key))
    ensures forall e | e in Without(es, key) :: e in es && e.key != key
  {
    if es != [] {
      WithoutMembers(es[1..], key);
      forall e | e in es[1..] ensures e.key != es[0].key {
        var i :| 0 <= i < |es[1..]| && es[1..][i] == e;
        assert es[i + 1] == e;
      }
    }
  }

  lemma {:induction false} WithoutContents(es: seq<Entry>, key: Path)
    requires DistinctKeys(es)
    ensures Contents(Without(es, key)) == Contents(es) - {key}
  {
    if es != [] {
      var head, rest := es[0], es[1..];
      WithoutContents(rest, key);
      if head.key == key {
        ContentsKeys(rest);
        assert key !in Contents(rest);
        assert Contents(es) - {key} == Contents(rest);
      } else {
        assert Without(es, key)[0] == head && Without(es, key)[1..] == Without(rest, key);
        assert Contents(es) - {key} == (Contents(rest) - {key})[head.key := head.value];
      }
    }
  }

  lemma {:induction false} WithoutLength(es: seq<Entry>, key: Path)
    requires DistinctKeys(es)
    ensures |Without(es, key)| == |es| - (if key in Contents(es) then 1 else 0)
  {
    if es != [] {
      WithoutLength(es[1..], key);
      ContentsKeys(es[1..]);
    }
  }

  lemma WithoutIs(es: seq<Entry>, key: Path)
    requires DistinctKeys(es)
    ensures DistinctKeys(Without(es, key))
    ensures Contents(Without(es, key)) == Contents(es) - {key}
    ensures |Without(es, key)| == |es| - (if key in Contents(es) then 1 else 0)
    ensures forall e | e in Without(es, key) :: e in es && e.key != key
  {
    WithoutMembers(es, key);
    WithoutContents(es, key);
    WithoutLength(es, key);
  }

  lemma {:induction false} ContentsKeys(es: seq<Entry>)
    ensures forall k :: k in Contents(es) <==> exists i :: 0 <= i < |es| && es[i].key == k
  {
    if es != [] {
      ContentsKeys(es[1..]);
    }
  }

  lemma {:induction false} ContentsSize(es: seq<Entry>)
    requires DistinctKeys(es)
    ensures |Contents(es)| == |es|
  {
    if es != [] {
      ContentsSize(es[1..]);
      ContentsKeys(es[1..]);
    }
  }

  lemma Prepend(head: Entry, rest: seq<Entry>)
    requires DistinctKeys(rest) && forall e | e in rest :: e.key != head.key
    ensures DistinctKeys([head] + rest) && Contents([head] + rest) == Contents(rest)[head.key := head.value]
  {
    assert ([head] + rest)[1..] == rest;
    forall i, j | 0 <= i < j < |[head] + rest| ensures ([head] + rest)[i].key != ([head] + rest)[j].key {
      assert ([head] + rest)[j] == rest[j - 1] && rest[j - 1] in rest;
    }
  }

  /** The entry that goes in front of the rest, before anything is pushed out. */
  lemma FrontIsUpdate(es: seq<Entry>, key: Path, value: Hash)
    requires DistinctKeys(es)
    ensures var front := [Entry(key, value)] + Without(es, key);
      && DistinctKeys(front) && Contents(front) == Contents(es)[key := value]
      && |front| == |es| + if key in Contents(es) then 0 else 1
  {
    WithoutIs(es, key);
    Prepend(Entry(key, value), Without(es, key));
    assert (Contents(es) - {key})[key := value] == Contents(es)[key := value];
  }

  lemma UsedKeepsContents(es: seq<Entry>, key: Path)
    requires DistinctKeys(es)
    ensures DistinctKeys(Used(es, key)) && Contents(Used(es, key)) == Contents(es) && |Used(es, key)| == |es|
  {
    if key in Contents(es) {
      FrontIsUpdate(es, key, Contents(es)[key]);
    }
  }

  /** Adding acts as a map update exactly when the key is known or there is room. */
  lemma AddedIsUpdateIff(es: seq<Entry>, size: nat, key: Path, value: Hash)
    requires DistinctKeys(es) && |es| <= size && size > 0
    ensures DistinctKeys(Added(es, size, key, value)) && |Added(es, size, key, value)| <= size
    ensures Contents(Added(es, size, key, value)) == Contents(es)[key := value] <==>
      key in Contents(es) || |es| < size
  {
    FrontIsUpdate(es, key, value);
    var front := [Entry(key, value)] + Without(es, key);
    if |front| > size {
      ContentsSize(front[..size]);
      ContentsSize(front);
    }
  }

  lemma {:induction false} DropLast(es: seq<Entry>)
    requires DistinctKeys(es) && es != []
    ensures Contents(es[..|es| - 1]) == Contents(es) - {es[|es| - 1].key}
  {
    var front := es[..|es| - 1];
    if |es| == 1 {
      assert Contents(es[1..]) == map[];
    } else {
      DropLast(es[1..]);
      assert es[1..][..|es| - 2] == front[1..];
      assert es[1..][|es| - 2] == es[|es| - 1] && es[0].key != es[|es| - 1].key;
    }
  }

  /** In a full cache a new key takes the place of the one that was used least recently. */
  lemma FullAdded(es: seq<Entry>, size: nat, key: Path, value: Hash)
    requires DistinctKeys(es) && |es| == size > 0 && key !in Contents(es)
    ensures Contents(Added(es, size, key, value)) == (Contents(es) - {es[size - 1].key})[key := value]
  {
    NothingToDrop(es, key);
    var rest := es[..size - 1];
    assert Added(es, size, key, value) == [Entry(key, value)] + rest;
    DropLast(es);
    ContentsKeys(es);
    forall e | e in rest ensures e.key != key {
      var i :| 0 <= i < size - 1 && rest[i] == e;
      assert es[i] == e;
    }
    Prepend(Entry(key, value), rest);
  }

  /** Whatever the cache still knows after a Set, a map would know too; the key itself is known. */
  lemma AddedKnows(es: seq<Entry>, size: nat, key: Path, value: Hash)
    requires DistinctKeys(es) && |es| <= size && size > 0
    ensures DistinctKeys(Added(es, size, key, value)) && |Added(es, size, key, value)| <= size
    ensures Lookup(Contents(Added(es, size, key, value)), key) == Some(value)
    ensures forall k | k in Contents(Added(es, size, key, value)) ::
      Lookup(Contents(es)[key := value], k) == Some(Contents(Added(es, size, key, value))[k])
  {
    AddedIsUpdateIff(es, size, key, value);
    if key !in Contents(es) && |es| == size {
      FullAdded(es, size, key, value);
    }
  }

  /** A lookup followed by a Set. */
  lemma UsedAddedKnows(es: seq<Entry>, size: nat, key: Path, value: Hash)
    requires DistinctKeys(es) && |es| <= size && size > 0
    ensures var next := Added(Used(es, key), size, key, value);
      && DistinctKeys(next) && |next| <= size && Lookup(Contents(next), key) == Some(value)
      && forall k | k in Contents(next) :: Lookup(Contents(es)[key := value], k) == Some(Contents(next)[k])
  {
    UsedKeepsContents(es, key);
    AddedKnows(Used(es, key), size, key, value);
  }

  class Cache {
    const size: nat
    var entries: seq<Entry>

    ghost predicate Valid()
      reads this
    {
      size > 0 && DistinctKeys(entries) && |entries| <= size
    }

    constructor (size: nat)
      requires size > 0
      ensures Valid() && this.size == size && entries == []
    {
      this.size := size;
      entries := [];
    }

    /** A lookup reports the cached value and counts as a use. */
    method Get(key: Path) returns (value: Option<Hash>)
      requires Valid()
      modifies this`entries
      ensures Valid() && entries == Used(old(entries), key)
      ensures value == Lookup(old(Contents(entries)), key) && Contents(entries) == old(Contents(entries))
    {
      UsedKeepsContents(entries, key);
      value := None;
      for i := 0 to |entries|
        invariant entries == old(entries)
        invariant forall j | 0 <= j < i :: entries[j].key != key
      {
        if entries[i].key == key {
          FirstHit(entries, i);
          value := Some(entries[i].value);
          entries := Used(entries, key);
          return;
        }
      }
      ContentsKeys(entries);
    }

    /** The value is known from now on; a full cache pays for a new key with the least recently used one. */
    method Set(key: Path, value: Hash)
      requires Valid()
      modifies this`entries
      ensures Valid() && entries == Added(old(entries), size, key, value)
      ensures Contents(entries) ==
        if key in old(Contents(entries)) || |old(entries)| < size then old(Contents(entries))[key := value]
        else (old(Contents(entries)) - {old(entries[size - 1].key)})[key := value]
    {
      AddedIsUpdateIff(entries, size, key, value);
      if key !in Contents(entries) && |entries| == size {
        FullAdded(entries, size, key, value);
      }
      entries := Added(entries, size, key, value);
    }
  }

  lemma {:induction false} FirstHit(es: seq<Entry>, i: nat)
    requires i < |es| && forall j | 0 <= j < i :: es[j].key != es[i].key
    ensures es[i].key in Contents(es) && Contents(es)[es[i].key] == es[i].value
  {
    if i > 0 {
      FirstHit(es[1..], i - 1);
    }
  }

  // -------- runs --------

  datatype Op = Get(key: Path) | Set(key: Path, value: Hash)

  /** The answers of the cache to the lookups of a run. */
  function CacheAnswers(es: seq<Entry>, size: nat, ops: seq<Op>): seq<Option<Hash>>
    decreases |ops|
  {
    if ops == [] then []
    else match ops[0]
      case Get(k) => [Lookup(Contents(es), k)] + CacheAnswers(Used(es, k), size, ops[1..])
      case Set(k, v) => CacheAnswers(Added(es, size, k, v), size, ops[1..])
  }

  function MapAnswers(m: map<Path, Hash>, ops: seq<Op>): seq<Option<Hash>>
    decreases |ops|
  {
    if ops == [] then []
    else match ops[0]
      case Get(k) => [Lookup(m, k)] + MapAnswers(m, ops[1..])
      case Set(k, v) => MapAnswers(m[k := v], ops[1..])
  }

  function KeysSet(ops: seq<Op>): set<Path> {
    set op | op in ops && op.Set? :: op.key
  }

  /** As long as no more keys are written than fit, the cache cannot be told from a map. */
  lemma {:induction false} CacheIsMap(es: seq<Entry>, size: nat, ops: seq<Op>)
    requires size > 0 && DistinctKeys(es) && |Contents(es).Keys + KeysSet(ops)| <= size
    ensures CacheAnswers(es, size, ops) == MapAnswers(Contents(es), ops)
    decreases |ops|
  {
    if ops != [] {
      ContentsSize(es);
      SubsetSize(Contents(es).Keys, Contents(es).Keys + KeysSet(ops));
      match ops[0] {
        case Get(k) =>
          UsedKeepsContents(es, k);
          assert KeysSet(ops) == KeysSet(ops[1..]);
          CacheIsMap(Used(es, k), size, ops[1..]);
        case Set(k, v) =>
          assert Set(k, v) in ops;
          assert KeysSet(ops) == KeysSet(ops[1..]) + {k};
          if k !in Contents(es) {
            SubsetSize(Contents(es).Keys + {k}, Contents(es).Keys + KeysSet(ops));
          }
          AddedIsUpdateIff(es, size, k, v);
          var next := Added(es, size, k, v);
          assert Contents(next).Keys + KeysSet(ops[1..]) == Contents(es).Keys + KeysSet(ops);
          CacheIsMap(next, size, ops[1..]);
      }
    }
  }

  lemma {:induction false} SubsetSize<T>(a: set<T>, b: set<T>)
    requires a <= b
    ensures |a| <= |b|
  {
    if a != {} {
      var x :| x in a;
      SubsetSize(a - {x}, b - {x});
    }
  }

  /** One key more than fits, and the entry that was used least recently is forgotten. */
  lemma OneKeyTooMany(es: seq<Entry>, size: nat, key: Path, value: Hash)
    requires size > 0 && DistinctKeys(es) && |es| == size && key !in Contents(es)
    ensures es[size - 1].key !in Contents(Added(es, size, key, value))
  {
    WithoutIs(es, key);
    NothingToDrop(es, key);
    var next := Added(es, size, key, value);
    ContentsKeys(next);
    ContentsKeys(es);
    forall i | 0 <= i < |next| ensures next[i].key != es[size - 1].key {
      if i > 0 {
        assert next[i] == es[i - 1];
      }
    }
  }

  /** A key that was looked up or set is in front; the others keep their order behind it. */
  lemma UsedIsFirst(es: seq<Entry>, size: nat, key: Path, value: Hash)
    requires size > 0
    ensures key in Contents(es) ==> Used(es, key) == [Entry(key, Contents(es)[key])] + Without(es, key)
    ensures key !in Contents(es) ==> Used(es, key) == es
    ensures Added(es, size, key, value)[0] == Entry(key, value) && Added(es, size, key, value) <= [Entry(key, value)] + Without(es, key)
  {}

  /** So a lookup saves a key from being pushed out by the next new one. */
  lemma LookupSaves(es: seq<Entry>, size: nat, key: Path, other: Path, value: Hash)
    requires size > 1 && DistinctKeys(es) && |es| == size && key in Contents(es) && other !in Contents(es)
    ensures Lookup(Contents(Added(Used(es, key), size, other, value)), key) == Some(Contents(es)[key])
  {
    var used := Used(es, key);
    UsedKeepsContents(es, key);
    FullAdded(used, size, other, value);
    assert used[0].key == key && used[size - 1].key != key;
  }

  lemma {:induction false} NothingToDrop(es: seq<Entry>, key: Path)
    requires key !in Contents(es)
    ensures Without(es, key) == es
  {
    if es != [] {
      NothingToDrop(es[1..], key);
    }
  }
}

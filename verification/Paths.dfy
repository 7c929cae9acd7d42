/** Global and local paths: path.Join and path.Clean with slashes, and the two conversions built on them. */
module Paths {
  import opened Ids

  function Split(s: string): (names: seq<string>)
    ensures names != []
  {
    if s == "" then [""]
    else
      var rest := Split(s[1..]);
      if s[0] == '/' then [""] + rest else [[s[0]] + rest[0]] + rest[1..]
  }

  function JoinNames(names: seq<string>): string {
    if names == [] then ""
    else if |names| == 1 then names[0]
    else names[0] + "/" + JoinNames(names[1..])
  }

  /** The names left by path.Clean: empty names and "." go, ".." takes away the name before it. */
  function Kept(names: seq<string>, rooted: bool, kept: seq<string>): seq<string>
    decreases |names|
  {
    if names == [] then kept
    else
      var name := names[0];
      if name == "" || name == "." then Kept(names[1..], rooted, kept)
      else if name != ".." then Kept(names[1..], rooted, kept + [name])
      else if kept != [] && kept[|kept| - 1] != ".." then Kept(names[1..], rooted, kept[..|kept| - 1])
      else if rooted then Kept(names[1..], rooted, kept)
      else Kept(names[1..], rooted, kept + [name])
  }

  function Clean(s: string): string {
    var rooted := "/" <= s;
    var body := (if rooted then "/" else "") + JoinNames(Kept(Split(s), rooted, []));
    if body == "" then "." else body
  }

  function Join(a: string, b: string): string {
    if a == "" && b == "" then ""
    else if a == "" then Clean(b)
    else if b == "" then Clean(a)
    else Clean(a + "/" + b)
  }

  function ToLocalPath(globalPath: string, baseDir: string): string {
    var joined := Join(baseDir, globalPath);
    if joined == "." then ""
    else if "_" <= joined then "/" + joined
    else joined
  }

  function ToGlobalPath(localPath: string, baseDir: string): string {
    TrimPrefix(TrimPrefix(localPath, "_"), baseDir)
  }

  predicate ProperName(name: string) {
    name != "" && name != "." && name != ".." && '/' !in name
  }

  predicate ProperNames(names: seq<string>) {
    forall i | 0 <= i < |names| :: ProperName(names[i])
  }

  /** A base directory as it is configured: empty, or clean names each followed by a slash. */
  function BaseDir(names: seq<string>): string {
    if names == [] then "" else JoinNames(names) + "/"
  }

  lemma {:induction false} SplitConcat(a: string, b: string)
    ensures Split(a + "/" + b) == Split(a) + Split(b)
  {
    var s := a + "/" + b;
    if a == "" {
      assert s[1..] == b;
    } else {
      assert s[1..] == a[1..] + "/" + b;
      SplitConcat(a[1..], b);
    }
  }

  lemma {:induction false} SplitName(name: string)
    requires '/' !in name
    ensures Split(name) == [name]
  {
    if name != "" {
      assert forall c | c in name[1..] :: c in name;
      SplitName(name[1..]);
      assert [name[0]] + name[1..] == name;
    }
  }

  lemma {:induction false} SplitJoin(names: seq<string>)
    requires names != [] && ProperNames(names)
    ensures Split(JoinNames(names)) == names
  {
    assert ProperName(names[0]);
    SplitName(names[0]);
    if |names| > 1 {
      SplitJoin(names[1..]);
      SplitConcat(names[0], JoinNames(names[1..]));
    }
  }

  lemma {:induction false} KeptAll(names: seq<string>, rest: seq<string>, rooted: bool, kept: seq<string>)
    requires ProperNames(names)
    ensures Kept(names + rest, rooted, kept) == Kept(rest, rooted, kept + names)
    decreases |names|
  {
    if names == [] {
      assert names + rest == rest && kept + names == kept;
    } else {
      assert ProperName(names[0]) && (names + rest)[1..] == names[1..] + rest;
      KeptAll(names[1..], rest, rooted, kept + [names[0]]);
      assert kept + [names[0]] + names[1..] == kept + names;
    }
  }

  lemma JoinNotRooted(names: seq<string>)
    requires names != [] && ProperNames(names)
    ensures JoinNames(names) != "" && !("/" <= JoinNames(names)) && JoinNames(names) != "."
  {
    assert ProperName(names[0]);
    assert names[0][0] in names[0] && JoinNames(names)[0] == names[0][0];
    assert |names| > 1 ==> |JoinNames(names)| >= |names[0]| + 1 >= 2;
  }

  lemma CleanProper(names: seq<string>)
    requires names != [] && ProperNames(names)
    ensures Clean(JoinNames(names)) == JoinNames(names)
  {
    JoinNotRooted(names);
    SplitJoin(names);
    KeptAll(names, [], false, []);
    assert names + [] == names && [] + names == names;
  }

  /** A clean path with a slash in front is clean. */
  lemma CleanRooted(names: seq<string>)
    requires names != [] && ProperNames(names)
    ensures Clean("/" + JoinNames(names)) == "/" + JoinNames(names)
  {
    var s := "/" + JoinNames(names);
    assert s[1..] == JoinNames(names) && Split(s) == [""] + Split(s[1..]);
    SplitJoin(names);
    assert ([""] + names)[1..] == names && names + [] == names && [] + names == names;
    KeptAll(names, [], true, []);
  }

  lemma {:induction false} JoinNamesConcat(a: seq<string>, b: seq<string>)
    requires a != [] && b != []
    ensures JoinNames(a + b) == JoinNames(a) + "/" + JoinNames(b)
  {
    assert (a + b)[1..] == a[1..] + b;
    if |a| > 1 {
      JoinNamesConcat(a[1..], b);
      assert JoinNames(a + b) == a[0] + "/" + (JoinNames(a[1..]) + "/" + JoinNames(b));
      assert JoinNames(a) + "/" + JoinNames(b) == a[0] + "/" + (JoinNames(a[1..]) + "/" + JoinNames(b));
    } else {
      assert a[1..] == [] && a[1..] + b == b;
    }
  }

  lemma SplitBase(base: seq<string>)
    requires base != [] && ProperNames(base)
    ensures Split(BaseDir(base)) == base + [""]
  {
    SplitConcat(JoinNames(base), "");
    assert JoinNames(base) + "/" + "" == BaseDir(base);
    SplitJoin(base);
    assert Split("") == [""];
  }

  /** The names of a base directory with a path behind it; the slash that Join adds leaves an empty name between. */
  lemma SplitBaseAndPath(base: seq<string>, names: seq<string>, b: string)
    requires base != [] && ProperNames(base) && names != [] && ProperNames(names) && b == BaseDir(base)
    ensures Split(b + "/" + JoinNames(names)) == (base + [""]) + names
  {
    SplitBase(base);
    SplitJoin(names);
    SplitConcat(b, JoinNames(names));
  }

  /** The empty name is dropped. */
  lemma KeptAcrossSlashes(base: seq<string>, names: seq<string>)
    requires ProperNames(base) && ProperNames(names)
    ensures Kept((base + [""]) + names, false, []) == base + names
  {
    assert (base + [""]) + names == base + ([""] + names);
    KeptAll(base, [""] + names, false, []);
    assert [] + base == base && ([""] + names)[1..] == names;
    KeptAll(names, [], false, base);
    assert names + [] == names;
  }

  /** Joining a clean path to a base directory puts the names one after the other. */
  lemma JoinProper(base: seq<string>, names: seq<string>)
    requires ProperNames(base) && names != [] && ProperNames(names)
    ensures Join(BaseDir(base), JoinNames(names)) == JoinNames(base + names)
    ensures base != [] ==> JoinNames(base + names) == BaseDir(base) + JoinNames(names)
  {
    JoinNotRooted(names);
    if base == [] {
      assert base + names == names;
      CleanProper(names);
    } else {
      JoinNotRooted(base);
      JoinNotRooted(base + names);
      SplitBaseAndPath(base, names, BaseDir(base));
      KeptAcrossSlashes(base, names);
      var s := BaseDir(base) + "/" + JoinNames(names);
      assert s[0] == JoinNames(base)[0];
      assert Clean(s) == JoinNames(base + names);
      JoinNamesConcat(base, names);
    }
  }

  /**
    A clean global path comes back from its local form exactly when the joined path does not begin with an
    underscore: the slash put before such a path is not taken off again.
   */
  lemma GlobalUndoesLocalIff(base: seq<string>, names: seq<string>)
    requires ProperNames(base) && names != [] && ProperNames(names)
    ensures ToGlobalPath(ToLocalPath(JoinNames(names), BaseDir(base)), BaseDir(base)) == JoinNames(names) <==>
      !("_" <= JoinNames(base + names))
  {
    var b, g, joined := BaseDir(base), JoinNames(names), JoinNames(base + names);
    JoinProper(base, names);
    JoinNotRooted(base + names);
    JoinNotRooted(names);
    var local := ToLocalPath(g, b);
    if "_" <= joined {
      assert local == "/" + joined && !("_" <= local);
      if base == [] {
        assert base + names == names;
      } else {
        JoinNotRooted(base);
        assert b[0] == JoinNames(base)[0] && !(b <= local);
      }
      assert ToGlobalPath(local, b) == local;
    } else if base == [] {
      assert base + names == names;
      assert ToGlobalPath(local, b) == g;
    } else {
      assert joined == b + g;
      assert (b + g)[|b|..] == g;
    }
  }

  /**
    DispatchFrom converts a path that is global already once more. That is harmless exactly when the path begins
    neither with an underscore nor with a nonempty base directory.
   */
  lemma SecondConversionHarmlessIff(path: string, baseDir: string)
    ensures ToGlobalPath(path, baseDir) == path <==> !("_" <= path) && (baseDir == "" || !(baseDir <= path))
  {
    if "_" <= path {
      assert |ToGlobalPath(path, baseDir)| < |path|;
    } else if baseDir == "" {
      assert path[0..] == path;
    }
  }

  // -------- the paths of a peer without a base directory --------

  /** A relative path as the watcher and the scans report it: clean, and not the root. */
  predicate ProperPath(path: string) {
    ProperNames(Split(path))
  }

  lemma {:induction false} JoinSplit(s: string)
    ensures JoinNames(Split(s)) == s
  {
    if s != "" {
      var rest := Split(s[1..]);
      JoinSplit(s[1..]);
      if s[0] == '/' {
        assert ([""] + rest)[1..] == rest;
        assert JoinNames([""] + rest) == "" + "/" + s[1..];
      } else {
        JoinFirst(s[0], rest);
      }
    }
  }

  lemma JoinFirst(c: char, rest: seq<string>)
    requires rest != []
    ensures JoinNames([[c] + rest[0]] + rest[1..]) == [c] + JoinNames(rest)
  {
    var all := [[c] + rest[0]] + rest[1..];
    assert all[0] == [c] + rest[0] && all[1..] == rest[1..];
    if |rest| > 1 {
      Regroup([c], rest[0], "/" + JoinNames(rest[1..]));
      Regroup([c] + rest[0], "/", JoinNames(rest[1..]));
      Regroup(rest[0], "/", JoinNames(rest[1..]));
    }
  }

  lemma Regroup(a: string, b: string, c: string)
    ensures (a + b) + c == a + (b + c)
  {}

  /** How the watcher's path becomes the one that is cached and sent. */
  function KeyOf(localPath: string): string {
    ToGlobalPath(localPath, "")
  }

  /** Where below the root a global path is written. */
  function SpotOf(globalPath: string): string {
    TrimPrefix(ToLocalPath(globalPath, ""), "/")
  }

  /** The path means the same file everywhere. */
  predicate Plain(path: string) {
    KeyOf(path) == path && SpotOf(path) == path
  }

  /** Among the paths that are reported, the plain ones are those without a leading underscore. */
  lemma PlainIff(path: string)
    requires ProperPath(path)
    ensures Plain(path) <==> KeyOf(path) == path
    ensures KeyOf(path) == path <==> !("_" <= path)
  {
    JoinSplit(path);
    CleanProper(Split(path));
    JoinNotRooted(Split(path));
    SecondConversionHarmlessIff(path, "");
  }

  lemma LocalOfProper(base: seq<string>, path: string)
    requires ProperNames(base) && ProperPath(path)
    ensures var joined := JoinNames(base + Split(path));
      && joined != "" && !("/" <= joined)
      && ToLocalPath(path, BaseDir(base)) == (if "_" <= joined then "/" + joined else joined)
      && Split(joined) == base + Split(path)
  {
    JoinSplit(path);
    JoinProper(base, Split(path));
    JoinNotRooted(base + Split(path));
    SplitJoin(base + Split(path));
  }

  /** With a clean base directory, different clean paths have different local forms. */
  lemma LocalInjective(base: seq<string>, p: string, q: string)
    requires ProperNames(base) && ProperPath(p) && ProperPath(q)
    requires ToLocalPath(p, BaseDir(base)) == ToLocalPath(q, BaseDir(base))
    ensures p == q
  {
    LocalOfProper(base, p);
    LocalOfProper(base, q);
    var a, b := JoinNames(base + Split(p)), JoinNames(base + Split(q));
    assert ("/" + a)[1..] == a && ("/" + b)[1..] == b;
    assert a == b;
    assert (base + Split(p))[|base|..] == Split(p) && (base + Split(q))[|base|..] == Split(q);
    JoinSplit(p);
    JoinSplit(q);
  }

  /** A reported path is written where it says. */
  lemma SpotOfProper(path: string)
    requires ProperPath(path)
    ensures SpotOf(path) == path
  {
    LocalOfProper([], path);
    JoinSplit(path);
    assert [] + Split(path) == Split(path);
    assert ("/" + path)[1..] == path;
  }

  /** A document's path that the feed reports, and whose global form is clean, comes back from it. */
  lemma LocalUndoesGlobal(base: seq<string>, local: string)
    requires ProperNames(base) && BaseDir(base) <= local && IsLocal(local) && ProperPath(ToGlobalPath(local, BaseDir(base)))
    ensures ToLocalPath(ToGlobalPath(local, BaseDir(base)), BaseDir(base)) == local
  {
    var b := BaseDir(base);
    var g := ToGlobalPath(local, b);
    LocalOfProper(base, g);
    JoinSplit(g);
    JoinNotRooted(Split(g));
    if base == [] {
      assert b == "" && g == local;
      assert base + Split(g) == Split(g);
    } else {
      JoinNotRooted(base);
      assert b[0] == local[0] && !("_" <= local);
      assert local == b + g;
      JoinNamesConcat(base, Split(g));
    }
  }

  lemma KeptFirst(first: string, tail: seq<string>)
    requires first != "" && ProperNames(tail)
    ensures Kept([first] + tail, false, []) == if first == "." then tail else [first] + tail
  {
    assert ([first] + tail)[1..] == tail && tail + [] == tail && [] + tail == tail && [] + [first] == [first];
    KeptAll(tail, [], false, []);
    KeptAll(tail, [], false, [first]);
  }

  lemma CleanFirst(first: string, tail: seq<string>)
    requires '/' !in first && first != "" && tail != [] && ProperNames(tail)
    ensures Clean(first + "/" + JoinNames(tail)) == if first == "." then JoinNames(tail) else JoinNames([first] + tail)
  {
    var path := first + "/" + JoinNames(tail);
    SplitKept(first, tail);
    KeptFirst(first, tail);
    JoinNotRooted(tail);
    assert path[0] == first[0] && first[0] in first && !("/" <= path);
  }

  /** What becomes of a path whose first name has lost its underscore, and perhaps everything else. */
  lemma LocalOfStripped(first: string, tail: seq<string>)
    requires '/' !in first && tail != [] && ProperNames(tail)
    ensures var name := TrimPrefix(ToLocalPath(first + "/" + JoinNames(tail), ""), "/");
      name != "" && (Split(name) == tail || Split(name) == [first] + tail)
  {
    var path := first + "/" + JoinNames(tail);
    SplitJoin(tail);
    JoinNotRooted(tail);
    if first == "" {
      CleanRooted(tail);
      assert path == "/" + JoinNames(tail) && path[1..] == JoinNames(tail);
    } else {
      CleanFirst(first, tail);
      SplitKept(first, tail);
      if first != "." {
        assert |Clean(path)| > 1 && Clean(path)[0] == first[0] && first[0] in first;
      }
      TrimmedLocal(path);
    }
  }

  /** The slash that the local form may get is no part of the location. */
  lemma TrimmedLocal(path: string)
    requires path != "" && !("/" <= Clean(path)) && Clean(path) != "."
    ensures TrimPrefix(ToLocalPath(path, ""), "/") == Clean(path)
  {
    assert ("/" + Clean(path))[1..] == Clean(path);
  }

  lemma SplitKept(first: string, tail: seq<string>)
    requires '/' !in first && first != "" && tail != [] && ProperNames(tail)
    ensures Split(JoinNames([first] + tail)) == [first] + tail
    ensures JoinNames([first] + tail) == first + "/" + JoinNames(tail)
  {
    assert ([first] + tail)[1..] == tail;
    SplitConcat(first, JoinNames(tail));
    SplitName(first);
    SplitJoin(tail);
  }

  function Span(names: seq<string>): nat {
    if names == [] then 0 else |names[0]| + 1 + Span(names[1..])
  }

  lemma {:induction false} SpanConcat(a: seq<string>, b: seq<string>)
    ensures Span(a + b) == Span(a) + Span(b)
  {
    if a == [] {
      assert a + b == b;
    } else {
      assert (a + b)[1..] == a[1..] + b;
      SpanConcat(a[1..], b);
    }
  }

  lemma {:induction false} JoinSpan(names: seq<string>)
    requires names != []
    ensures |JoinNames(names)| + 1 == Span(names)
  {
    if |names| > 1 {
      JoinSpan(names[1..]);
    } else {
      assert names[1..] == [];
    }
  }

  lemma {:induction false} KeptSpan(names: seq<string>, rooted: bool, kept: seq<string>)
    ensures Span(Kept(names, rooted, kept)) <= Span(kept) + Span(names)
    decreases |names|
  {
    if names != [] {
      var name := names[0];
      SpanConcat(kept, [name]);
      if kept != [] {
        assert kept == kept[..|kept| - 1] + [kept[|kept| - 1]];
        SpanConcat(kept[..|kept| - 1], [kept[|kept| - 1]]);
        KeptSpan(names[1..], rooted, kept[..|kept| - 1]);
      }
      KeptSpan(names[1..], rooted, kept);
      KeptSpan(names[1..], rooted, kept + [name]);
    }
  }

  lemma SplitSpan(s: string)
    ensures Span(Split(s)) == |s| + 1
  {
    JoinSplit(s);
    JoinSpan(Split(s));
  }

  lemma CleanIsNoLonger(s: string)
    requires s != ""
    ensures |Clean(s)| <= |s|
  {
    var rooted := "/" <= s;
    var kept := Kept(Split(s), rooted, []);
    KeptSpan(Split(s), rooted, []);
    SplitSpan(s);
    if rooted {
      assert Split(s) == [""] + Split(s[1..]) && Split(s)[1..] == Split(s[1..]);
      KeptSpan(Split(s[1..]), rooted, []);
      SplitSpan(s[1..]);
    }
    if kept != [] {
      JoinSpan(kept);
    }
  }

  /** A path is never written to a longer one; so a path that loses its underscore ends up elsewhere. */
  lemma SpotIsNoLonger(globalPath: string)
    ensures |SpotOf(globalPath)| <= |globalPath|
  {
    if globalPath != "" {
      CleanIsNoLonger(globalPath);
    }
  }
}

/** What path.Clean and path.Join mean: a clean path is in normal form and leads where the path led, from every directory. */
module PathClean {
  import opened Paths

  /** Where the names lead from a directory, given by its names from the root. The root is its own parent. */
  function Lead(base: seq<string>, names: seq<string>): seq<string>
    decreases |names|
  {
    if names == [] then base
    else
      var name := names[0];
      if name == "" || name == "." then Lead(base, names[1..])
      else if name != ".." then Lead(base + [name], names[1..])
      else Lead(if base == [] then [] else base[..|base| - 1], names[1..])
  }

  /** Where a path leads from a directory; a rooted one starts at the root. */
  function LeadsTo(base: seq<string>, s: string): seq<string> {
    Lead(if "/" <= s then [] else base, Split(s))
  }

  /** Some steps up, unless the path is rooted, and then only proper names. */
  predicate Normal(names: seq<string>, rooted: bool) {
    exists ups :: 0 <= ups <= |names| && (rooted ==> ups == 0) && UpThenDown(names, ups)
  }

  predicate UpThenDown(names: seq<string>, ups: nat)
    requires ups <= |names|
  {
    (forall i | 0 <= i < ups :: names[i] == "..") && ProperNames(names[ups..])
  }

  /** The clean form of a path: its names are normal, one slash stands between any two, and an empty one is a dot. */
  predicate InCleanForm(s: string) {
    if "/" <= s then s == "/" || Normal(Split(s[1..]), true) else s == "." || Normal(Split(s), false)
  }

  lemma {:induction false} LeadConcat(base: seq<string>, a: seq<string>, b: seq<string>)
    ensures Lead(base, a + b) == Lead(Lead(base, a), b)
    decreases |a|
  {
    if a == [] {
      assert a + b == b;
    } else {
      assert (a + b)[0] == a[0] && (a + b)[1..] == a[1..] + b;
      var name := a[0];
      if name == "" || name == "." {
        LeadConcat(base, a[1..], b);
      } else if name != ".." {
        LeadConcat(base + [name], a[1..], b);
      } else {
        LeadConcat(if base == [] then [] else base[..|base| - 1], a[1..], b);
      }
    }
  }

  lemma LeadOne(base: seq<string>, name: string)
    ensures Lead(base, [name]) ==
      if name == "" || name == "." then base else if name != ".." then base + [name]
      else if base == [] then [] else base[..|base| - 1]
  {
    assert [name][1..] == [];
  }

  /** Adding a proper name keeps names normal. */
  lemma NormalSnoc(names: seq<string>, rooted: bool, name: string)
    requires Normal(names, rooted) && ProperName(name)
    ensures Normal(names + [name], rooted)
  {
    var ups :| 0 <= ups <= |names| && (rooted ==> ups == 0) && UpThenDown(names, ups);
    var all := names + [name];
    assert all[ups..] == names[ups..] + [name];
    assert UpThenDown(all, ups);
  }

  lemma LastIsProper(names: seq<string>, ups: nat)
    requires ups < |names| && UpThenDown(names, ups)
    ensures ProperName(names[|names| - 1])
  {
    assert names[ups..][|names| - 1 - ups] == names[|names| - 1];
  }

  /** So does a step up, where nothing can be taken away. */
  lemma NormalUp(names: seq<string>)
    requires Normal(names, false) && (names == [] || names[|names| - 1] == "..")
    ensures Normal(names + [".."], false)
  {
    var ups :| 0 <= ups <= |names| && UpThenDown(names, ups);
    if ups < |names| {
      LastIsProper(names, ups);
    }
    var all := names + [".."];
    assert all[|all|..] == [] && UpThenDown(all, |all|);
  }

  /** And taking away the last name that is none. */
  lemma NormalFront(names: seq<string>, rooted: bool)
    requires Normal(names, rooted) && names != [] && names[|names| - 1] != ".."
    ensures Normal(names[..|names| - 1], rooted) && ProperName(names[|names| - 1])
  {
    var ups :| 0 <= ups <= |names| && (rooted ==> ups == 0) && UpThenDown(names, ups);
    var last := |names| - 1;
    assert ups < |names| && names[ups..][last - ups] == names[last];
    assert names[..last][ups..] == names[ups..][..last - ups];
    assert UpThenDown(names[..last], ups);
  }

  lemma RootedHasNoUps(names: seq<string>)
    requires Normal(names, true) && names != []
    ensures ProperName(names[|names| - 1])
  {
    assert UpThenDown(names, 0) && names[0..] == names;
  }

  /** A name followed by a step up leads nowhere. */
  lemma UpUndoes(base: seq<string>, kept: seq<string>)
    requires kept != [] && ProperName(kept[|kept| - 1])
    ensures Lead(Lead(base, kept), [".."]) == Lead(base, kept[..|kept| - 1])
  {
    var front, last := kept[..|kept| - 1], kept[|kept| - 1];
    assert kept == front + [last];
    LeadConcat(base, front, [last]);
    LeadOne(Lead(base, front), last);
    LeadOne(Lead(base, kept), "..");
    assert (Lead(base, front) + [last])[..|Lead(base, front)|] == Lead(base, front);
  }

  predicate NoSlashes(names: seq<string>) {
    forall i | 0 <= i < |names| :: '/' !in names[i]
  }

  /** What is kept is normal, and leads where what was kept before and the names lead. */
  lemma {:induction false} KeptMeans(base: seq<string>, names: seq<string>, rooted: bool, kept: seq<string>)
    requires NoSlashes(names) && Normal(kept, rooted) && (rooted ==> base == [])
    ensures Normal(Kept(names, rooted, kept), rooted)
    ensures Lead(base, Kept(names, rooted, kept)) == Lead(Lead(base, kept), names)
    decreases |names|
  {
    if names != [] {
      var name, rest := names[0], names[1..];
      var next := KeptNext(base, name, rooted, kept);
      KeptMeans(base, rest, rooted, next);
      LeadConcat(Lead(base, kept), [name], rest);
      assert [name] + rest == names;
      assert Kept(names, rooted, kept) == Kept(rest, rooted, next);
    }
  }

  /** One name. */
  lemma KeptNext(base: seq<string>, name: string, rooted: bool, kept: seq<string>) returns (next: seq<string>)
    requires '/' !in name && Normal(kept, rooted) && (rooted ==> base == [])
    ensures Normal(next, rooted) && Lead(base, next) == Lead(Lead(base, kept), [name])
    ensures next ==
      if name == "" || name == "." then kept
      else if name != ".." then kept + [name]
      else if kept != [] && kept[|kept| - 1] != ".." then kept[..|kept| - 1]
      else if rooted then kept else kept + [".."]
  {
    LeadOne(Lead(base, kept), name);
    if name == "" || name == "." {
      next := kept;
    } else if name != ".." {
      next := kept + [name];
      NormalSnoc(kept, rooted, name);
      LeadConcat(base, kept, [name]);
    } else if kept != [] && kept[|kept| - 1] != ".." {
      next := kept[..|kept| - 1];
      NormalFront(kept, rooted);
      UpUndoes(base, kept);
    } else if rooted {
      next := kept;
      if kept != [] {
        RootedHasNoUps(kept);
      }
    } else {
      next := kept + [".."];
      NormalUp(kept);
      LeadConcat(base, kept, [".."]);
    }
  }

  lemma {:induction false} SplitHasNoSlashes(s: string)
    ensures NoSlashes(Split(s))
  {
    if s != "" {
      SplitHasNoSlashes(s[1..]);
    }
  }

  lemma NothingIsNormal(rooted: bool)
    ensures Normal([], rooted)
  {
    assert UpThenDown([], 0);
  }

  lemma NormalName(names: seq<string>, rooted: bool, i: nat)
    requires Normal(names, rooted) && i < |names|
    ensures '/' !in names[i] && names[i] != "" && names[i] != "."
  {
    var ups :| 0 <= ups <= |names| && (rooted ==> ups == 0) && UpThenDown(names, ups);
    if i >= ups {
      assert names[ups..][i - ups] == names[i];
    }
  }

  /** Normal names can be put into one string and taken out of it again. */
  lemma {:induction false} SplitNormal(names: seq<string>)
    requires names != [] && NoSlashes(names)
    ensures Split(JoinNames(names)) == names
  {
    SplitName(names[0]);
    if |names| > 1 {
      SplitNormal(names[1..]);
      SplitConcat(names[0], JoinNames(names[1..]));
    }
  }

  lemma JoinedName(names: seq<string>, rooted: bool)
    requires Normal(names, rooted) && names != []
    ensures Split(JoinNames(names)) == names && JoinNames(names) != "" && !("/" <= JoinNames(names))
    ensures JoinNames(names) != "."
  {
    forall i | 0 <= i < |names| ensures '/' !in names[i] {
      NormalName(names, rooted, i);
    }
    SplitNormal(names);
    NormalName(names, rooted, 0);
    assert JoinNames(names)[0] == names[0][0];
    if JoinNames(names) == "." {
      SplitName(".");
    }
  }

  lemma SplitRooted(s: string)
    ensures Split("/" + s) == [""] + Split(s)
  {
    assert ("/" + s)[1..] == s;
  }

  /** A rooted string of normal names. */
  lemma RootedForm(names: seq<string>)
    requires Normal(names, true)
    ensures InCleanForm("/" + JoinNames(names)) && forall base :: LeadsTo(base, "/" + JoinNames(names)) == Lead([], names)
  {
    var s := "/" + JoinNames(names);
    assert s[1..] == JoinNames(names);
    SplitRooted(JoinNames(names));
    LeadConcat([], [""], Split(JoinNames(names)));
    LeadOne([], "");
    if names == [] {
      assert s == "/" && Split("") == [""];
    } else {
      JoinedName(names, true);
    }
  }

  lemma UnrootedForm(names: seq<string>, s: string)
    requires Normal(names, false) && s == if names == [] then "." else JoinNames(names)
    ensures InCleanForm(s) && !("/" <= s) && forall base :: LeadsTo(base, s) == Lead(base, names)
  {
    if names == [] {
      SplitName(".");
      assert ["."][1..] == [];
    } else {
      JoinedName(names, false);
    }
  }

  /** path.Clean gives the clean form of the path, and that leads where the path leads, from every directory. */
  lemma CleanMeans(s: string, base: seq<string>)
    ensures InCleanForm(Clean(s)) && ("/" <= Clean(s) <==> "/" <= s)
    ensures LeadsTo(base, Clean(s)) == LeadsTo(base, s)
  {
    var rooted := "/" <= s;
    var kept, from := Kept(Split(s), rooted, []), if rooted then [] else base;
    SplitHasNoSlashes(s);
    NothingIsNormal(rooted);
    KeptMeans(from, Split(s), rooted, []);
    if rooted {
      RootedForm(kept);
    } else {
      if kept != [] {
        JoinedName(kept, false);
      }
      assert "" + JoinNames(kept) == JoinNames(kept);
      UnrootedForm(kept, Clean(s));
    }
  }

  /** path.Join leads first where the one path does and then on as the names of the other say, rooted or not. */
  lemma JoinMeans(a: string, b: string, base: seq<string>)
    ensures LeadsTo(base, Join(a, b)) == if a == "" then LeadsTo(base, b) else Lead(LeadsTo(base, a), Split(b))
    ensures a != "" || b != "" ==> InCleanForm(Join(a, b))
    ensures a == "" && b == "" ==> Join(a, b) == ""
  {
    if a != "" && b != "" {
      CleanMeans(a + "/" + b, base);
      SplitConcat(a, b);
      LeadConcat(if "/" <= a then [] else base, Split(a), Split(b));
      assert (a + "/" + b)[0] == a[0];
    } else if a != "" {
      CleanMeans(a, base);
      assert Split("") == [""] && [""][1..] == [];
    } else if b != "" {
      CleanMeans(b, base);
    }
  }

  /** The local form of a path is empty exactly when the path is not rooted and leads nowhere, from every directory. */
  lemma LocalIsEmptyIff(globalPath: string)
    ensures ToLocalPath(globalPath, "") == "" <==> !("/" <= globalPath) && forall base :: LeadsTo(base, globalPath) == base
  {
    forall base ensures LeadsTo(base, Join("", globalPath)) == LeadsTo(base, globalPath) {
      JoinMeans("", globalPath, base);
    }
    JoinMeans("", globalPath, []);
    var joined := Join("", globalPath);
    if globalPath != "" {
      CleanMeans(globalPath, []);
    }
    if joined == "" || joined == "." {
      SplitName(joined);
      forall base ensures LeadsTo(base, globalPath) == base {
        LeadOne(base, joined);
        assert LeadsTo(base, joined) == LeadsTo(base, globalPath);
      }
    } else if !("/" <= globalPath) {
      NormalLeads(Split(joined));
      assert LeadsTo(["/"], joined) == LeadsTo(["/"], globalPath);
    }
  }

  lemma {:induction false} UpsLead(base: seq<string>, ups: seq<string>)
    requires ups != [] && |base| <= 1 && forall i | 0 <= i < |ups| :: ups[i] == ".."
    ensures Lead(base, ups) == []
    decreases |ups|
  {
    assert ups[0] == "..";
    if |ups| > 1 {
      UpsLead([], ups[1..]);
    }
  }

  lemma {:induction false} DownLeads(base: seq<string>, names: seq<string>)
    requires ProperNames(names)
    ensures Lead(base, names) == base + names
    decreases |names|
  {
    if names == [] {
      assert base + names == base;
    } else {
      assert ProperName(names[0]);
      DownLeads(base + [names[0]], names[1..]);
      assert (base + [names[0]]) + names[1..] == base + names;
    }
  }

  /** Names in normal form lead away from a directory with a name that none of them can be. */
  lemma NormalLeads(names: seq<string>)
    requires Normal(names, false) && names != []
    ensures Lead(["/"], names) != ["/"]
  {
    var ups :| 0 <= ups <= |names| && UpThenDown(names, ups);
    assert names == names[..ups] + names[ups..];
    LeadConcat(["/"], names[..ups], names[ups..]);
    if ups > 0 {
      UpsLead(["/"], names[..ups]);
      DownLeads([], names[ups..]);
      assert [] + names[ups..] == names[ups..];
      assert names[ups..] != [] ==> ProperName(names[ups..][0]);
    } else {
      assert names[..0] == [] && names[0..] == names;
      DownLeads(["/"], names);
    }
  }
}

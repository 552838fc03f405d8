/** The entries of the visible agent list: their fields, their order, and who wins a name. */
module AgentEntries {
  import opened Wrappers
  import opened AgentDiscovery

  // ------------------------------------------------------------ the toggles

  lemma {:induction false} EnabledConcat(a: seq<Entry>, c: seq<Entry>, toggle: map<string, bool>)
    ensures EnabledOnly(a + c, toggle) == EnabledOnly(a, toggle) + EnabledOnly(c, toggle)
  {
    hide Enabled;
    if c == [] {
      assert a + c == a;
    } else {
      assert (a + c)[..|a + c| - 1] == a + c[..|c| - 1];
      EnabledConcat(a, c[..|c| - 1], toggle);
    }
  }

  /** An entry is left out iff its name is toggled off; a name without a toggle stays. */
  lemma EnabledOne(e: Entry, toggle: map<string, bool>)
    ensures EnabledOnly([e], toggle) == if e.name in toggle && toggle[e.name] == false then [] else [e]
  {
    assert [e][..0] == [];
  }

  /** Without toggles every merged entry is shown. */
  lemma {:induction false} NoToggles(entries: seq<Entry>)
    ensures EnabledOnly(entries, map[]) == entries
  {
    if entries != [] {
      NoToggles(entries[..|entries| - 1]);
    }
  }

  // ------------------------------------------------------------ order

  /** The names of a list. */
  function NamesIn(entries: seq<Entry>): (r: seq<string>)
    ensures |r| == |entries| && forall i | 0 <= i < |entries| :: r[i] == entries[i].name
  {
    seq(|entries|, i requires 0 <= i < |entries| => entries[i].name)
  }

  /** The definitions that may be listed: none that claims to be built in, and outside the
      project none with the name of a built-in subagent. */
  ghost function Listable(b: Builtins, defs: seq<Definition>): seq<string> {
    if defs == [] then []
    else
      var d := defs[|defs| - 1];
      Listable(b, defs[..|defs| - 1])
      + if d.scope == BuiltIn || (d.scope != Project && d.name in b.variants) then [] else [d.name]
  }

  /** `names` and, behind them, each of `more` that is new, where it first appears. */
  ghost function WithNew(names: seq<string>, more: seq<string>): seq<string> {
    if more == [] then names
    else
      var before := WithNew(names, more[..|more| - 1]);
      if more[|more| - 1] in before then before else before + [more[|more| - 1]]
  }

  lemma MergedNames(b: Builtins, entries: seq<Entry>, d: Definition)
    ensures NamesIn(MergeOne(b, entries, d)) ==
      if Eligible(b, d) && d.name !in NamesIn(entries) then NamesIn(entries) + [d.name] else NamesIn(entries)
  {
    hide Replaces, Eligible;
    match Position(entries, d.name)
    case None =>
    case Some(i) =>
      assert NamesIn(entries)[i] == d.name;
  }

  lemma {:induction false} SeedNames(b: Builtins, n: nat)
    requires n <= |b.variants|
    ensures NamesIn(Seed(b, n)) == b.variants[..n]
  {
    if n > 0 {
      SeedNames(b, n - 1);
      assert b.variants[..n] == b.variants[..n - 1] + [b.variants[n - 1]];
    }
  }

  /** The built-in subagents come first, in their order; behind them every other name where the
      discovery first met it. Replacing an entry moves nothing. */
  lemma {:induction false} ListOrder(b: Builtins, defs: seq<Definition>)
    ensures NamesIn(MergeAll(b, defs)) == WithNew(b.variants, Listable(b, defs))
  {
    hide MergeOne, NamesIn;
    if defs == [] {
      SeedNames(b, |b.variants|);
      assert b.variants[..|b.variants|] == b.variants;
    } else {
      var init, d := defs[..|defs| - 1], defs[|defs| - 1];
      ListOrder(b, init);
      MergedNames(b, MergeAll(b, init), d);
      var names := Listable(b, init);
      assert (names + [d.name])[..|names|] == names;
      assert Listable(b, defs) == names + (if Eligible(b, d) then [d.name] else []);
      assert names + [] == names;
      hide Listable;
    }
  }

  /** The definitions found, each where its name appears first. */
  ghost function Firsts(found: seq<Found>): seq<Definition> {
    if found == [] then []
    else
      var before, d := Firsts(found[..|found| - 1]), found[|found| - 1].def;
      if d.name in NamesOf(before) then before else before + [d]
  }

  lemma FirstsMore(found: seq<Found>, f: Found)
    ensures Firsts(found + [f]) ==
      if f.def.name in NamesOf(Firsts(found)) then Firsts(found) else Firsts(found) + [f.def]
  {
    assert (found + [f])[..|found|] == found;
  }

  lemma {:induction false} LoadedAreFirsts(found: seq<Found>, files: seq<File>, scope: Scope)
    ensures LoadFiles(Firsts(found), files, scope) == Firsts(found + FoundIn(files, scope))
  {
    hide Firsts, NamesOf;
    if files == [] {
      assert found + [] == found;
    } else {
      var init, f := files[..|files| - 1], files[|files| - 1];
      LoadedAreFirsts(found, init, scope);
      match f.parsed
      case None =>
        assert FoundIn(files, scope) == FoundIn(init, scope);
      case Some(d) =>
        var all := found + FoundIn(init, scope);
        FirstsMore(all, Found(f.stem, d.(scope := scope)));
        assert all + [Found(f.stem, d.(scope := scope))] == found + FoundIn(files, scope);
    }
  }

  /** Discovery lists the files in search order and keeps the first of every declared name. */
  lemma {:induction false} DiscoveredAreFirsts(dirs: seq<Directory>)
    ensures Discovered(dirs) == Firsts(Searched(dirs))
  {
    hide LoadFiles, FoundIn;
    if dirs != [] {
      var init, last := dirs[..|dirs| - 1], dirs[|dirs| - 1];
      DiscoveredAreFirsts(init);
      LoadedAreFirsts(Searched(init), last.files, last.scope);
    }
  }

  // ------------------------------------------------------------ who wins

  /** Project definitions beat all others, user-level ones beat bundled ones. */
  ghost predicate Outranks(x: Scope, y: Scope) {
    || (x == Project && y != Project)
    || (x == User && (y == Bundled || y == BuiltIn))
    || (x == Bundled && y == BuiltIn)
  }

  lemma MergeLast(b: Builtins, defs: seq<Definition>, d: Definition)
    ensures MergeAll(b, []) == Seed(b, |b.variants|)
    ensures MergeAll(b, defs + [d]) == MergeOne(b, MergeAll(b, defs), d)
  {
    hide MergeOne, Seed;
    assert (defs + [d])[..|defs|] == defs;
  }

  /** Of two definitions of one name the later one wins iff it outranks the earlier one. */
  lemma TwoOfOneName(b: Builtins, d: Definition, e: Definition)
    requires b.Valid() && d.name == e.name && d.scope != BuiltIn && e.scope != BuiltIn
    requires d.name !in b.variants
    ensures EntryOf(MergeAll(b, [d, e]), d.name) ==
      Some(UserEntry(b, if Outranks(e.scope, d.scope) then e else d))
  {
    hide EntryOf, MergeOne, Seed, UniqueEntries;
    MergeLast(b, [], d);
    MergeLast(b, [d], e);
    assert [] + [d] == [d] && [d] + [e] == [d, e];
    SeedIs(b, d.name);
    MergeOneEntry(b, Seed(b, |b.variants|), d, d.name);
    MergeOneEntry(b, MergeAll(b, [d]), e, d.name);
  }

  // ------------------------------------------------------------ fields

  /** The entry of a file in a directory of some scope. */
  ghost predicate FromFile(b: Builtins, scope: Scope, d: Definition, e: Entry) {
    && e.name == d.name && e.description == d.description && e.source == UserDefined(scope)
    && e.shadowsBuiltin == (if d.name in b.variants then Some(d.name) else None)
    && e.config == (match scope
                    case Project => FromProject(d.path)
                    case User => FromUser(d.path)
                    case Bundled => FromBuiltin
                    case BuiltIn => FromBuiltin)
  }

  /** The `i`-th file of the `k`-th directory parses and is the first that declares its name. */
  ghost predicate FirstToDeclare(dirs: seq<Directory>, k: nat, i: nat) {
    && k < |dirs| && i < |dirs[k].files| && dirs[k].files[i].parsed.Some?
    && (forall j | 0 <= j < i :: Other(dirs[k].files[j], dirs[k].files[i].parsed.value.name))
    && forall m | 0 <= m < k :: NoneDeclares(dirs[m], dirs[k].files[i].parsed.value.name)
  }

  ghost predicate Other(f: File, name: string) {
    f.parsed.Some? ==> f.parsed.value.name != name
  }

  ghost predicate NoneDeclares(dir: Directory, name: string) {
    forall j | 0 <= j < |dir.files| :: Other(dir.files[j], name)
  }

  lemma FoundLast(files: seq<File>, scope: Scope, name: string)
    requires files != []
    ensures var init, f := files[..|files| - 1], files[|files| - 1];
      FirstByName(FoundIn(files, scope), name) == OrElse(FirstByName(FoundIn(init, scope), name),
        if Other(f, name) then None else Some(f.parsed.value.(scope := scope)))
  {
    var init, f := files[..|files| - 1], files[|files| - 1];
    hide FirstByName;
    if f.parsed.Some? {
      FirstByNameMore(FoundIn(init, scope), Found(f.stem, f.parsed.value.(scope := scope)), name);
    } else {
      assert FoundIn(files, scope) == FoundIn(init, scope);
    }
  }

  lemma {:induction false} SomeDeclares(files: seq<File>, scope: Scope, name: string) returns (i: nat)
    requires FirstByName(FoundIn(files, scope), name).Some?
    ensures i < |files| && files[i].parsed.Some? && files[i].parsed.value.name == name
    ensures FirstByName(FoundIn(files, scope), name) == Some(files[i].parsed.value.(scope := scope))
    ensures forall j | 0 <= j < i :: Other(files[j], name)
  {
    if files == [] {
      NothingFound(name);
    } else {
      var init := files[..|files| - 1];
      FoundLast(files, scope, name);
      hide FirstByName, FoundIn;
      if FirstByName(FoundIn(init, scope), name).Some? {
        i := SomeDeclares(init, scope, name);
        assert forall j | 0 <= j < i :: files[j] == init[j];
      } else {
        NoOneDeclares(init, scope, name);
        i := |files| - 1;
        assert forall j | 0 <= j < i :: files[j] == init[j];
      }
    }
  }

  lemma {:induction false} NoOneDeclares(files: seq<File>, scope: Scope, name: string)
    requires FirstByName(FoundIn(files, scope), name).None?
    ensures forall j | 0 <= j < |files| :: Other(files[j], name)
  {
    if files != [] {
      var init := files[..|files| - 1];
      FoundLast(files, scope, name);
      hide FirstByName, FoundIn, Other;
      NoOneDeclares(init, scope, name);
      assert forall j | 0 <= j < |init| :: files[j] == init[j];
    }
  }

  lemma {:induction false} NowhereDeclared(dirs: seq<Directory>, name: string)
    requires FirstByName(Searched(dirs), name).None?
    ensures forall m | 0 <= m < |dirs| :: NoneDeclares(dirs[m], name)
  {
    hide FirstByName, FoundIn;
    if dirs != [] {
      var init, last := dirs[..|dirs| - 1], dirs[|dirs| - 1];
      FirstConcat(Searched(init), FoundIn(last.files, last.scope), name);
      NowhereDeclared(init, name);
      NoOneDeclares(last.files, last.scope, name);
    }
  }

  lemma {:induction false} DeclaredIn(dirs: seq<Directory>, name: string) returns (k: nat, i: nat)
    requires FirstByName(Searched(dirs), name).Some?
    ensures FirstToDeclare(dirs, k, i) && dirs[k].files[i].parsed.value.name == name
    ensures FirstByName(Searched(dirs), name) == Some(dirs[k].files[i].parsed.value.(scope := dirs[k].scope))
  {
    hide FirstByName, FoundIn;
    if dirs == [] {
      NothingFound(name);
    } else {
      var init, last := dirs[..|dirs| - 1], dirs[|dirs| - 1];
      FirstConcat(Searched(init), FoundIn(last.files, last.scope), name);
      if FirstByName(Searched(init), name).Some? {
        k, i := DeclaredIn(init, name);
      } else {
        NowhereDeclared(init, name);
        k := |dirs| - 1;
        i := SomeDeclares(last.files, last.scope, name);
      }
    }
  }

  /** Every listed entry is that of a built-in subagent, or that of the first file in search
      order to declare its name, with the description of the file, the scope of its directory
      and the path it came from. */
  lemma EntryFields(b: Builtins, dirs: seq<Directory>, e: Entry) returns (k: nat, i: nat)
    requires b.Valid() && e in MergeAll(b, Discovered(dirs))
    ensures e.source.Builtin? ==>
      e == Entry(e.name, b.describe(e.name), Builtin(e.name), None, FromBuiltin) && e.name in b.variants
    ensures e.source.UserDefined? ==>
      FirstToDeclare(dirs, k, i) && FromFile(b, dirs[k].scope, dirs[k].files[i].parsed.value, e)
  {
    var store := Store(dirs, []);
    assert store.All() == dirs;
    NoToggles(MergeAll(b, Discovered(dirs)));
    ShownEntry(b, store, map[], e);
    k, i := 0, 0;
    if e.source.UserDefined? {
      BothSearch(dirs, e.name);
      hide Discovered, MergeAll, DefinitionOf, FirstByName, Searched, FirstToDeclare, Eligible;
      k, i := DeclaredIn(dirs, e.name);
    }
  }
}

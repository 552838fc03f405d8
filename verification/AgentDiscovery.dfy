/** Discovery of agent definitions, the visible subagent list, and resolution by name. */
module AgentDiscovery {
  import opened Wrappers

  datatype Scope = Project | User | Bundled | BuiltIn

  datatype Definition = Definition(name: string, description: string, scope: Scope, path: string)

  /** An agent file: its stem and what parsing it yields, `None` if that fails. */
  datatype File = File(stem: string, parsed: Option<Definition>)

  /** A directory with the scope its definitions get; files in listing order. */
  datatype Directory = Directory(scope: Scope, files: seq<File>)

  /** Project directories from the working directory upwards, then the user-level ones. */
  datatype Store = Store(project: seq<Directory>, user: seq<Directory>) {
    function All(): seq<Directory> {
      project + user
    }
  }

  /** The built-in agent names, those offered as subagents, and their descriptions. */
  datatype Builtins = Builtins(names: seq<string>, variants: seq<string>, describe: string -> string) {
    function Define(name: string): Definition {
      Definition(name, describe(name), BuiltIn, "")
    }

    ghost predicate Valid() {
      && (forall n | n in variants :: n in names)
      && forall i, j | 0 <= i < j < |variants| :: variants[i] != variants[j]
    }
  }

  const BUILTIN_NAMES: seq<string> := [
    "ainxt-build", "ainxt-build-concise", "ainxt-build-plan", "ainxt-build-plan-no-subagents",
    "ainxt-build-ask-user", "codex", "opencode", "general-purpose", "explore", "plan",
    "browser-use", "ainxt-build-orchestrator"
  ]

  const SUBAGENT_VARIANTS: seq<string> := ["general-purpose", "explore", "plan"]

  lemma RealBuiltinsAreValid(describe: string -> string)
    ensures Builtins(BUILTIN_NAMES, SUBAGENT_VARIANTS, describe).Valid()
  {
    assert SUBAGENT_VARIANTS[0] == BUILTIN_NAMES[7];
    assert SUBAGENT_VARIANTS[1] == BUILTIN_NAMES[8];
    assert SUBAGENT_VARIANTS[2] == BUILTIN_NAMES[9];
    assert |SUBAGENT_VARIANTS[0]| == 15 && |SUBAGENT_VARIANTS[1]| == 7 && |SUBAGENT_VARIANTS[2]| == 4;
  }

  // ------------------------------------------------------------ discovery

  function NamesOf(defs: seq<Definition>): set<string> {
    set i | 0 <= i < |defs| :: defs[i].name
  }

  /** `load_definitions_from_dir` on values: the first definition of a name wins. */
  function LoadFiles(defs: seq<Definition>, files: seq<File>, scope: Scope): seq<Definition> {
    if files == [] then defs
    else
      var before := LoadFiles(defs, files[..|files| - 1], scope);
      match files[|files| - 1].parsed
      case None => before
      case Some(d) => if d.name in NamesOf(before) then before else before + [d.(scope := scope)]
  }

  function Discovered(dirs: seq<Directory>): seq<Definition> {
    if dirs == [] then []
    else LoadFiles(Discovered(dirs[..|dirs| - 1]), dirs[|dirs| - 1].files, dirs[|dirs| - 1].scope)
  }

  method LoadDefinitionsFromDir(dir: Directory, definitions: seq<Definition>, seenNames: set<string>)
    returns (defs: seq<Definition>, seen: set<string>)
    requires seenNames == NamesOf(definitions)
    ensures defs == LoadFiles(definitions, dir.files, dir.scope) && seen == NamesOf(defs)
  {
    defs, seen := definitions, seenNames;
    var i := 0;
    while i < |dir.files|
      invariant i <= |dir.files| && seen == NamesOf(defs)
      invariant defs == LoadFiles(definitions, dir.files[..i], dir.scope)
    {
      assert dir.files[..i + 1][..i] == dir.files[..i];
      match dir.files[i].parsed {
        case None =>
        case Some(d) =>
          if d.name !in seen {
            NamesOfMore(defs, d.(scope := dir.scope));
            seen := seen + {d.name};
            defs := defs + [d.(scope := dir.scope)];
          }
      }
      i := i + 1;
    }
    assert dir.files[..i] == dir.files;
  }

  lemma NamesOfMore(defs: seq<Definition>, d: Definition)
    ensures NamesOf(defs + [d]) == NamesOf(defs) + {d.name}
  {
    var more := defs + [d];
    forall n | n in NamesOf(defs) + {d.name} ensures n in NamesOf(more) {
      if n == d.name {
        assert more[|defs|].name == n;
      } else {
        var i :| 0 <= i < |defs| && defs[i].name == n;
        assert more[i].name == n;
      }
    }
  }

  method Discover(store: Store) returns (defs: seq<Definition>)
    ensures defs == Discovered(store.All())
  {
    hide LoadFiles;
    var seen: set<string>;
    defs, seen := [], {};
    var dirs := store.All();
    var i := 0;
    while i < |dirs|
      invariant i <= |dirs| && seen == NamesOf(defs) && defs == Discovered(dirs[..i])
    {
      assert dirs[..i + 1][..i] == dirs[..i];
      defs, seen := LoadDefinitionsFromDir(dirs[i], defs, seen);
      i := i + 1;
    }
    assert dirs[..i] == dirs;
  }

  // ------------------------------------------------------------ resolution by name

  /** The parsed file with the given stem. */
  function InDirectory(dir: Directory, name: string): Option<Definition> {
    FileNamed(dir.files, dir.scope, name)
  }

  function FileNamed(files: seq<File>, scope: Scope, name: string): Option<Definition> {
    if files == [] then None
    else
      match FileNamed(files[..|files| - 1], scope, name)
      case Some(d) => Some(d)
      case None =>
        var f := files[|files| - 1];
        if f.stem == name && f.parsed.Some? then Some(f.parsed.value.(scope := scope)) else None
  }

  /** The first directory that has the agent wins. */
  function FirstIn(dirs: seq<Directory>, name: string): Option<Definition> {
    if dirs == [] then None
    else
      match FirstIn(dirs[..|dirs| - 1], name)
      case Some(d) => Some(d)
      case None => InDirectory(dirs[|dirs| - 1], name)
  }

  /** `by_name_with_home`: built-ins before user-level and bundled files. */
  function ByName(b: Builtins, user: seq<Directory>, name: string): Option<Definition> {
    if name in b.names then Some(b.Define(name)) else FirstIn(user, name)
  }

  /** `by_name_in_cwd_with_home`: project files before everything. */
  function ByNameInCwd(b: Builtins, store: Store, name: string): Option<Definition> {
    match FirstIn(store.project, name)
    case Some(d) => Some(d)
    case None => ByName(b, store.user, name)
  }

  method LookUp(dirs: seq<Directory>, name: string) returns (r: Option<Definition>)
    ensures r == FirstIn(dirs, name)
  {
    hide InDirectory;
    var i := 0;
    while i < |dirs|
      invariant i <= |dirs| && FirstIn(dirs[..i], name) == None
    {
      assert dirs[..i + 1][..i] == dirs[..i];
      r := InDirectory(dirs[i], name);
      if r.Some? {
        FirstInPrefix(dirs, i + 1, name);
        return;
      }
      i := i + 1;
    }
    assert dirs[..i] == dirs;
    r := None;
  }

  lemma {:induction false} FirstInPrefix(dirs: seq<Directory>, n: nat, name: string)
    requires n <= |dirs| && FirstIn(dirs[..n], name).Some?
    ensures FirstIn(dirs, name) == FirstIn(dirs[..n], name)
    decreases |dirs|
  {
    if n == |dirs| {
      assert dirs[..n] == dirs;
    } else {
      assert dirs[..|dirs| - 1][..n] == dirs[..n];
      FirstInPrefix(dirs[..|dirs| - 1], n, name);
    }
  }

  lemma {:induction false} FirstInConcat(a: seq<Directory>, c: seq<Directory>, name: string)
    ensures FirstIn(a + c, name) == match FirstIn(a, name) case Some(d) => Some(d) case None => FirstIn(c, name)
  {
    hide InDirectory;
    if c == [] {
      assert a + c == a;
    } else {
      assert (a + c)[..|a + c| - 1] == a + c[..|c| - 1];
      FirstInConcat(a, c[..|c| - 1], name);
    }
  }

  // ------------------------------------------------------------ discovery agrees with lookup

  /** A parsed file, under the name of its file and with the definition in it. */
  datatype Found = Found(stem: string, def: Definition)

  function FoundIn(files: seq<File>, scope: Scope): seq<Found> {
    if files == [] then []
    else
      var f := files[|files| - 1];
      FoundIn(files[..|files| - 1], scope)
      + (match f.parsed case None => [] case Some(d) => [Found(f.stem, d.(scope := scope))])
  }

  /** All parsed files in search order. */
  function Searched(dirs: seq<Directory>): seq<Found> {
    if dirs == [] then []
    else Searched(dirs[..|dirs| - 1]) + FoundIn(dirs[|dirs| - 1].files, dirs[|dirs| - 1].scope)
  }

  function FirstByName(found: seq<Found>, name: string): Option<Definition> {
    if found == [] then None
    else
      var last := found[|found| - 1];
      OrElse(FirstByName(found[..|found| - 1], name), if last.def.name == name then Some(last.def) else None)
  }

  function FirstByStem(found: seq<Found>, stem: string): Option<Definition> {
    if found == [] then None
    else
      var last := found[|found| - 1];
      OrElse(FirstByStem(found[..|found| - 1], stem), if last.stem == stem then Some(last.def) else None)
  }

  lemma {:induction false} FirstConcat(a: seq<Found>, b: seq<Found>, name: string)
    ensures FirstByName(a + b, name) == OrElse(FirstByName(a, name), FirstByName(b, name))
    ensures FirstByStem(a + b, name) == OrElse(FirstByStem(a, name), FirstByStem(b, name))
  {
    if b == [] {
      assert a + b == a;
    } else {
      assert (a + b)[..|a + b| - 1] == a + b[..|b| - 1];
      FirstConcat(a, b[..|b| - 1], name);
    }
  }

  ghost predicate FirstOfName(found: seq<Found>, i: nat)
    requires i < |found|
  {
    forall j | 0 <= j < i :: found[j].def.name != found[i].def.name
  }

  ghost predicate FirstOfStem(found: seq<Found>, i: nat)
    requires i < |found|
  {
    forall j | 0 <= j < i :: found[j].stem != found[i].stem
  }

  lemma {:induction false} NameFound(found: seq<Found>, i: nat)
    requires i < |found| && FirstOfName(found, i)
    ensures FirstByName(found, found[i].def.name) == Some(found[i].def)
  {
    if i == |found| - 1 {
      NoneNamed(found[..i], found[i].def.name);
    } else {
      NameFound(found[..|found| - 1], i);
    }
  }

  lemma {:induction false} NoneNamed(found: seq<Found>, name: string)
    requires forall j | 0 <= j < |found| :: found[j].def.name != name
    ensures FirstByName(found, name) == None
  {
    if found != [] {
      NoneNamed(found[..|found| - 1], name);
    }
  }

  lemma {:induction false} StemFound(found: seq<Found>, i: nat)
    requires i < |found| && FirstOfStem(found, i)
    ensures FirstByStem(found, found[i].stem) == Some(found[i].def)
  {
    if i == |found| - 1 {
      NoStem(found[..i], found[i].stem);
    } else {
      StemFound(found[..|found| - 1], i);
    }
  }

  lemma {:induction false} NoStem(found: seq<Found>, stem: string)
    requires forall j | 0 <= j < |found| :: found[j].stem != stem
    ensures FirstByStem(found, stem) == None
  {
    if found != [] {
      NoStem(found[..|found| - 1], stem);
    }
  }

  lemma {:induction false} FirstNamed(found: seq<Found>, i: nat) returns (k: nat)
    requires i < |found|
    ensures k <= i && found[k].def.name == found[i].def.name && FirstOfName(found, k)
  {
    k := 0;
    while found[k].def.name != found[i].def.name
      invariant k <= i && forall j | 0 <= j < k :: found[j].def.name != found[i].def.name
      decreases i - k
    {
      k := k + 1;
    }
  }

  lemma {:induction false} FirstStemmed(found: seq<Found>, i: nat) returns (k: nat)
    requires i < |found|
    ensures k <= i && found[k].stem == found[i].stem && FirstOfStem(found, k)
  {
    k := 0;
    while found[k].stem != found[i].stem
      invariant k <= i && forall j | 0 <= j < k :: found[j].stem != found[i].stem
      decreases i - k
    {
      k := k + 1;
    }
  }

  /** A file decides if it is the first with its stem or the first with its declared name. Every
      deciding file is named after the agent it defines. */
  ghost predicate DecidingMatch(found: seq<Found>) {
    forall i | 0 <= i < |found| && (FirstOfName(found, i) || FirstOfStem(found, i)) :: found[i].stem == found[i].def.name
  }

  /** Different files, so different paths. */
  ghost predicate DistinctPaths(found: seq<Found>) {
    forall i, j | 0 <= i < j < |found| :: found[i].def.path != found[j].def.path
  }

  lemma DecidedStem(found: seq<Found>, i: nat) returns (k: nat)
    requires DecidingMatch(found) && i < |found|
    ensures k < |found| && found[k].def.name == found[i].stem
  {
    k := FirstStemmed(found, i);
  }

  /** When the deciding files match, both searches find the same. */
  lemma SearchesAgree(found: seq<Found>, name: string)
    requires DecidingMatch(found)
    ensures FirstByName(found, name) == FirstByStem(found, name)
  {
    if i :| 0 <= i < |found| && found[i].def.name == name {
      var k := FirstNamed(found, i);
      assert found[k].stem == name;
      var m := FirstStemmed(found, k);
      assert found[m].def.name == name && m == k;
      hide FirstByName, FirstByStem, DecidingMatch;
      NameFound(found, k);
      StemFound(found, k);
    } else {
      forall i | 0 <= i < |found| ensures found[i].stem != name {
        var k := DecidedStem(found, i);
      }
      hide FirstByName, FirstByStem, DecidingMatch;
      NoneNamed(found, name);
      NoStem(found, name);
    }
  }

  /** And only then. */
  lemma AgreeingMatch(found: seq<Found>)
    requires DistinctPaths(found) && forall name :: FirstByName(found, name) == FirstByStem(found, name)
    ensures DecidingMatch(found)
  {
    hide FirstByName, FirstByStem;
    forall i | 0 <= i < |found| && (FirstOfName(found, i) || FirstOfStem(found, i))
      ensures found[i].stem == found[i].def.name
    {
      if FirstOfName(found, i) {
        NameFound(found, i);
        var k := StemOrigin(found, found[i].def.name);
        assert k == i;
      } else {
        StemFound(found, i);
        var k := NameOrigin(found, found[i].stem);
        assert k == i;
      }
    }
  }

  lemma StemOrigin(found: seq<Found>, stem: string) returns (k: nat)
    requires FirstByStem(found, stem).Some?
    ensures k < |found| && found[k].stem == stem && FirstByStem(found, stem) == Some(found[k].def)
  {
    if i :| 0 <= i < |found| && found[i].stem == stem {
      k := FirstStemmed(found, i);
      StemFound(found, k);
    } else {
      NoStem(found, stem);
    }
  }

  lemma NameOrigin(found: seq<Found>, name: string) returns (k: nat)
    requires FirstByName(found, name).Some?
    ensures k < |found| && found[k].def.name == name && FirstByName(found, name) == Some(found[k].def)
  {
    if i :| 0 <= i < |found| && found[i].def.name == name {
      k := FirstNamed(found, i);
      NameFound(found, k);
    } else {
      NoneNamed(found, name);
    }
  }

  function DefinitionOf(defs: seq<Definition>, name: string): Option<Definition> {
    if defs == [] then None
    else
      match DefinitionOf(defs[..|defs| - 1], name)
      case Some(d) => Some(d)
      case None => if defs[|defs| - 1].name == name then Some(defs[|defs| - 1]) else None
  }

  lemma {:induction false} DefinitionIn(defs: seq<Definition>, name: string)
    ensures DefinitionOf(defs, name).Some? <==> name in NamesOf(defs)
    ensures DefinitionOf(defs, name).Some? ==> DefinitionOf(defs, name).value in defs && DefinitionOf(defs, name).value.name == name
  {
    if defs != [] {
      DefinitionIn(defs[..|defs| - 1], name);
      assert defs == defs[..|defs| - 1] + [defs[|defs| - 1]];
      NamesOfMore(defs[..|defs| - 1], defs[|defs| - 1]);
    }
  }

  lemma {:induction false} LoadFinds(defs: seq<Definition>, files: seq<File>, scope: Scope, name: string)
    ensures DefinitionOf(LoadFiles(defs, files, scope), name) ==
      OrElse(DefinitionOf(defs, name), FirstByName(FoundIn(files, scope), name))
  {
    if files != [] {
      var init, f := files[..|files| - 1], files[|files| - 1];
      var before := LoadFiles(defs, init, scope);
      hide NamesOf, DefinitionOf;
      LoadFinds(defs, init, scope, name);
      match f.parsed
      case None =>
        assert FoundIn(files, scope) == FoundIn(init, scope);
      case Some(d) =>
        DefinitionIn(before, d.name);
        DefinitionIn(before, name);
        DefinitionOfMore(before, d.(scope := scope), name);
        FirstByNameMore(FoundIn(init, scope), Found(f.stem, d.(scope := scope)), name);
        hide FirstByName;
    }
  }

  lemma FirstByNameMore(found: seq<Found>, f: Found, name: string)
    ensures FirstByName(found + [f], name) == OrElse(FirstByName(found, name), if f.def.name == name then Some(f.def) else None)
    ensures FirstByStem(found + [f], name) == OrElse(FirstByStem(found, name), if f.stem == name then Some(f.def) else None)
  {
    assert (found + [f])[..|found|] == found;
  }

  lemma {:induction false} FileNamedIs(files: seq<File>, scope: Scope, name: string)
    ensures FileNamed(files, scope, name) == FirstByStem(FoundIn(files, scope), name)
  {
    if files != [] {
      var init, f := files[..|files| - 1], files[|files| - 1];
      FileNamedIs(init, scope, name);
      match f.parsed
      case None =>
        assert FoundIn(files, scope) == FoundIn(init, scope);
      case Some(d) =>
        FirstByNameMore(FoundIn(init, scope), Found(f.stem, d.(scope := scope)), name);
        hide FirstByStem;
    }
  }

  function OrElse(a: Option<Definition>, b: Option<Definition>): Option<Definition> {
    if a.Some? then a else b
  }

  lemma DefinitionOfMore(defs: seq<Definition>, d: Definition, name: string)
    ensures DefinitionOf(defs + [d], name) ==
      match DefinitionOf(defs, name) case Some(x) => Some(x) case None => if d.name == name then Some(d) else None
  {
    assert (defs + [d])[..|defs|] == defs;
  }

  /** Discovery keeps the first definition of every declared name, the lookup finds the first
      file of every stem. */
  lemma {:induction false} BothSearch(dirs: seq<Directory>, name: string)
    ensures DefinitionOf(Discovered(dirs), name) == FirstByName(Searched(dirs), name)
    ensures FirstIn(dirs, name) == FirstByStem(Searched(dirs), name)
  {
    hide LoadFiles, FileNamed, FirstByName, FirstByStem, FoundIn, DefinitionOf;
    if dirs == [] {
      NothingFound(name);
    } else {
      var init, last := dirs[..|dirs| - 1], dirs[|dirs| - 1];
      BothSearch(init, name);
      LoadFinds(Discovered(init), last.files, last.scope, name);
      FileNamedIs(last.files, last.scope, name);
      FirstConcat(Searched(init), FoundIn(last.files, last.scope), name);
    }
  }

  lemma NothingFound(name: string)
    ensures DefinitionOf([], name) == FirstByName([], name) == FirstByStem([], name) == None
  {
  }

  /** Discovery keeps, for every name, exactly the definition that the lookup finds, when every
      deciding file is named after its agent. */
  lemma DiscoveryFinds(dirs: seq<Directory>, name: string)
    requires DecidingMatch(Searched(dirs))
    ensures DefinitionOf(Discovered(dirs), name) == FirstIn(dirs, name)
  {
    hide Searched, FirstByName, FirstByStem, DecidingMatch;
    BothSearch(dirs, name);
    SearchesAgree(Searched(dirs), name);
  }

  ghost predicate FindsSame(dirs: seq<Directory>, name: string) {
    DefinitionOf(Discovered(dirs), name) == FirstIn(dirs, name)
  }

  /** And for different files it is so for all names only then. */
  lemma DiscoveryFindsIff(dirs: seq<Directory>)
    requires DistinctPaths(Searched(dirs))
    ensures (forall name :: FindsSame(dirs, name)) <==> DecidingMatch(Searched(dirs))
  {
    hide Searched, FirstByName, FirstByStem, DecidingMatch, DistinctPaths, Discovered, DefinitionOf, FirstIn;
    if DecidingMatch(Searched(dirs)) {
      forall name ensures FindsSame(dirs, name) {
        DiscoveryFinds(dirs, name);
      }
    }
    if forall name :: FindsSame(dirs, name) {
      forall name ensures FirstByName(Searched(dirs), name) == FirstByStem(Searched(dirs), name) {
        assert FindsSame(dirs, name);
        BothSearch(dirs, name);
      }
      AgreeingMatch(Searched(dirs));
    }
  }

  ghost predicate UniqueNames(defs: seq<Definition>) {
    forall i, j | 0 <= i < j < |defs| :: defs[i].name != defs[j].name
  }

  lemma {:induction false} LoadKeepsUnique(defs: seq<Definition>, files: seq<File>, scope: Scope)
    requires UniqueNames(defs)
    ensures UniqueNames(LoadFiles(defs, files, scope))
  {
    if files != [] {
      LoadKeepsUnique(defs, files[..|files| - 1], scope);
    }
  }

  lemma {:induction false} DiscoveryIsUnique(dirs: seq<Directory>)
    ensures UniqueNames(Discovered(dirs))
  {
    hide LoadFiles;
    if dirs != [] {
      DiscoveryIsUnique(dirs[..|dirs| - 1]);
      LoadKeepsUnique(Discovered(dirs[..|dirs| - 1]), dirs[|dirs| - 1].files, dirs[|dirs| - 1].scope);
    }
  }

  // ------------------------------------------------------------ the visible list

  datatype Source = Builtin(name: string) | UserDefined(scope: Scope)

  datatype ConfigSource = FromProject(path: string) | FromUser(path: string) | FromBuiltin

  datatype Entry = Entry(
    name: string,
    description: string,
    source: Source,
    shadowsBuiltin: Option<string>,
    config: ConfigSource)

  function Priority(scope: Scope): nat {
    match scope case Project => 3 case User => 2 case Bundled => 1 case BuiltIn => 0
  }

  /** `source_from_agent_def`, for definitions that come from no plugin. */
  function ConfigOf(d: Definition): ConfigSource {
    match d.scope
    case Project => FromProject(d.path)
    case User => FromUser(d.path)
    case _ => FromBuiltin
  }

  function BuiltinEntry(b: Builtins, name: string): Entry {
    Entry(name, b.describe(name), Builtin(name), None, FromBuiltin)
  }

  function UserEntry(b: Builtins, d: Definition): Entry {
    Entry(d.name, d.description, UserDefined(d.scope), if d.name in b.variants then Some(d.name) else None, ConfigOf(d))
  }

  /** May the definition appear in the list? Only project files may replace a built-in subagent. */
  predicate Eligible(b: Builtins, d: Definition) {
    d.scope != BuiltIn && (d.name in b.variants ==> d.scope == Project)
  }

  function Seed(b: Builtins, n: nat): seq<Entry>
    requires n <= |b.variants|
  {
    if n == 0 then [] else Seed(b, n - 1) + [BuiltinEntry(b, b.variants[n - 1])]
  }

  function Position(entries: seq<Entry>, name: string): (r: Option<nat>)
    ensures r.Some? ==> r.value < |entries| && entries[r.value].name == name
    ensures r.Some? ==> forall i | 0 <= i < r.value :: entries[i].name != name
    ensures r.None? ==> forall i | 0 <= i < |entries| :: entries[i].name != name
  {
    if entries == [] then None
    else if entries[0].name == name then Some(0)
    else
      match Position(entries[1..], name)
      case None => None
      case Some(i) => Some(i + 1)
  }

  predicate Replaces(d: Definition, e: Entry) {
    match e.source
    case Builtin(_) => true
    case UserDefined(scope) => Priority(d.scope) > Priority(scope)
  }

  function MergeOne(b: Builtins, entries: seq<Entry>, d: Definition): seq<Entry> {
    if !Eligible(b, d) then entries
    else
      match Position(entries, d.name)
      case None => entries + [UserEntry(b, d)]
      case Some(i) => if Replaces(d, entries[i]) then entries[i := UserEntry(b, d)] else entries
  }

  function MergeAll(b: Builtins, defs: seq<Definition>): seq<Entry> {
    if defs == [] then Seed(b, |b.variants|)
    else MergeOne(b, MergeAll(b, defs[..|defs| - 1]), defs[|defs| - 1])
  }

  predicate Enabled(toggle: map<string, bool>, name: string) {
    name in toggle ==> toggle[name]
  }

  function EnabledOnly(entries: seq<Entry>, toggle: map<string, bool>): seq<Entry> {
    if entries == [] then []
    else
      var last := entries[|entries| - 1];
      EnabledOnly(entries[..|entries| - 1], toggle) + (if Enabled(toggle, last.name) then [last] else [])
  }

  /** `merge_subagents`. */
  method MergeSubagents(b: Builtins, discovered: seq<Definition>, toggle: map<string, bool>) returns (r: seq<Entry>)
    ensures r == EnabledOnly(MergeAll(b, discovered), toggle)
  {
    hide UserEntry, Position, Eligible;
    var entries := SeedEntries(b);
    var i := 0;
    while i < |discovered|
      invariant i <= |discovered| && entries == MergeAll(b, discovered[..i])
    {
      assert discovered[..i + 1][..i] == discovered[..i];
      var d := discovered[i];
      if Eligible(b, d) {
        var pos := Position(entries, d.name);
        if pos.None? {
          entries := entries + [UserEntry(b, d)];
        } else if Replaces(d, entries[pos.value]) {
          entries := entries[pos.value := UserEntry(b, d)];
        }
      }
      i := i + 1;
    }
    assert discovered[..i] == discovered;
    r := FilterEnabled(entries, toggle);
  }

  method SeedEntries(b: Builtins) returns (entries: seq<Entry>)
    ensures entries == Seed(b, |b.variants|)
  {
    entries := [];
    var i := 0;
    while i < |b.variants|
      invariant i <= |b.variants| && entries == Seed(b, i)
    {
      entries := entries + [BuiltinEntry(b, b.variants[i])];
      i := i + 1;
    }
  }

  method FilterEnabled(entries: seq<Entry>, toggle: map<string, bool>) returns (r: seq<Entry>)
    ensures r == EnabledOnly(entries, toggle)
  {
    r := [];
    var i := 0;
    while i < |entries|
      invariant i <= |entries| && r == EnabledOnly(entries[..i], toggle)
    {
      assert entries[..i + 1][..i] == entries[..i];
      if Enabled(toggle, entries[i].name) {
        r := r + [entries[i]];
      }
      i := i + 1;
    }
    assert entries[..i] == entries;
  }

  // ------------------------------------------------------------ what the list holds

  function EntryOf(entries: seq<Entry>, name: string): Option<Entry> {
    match Position(entries, name) case None => None case Some(i) => Some(entries[i])
  }

  ghost predicate UniqueEntries(entries: seq<Entry>) {
    forall i, j | 0 <= i < j < |entries| :: entries[i].name != entries[j].name
  }

  /** `defs[i]` is the definition of `name` with the highest priority, the earliest of those. */
  ghost predicate IsWinner(b: Builtins, defs: seq<Definition>, name: string, i: nat)
    requires i < |defs|
  {
    && Eligible(b, defs[i]) && defs[i].name == name
    && forall j | 0 <= j < |defs| && Eligible(b, defs[j]) && defs[j].name == name ::
         Priority(defs[j].scope) < Priority(defs[i].scope) || (Priority(defs[j].scope) == Priority(defs[i].scope) && i <= j)
  }

  ghost predicate NoCandidate(b: Builtins, defs: seq<Definition>, name: string) {
    forall j | 0 <= j < |defs| :: !(Eligible(b, defs[j]) && defs[j].name == name)
  }

  lemma {:induction false} SeedHolds(b: Builtins, n: nat)
    requires b.Valid() && n <= |b.variants|
    ensures |Seed(b, n)| == n && forall i | 0 <= i < n :: Seed(b, n)[i] == BuiltinEntry(b, b.variants[i])
  {
    if n > 0 {
      SeedHolds(b, n - 1);
    }
  }

  lemma SeedIs(b: Builtins, name: string)
    requires b.Valid()
    ensures var s := Seed(b, |b.variants|);
      UniqueEntries(s) && EntryOf(s, name) == if name in b.variants then Some(BuiltinEntry(b, name)) else None
  {
    SeedHolds(b, |b.variants|);
    var s := Seed(b, |b.variants|);
    if name in b.variants {
      var i :| 0 <= i < |b.variants| && b.variants[i] == name;
      assert s[i].name == name;
    }
  }

  lemma EntryAt(entries: seq<Entry>, i: nat)
    requires UniqueEntries(entries) && i < |entries|
    ensures EntryOf(entries, entries[i].name) == Some(entries[i])
  {
  }

  lemma MergeOneEntry(b: Builtins, entries: seq<Entry>, d: Definition, name: string)
    requires UniqueEntries(entries)
    ensures var merged := MergeOne(b, entries, d);
      && UniqueEntries(merged)
      && EntryOf(merged, name) ==
        if !Eligible(b, d) || d.name != name then EntryOf(entries, name)
        else
          match EntryOf(entries, name)
          case None => Some(UserEntry(b, d))
          case Some(e) => if Replaces(d, e) then Some(UserEntry(b, d)) else Some(e)
  {
    hide Eligible, Replaces;
    var merged := MergeOne(b, entries, d);
    match Position(entries, d.name) {
      case None =>
        if Eligible(b, d) {
          assert forall i | 0 <= i < |entries| :: merged[i] == entries[i];
          assert merged[|entries|].name == d.name;
        }
      case Some(i) =>
        assert forall k | 0 <= k < |entries| :: merged[k].name == entries[k].name;
    }
    SameName(entries, merged, name);
  }

  /** Lists of unique names are compared position by position. */
  lemma SameName(entries: seq<Entry>, merged: seq<Entry>, name: string)
    requires |entries| <= |merged| && forall k | 0 <= k < |entries| :: merged[k].name == entries[k].name
    ensures Position(entries, name).Some? ==> Position(merged, name) == Position(entries, name)
  {
  }

  lemma WinnerStep(b: Builtins, init: seq<Definition>, d: Definition, name: string, i: nat)
    requires i < |init| && IsWinner(b, init, name, i)
    ensures var defs := init + [d];
      if Eligible(b, d) && d.name == name && Priority(d.scope) > Priority(init[i].scope)
      then IsWinner(b, defs, name, |init|)
      else IsWinner(b, defs, name, i)
  {
    hide Eligible, Priority;
    var defs := init + [d];
    assert forall j | 0 <= j < |init| :: init[j] == defs[j];
  }

  lemma FirstWinner(b: Builtins, init: seq<Definition>, d: Definition, name: string)
    requires NoCandidate(b, init, name)
    ensures var defs := init + [d];
      if Eligible(b, d) && d.name == name then IsWinner(b, defs, name, |init|) else NoCandidate(b, defs, name)
  {
    hide Eligible, Priority;
    var defs := init + [d];
    assert forall j | 0 <= j < |init| :: init[j] == defs[j];
  }

  /** For any list of definitions: names are unique, each is held by the highest-priority
      earliest eligible definition, and by the built-in only if there is none. */
  lemma {:induction false} MergeHolds(b: Builtins, defs: seq<Definition>, name: string)
    requires b.Valid()
    ensures var merged := MergeAll(b, defs);
      && UniqueEntries(merged)
      && (NoCandidate(b, defs, name) ==>
            EntryOf(merged, name) == if name in b.variants then Some(BuiltinEntry(b, name)) else None)
      && (!NoCandidate(b, defs, name) ==>
            exists i | 0 <= i < |defs| :: IsWinner(b, defs, name, i) && EntryOf(merged, name) == Some(UserEntry(b, defs[i])))
  {
    hide Seed, EntryOf, Position, UniqueEntries, Eligible;
    if defs == [] {
      SeedIs(b, name);
    } else {
      var init, d := defs[..|defs| - 1], defs[|defs| - 1];
      assert defs == init + [d];
      MergeHolds(b, init, name);
      MergeOneEntry(b, MergeAll(b, init), d, name);
      hide MergeOne;
      if NoCandidate(b, init, name) {
        FirstWinner(b, init, d, name);
        hide NoCandidate, IsWinner;
      } else {
        var i :| 0 <= i < |init| && IsWinner(b, init, name, i) && EntryOf(MergeAll(b, init), name) == Some(UserEntry(b, init[i]));
        WinnerStep(b, init, d, name, i);
        assert Eligible(b, init[i]) && init[i].name == name && defs[i] == init[i];
        assert !NoCandidate(b, defs, name);
        hide NoCandidate, IsWinner;
      }
    }
  }

  // ------------------------------------------------------------ visible and callable

  /** Project directories and user-level ones have the scopes that discovery gives them. */
  ghost predicate WellScoped(store: Store) {
    && (forall k | 0 <= k < |store.project| :: store.project[k].scope == Project)
    && (forall k | 0 <= k < |store.user| :: store.user[k].scope == User || store.user[k].scope == Bundled)
  }

  lemma {:induction false} FileNamedScope(files: seq<File>, scope: Scope, name: string)
    ensures var r := FileNamed(files, scope, name); r.Some? ==> r.value.scope == scope
  {
    if files != [] {
      FileNamedScope(files[..|files| - 1], scope, name);
    }
  }

  lemma {:induction false} FirstInScope(dirs: seq<Directory>, name: string)
    ensures var r := FirstIn(dirs, name);
      r.Some? ==> exists k | 0 <= k < |dirs| :: dirs[k].scope == r.value.scope
  {
    hide FileNamed;
    if dirs != [] {
      var init, last := dirs[..|dirs| - 1], dirs[|dirs| - 1];
      FirstInScope(init, name);
      FileNamedScope(last.files, last.scope, name);
      assert forall k | 0 <= k < |init| :: init[k] == dirs[k];
    }
  }

  /** The one definition that discovery keeps for a name decides the entry. */
  lemma UniqueCandidate(b: Builtins, defs: seq<Definition>, name: string)
    requires b.Valid() && UniqueNames(defs)
    ensures EntryOf(MergeAll(b, defs), name) ==
      match DefinitionOf(defs, name)
      case Some(d) =>
        if Eligible(b, d) then Some(UserEntry(b, d))
        else if name in b.variants then Some(BuiltinEntry(b, name)) else None
      case None => if name in b.variants then Some(BuiltinEntry(b, name)) else None
  {
    hide Eligible, EntryOf, MergeAll, UserEntry, DefinitionOf;
    MergeHolds(b, defs, name);
    DefinitionIn(defs, name);
    if NoCandidate(b, defs, name) {
      if DefinitionOf(defs, name).Some? {
        var j :| 0 <= j < |defs| && defs[j] == DefinitionOf(defs, name).value;
      }
    } else {
      var i :| 0 <= i < |defs| && IsWinner(b, defs, name, i) && EntryOf(MergeAll(b, defs), name) == Some(UserEntry(b, defs[i]));
      assert defs[i].name in NamesOf(defs);
      var j :| 0 <= j < |defs| && defs[j] == DefinitionOf(defs, name).value;
    }
  }

  /** What the list shows for a name, in terms of the two searches behind resolution. */
  lemma ShownFor(b: Builtins, store: Store, name: string)
    requires b.Valid() && WellScoped(store) && DecidingMatch(Searched(store.All()))
    ensures EntryOf(MergeAll(b, Discovered(store.All())), name) ==
      match FirstIn(store.project, name)
      case Some(d) => Some(UserEntry(b, d))
      case None =>
        if name in b.variants then Some(BuiltinEntry(b, name))
        else match FirstIn(store.user, name) case Some(d) => Some(UserEntry(b, d)) case None => None
  {
    var dirs := store.All();
    DiscoveryIsUnique(dirs);
    DiscoveryFinds(dirs, name);
    UniqueCandidate(b, Discovered(dirs), name);
    FirstInConcat(store.project, store.user, name);
    FirstInScope(store.project, name);
    FirstInScope(store.user, name);
    DefinitionIn(Discovered(dirs), name);
    hide FirstIn, Discovered, MergeAll, EntryOf, UserEntry, DefinitionOf, NamesOf;
  }

  /** Resolving the shown name yields the shown agent. */
  ghost predicate Resolves(b: Builtins, store: Store, e: Entry) {
    match ByNameInCwd(b, store, e.name)
    case None => false
    case Some(d) => e == if d.scope == BuiltIn then BuiltinEntry(b, e.name) else UserEntry(b, d)
  }

  lemma {:induction false} EnabledHolds(entries: seq<Entry>, toggle: map<string, bool>, e: Entry)
    ensures e in EnabledOnly(entries, toggle) <==> e in entries && Enabled(toggle, e.name)
  {
    if entries != [] {
      EnabledHolds(entries[..|entries| - 1], toggle, e);
      assert entries == entries[..|entries| - 1] + [entries[|entries| - 1]];
    }
  }

  /** Every shown entry is a built-in subagent's or comes from the first file, in search order,
      that declares its name. */
  lemma ShownEntry(b: Builtins, store: Store, toggle: map<string, bool>, e: Entry)
    requires b.Valid()
    requires e in EnabledOnly(MergeAll(b, Discovered(store.All())), toggle)
    ensures Enabled(toggle, e.name)
    ensures e.source.Builtin? ==>
      var d := DefinitionOf(Discovered(store.All()), e.name);
      e == BuiltinEntry(b, e.name) && e.name in b.variants && (d.Some? ==> !Eligible(b, d.value))
    ensures e.source.UserDefined? ==>
      var d := DefinitionOf(Discovered(store.All()), e.name);
      d.Some? && Eligible(b, d.value) && e == UserEntry(b, d.value)
  {
    var defs := Discovered(store.All());
    var entries := MergeAll(b, defs);
    EnabledHolds(entries, toggle, e);
    MergeHolds(b, defs, e.name);
    var i :| 0 <= i < |entries| && entries[i] == e;
    EntryAt(entries, i);
    DiscoveryIsUnique(store.All());
    UniqueCandidate(b, defs, e.name);
    hide DefinitionOf, Discovered, MergeAll, EntryOf, IsWinner, NoCandidate, UniqueEntries, EnabledOnly, Eligible;
  }

  /** For every store, whatever its files are called: a shown built-in resolves to itself unless
      a project file has its name as stem; a shown file resolves to itself iff it is what the
      search by stem finds and, outside the project, no built-in has its name. */
  lemma ResolvesIff(b: Builtins, store: Store, toggle: map<string, bool>, e: Entry)
    requires b.Valid() && WellScoped(store)
    requires e in EnabledOnly(MergeAll(b, Discovered(store.All())), toggle)
    ensures e.source.Builtin? ==> (Resolves(b, store, e) <==> FirstIn(store.project, e.name).None?)
    ensures e.source.UserDefined? ==>
      var d := FirstIn(store.All(), e.name);
      (Resolves(b, store, e) <==>
        d.Some? && UserEntry(b, d.value) == e && (e.source.scope == Project || e.name !in b.names))
  {
    ShownEntry(b, store, toggle, e);
    FirstInConcat(store.project, store.user, e.name);
    FirstInScope(store.project, e.name);
    FirstInScope(store.user, e.name);
    hide FirstIn, Discovered, MergeAll, EnabledOnly, DefinitionOf;
  }

  /** When the deciding files are named after their agents, visible means callable, except for a
      file outside the project that is named after a built-in: the list shows the file,
      resolution returns the built-in. */
  lemma VisibleIffCallable(b: Builtins, store: Store, toggle: map<string, bool>, e: Entry)
    requires b.Valid() && WellScoped(store) && DecidingMatch(Searched(store.All()))
    requires e in EnabledOnly(MergeAll(b, Discovered(store.All())), toggle)
    ensures Enabled(toggle, e.name)
    ensures Resolves(b, store, e) <==> !(e.source.UserDefined? && e.source.scope != Project && e.name in b.names)
  {
    ShownEntry(b, store, toggle, e);
    ResolvesIff(b, store, toggle, e);
    DiscoveryFinds(store.All(), e.name);
    FirstInConcat(store.project, store.user, e.name);
    FirstInScope(store.project, e.name);
    hide FirstIn, Discovered, MergeAll, EnabledOnly, DefinitionOf, Resolves, Searched, DecidingMatch;
  }

  /** Callable means visible, but for the built-ins that are no subagents. */
  lemma CallableIsShown(b: Builtins, store: Store, name: string)
    requires b.Valid() && WellScoped(store) && DecidingMatch(Searched(store.All()))
    ensures EntryOf(MergeAll(b, Discovered(store.All())), name).None? <==>
      name !in b.variants && FirstIn(store.project, name).None? && FirstIn(store.user, name).None?
    ensures EntryOf(MergeAll(b, Discovered(store.All())), name).None? ==>
      ByNameInCwd(b, store, name).None? || name in b.names
  {
    hide FirstIn, Discovered, MergeAll, EntryOf, UserEntry;
    ShownFor(b, store, name);
  }

  /** The exception is real: a user-level file named like a built-in that is no subagent. */
  lemma ShownButNotCallable(describe: string -> string)
    ensures var b := Builtins(BUILTIN_NAMES, SUBAGENT_VARIANTS, describe);
      var store := Store([], [Directory(User, [File("codex", Some(Definition("codex", "mine", User, "codex.md")))])]);
      exists e | e in MergeAll(b, Discovered(store.All())) :: !Resolves(b, store, e)
  {
    var b := Builtins(BUILTIN_NAMES, SUBAGENT_VARIANTS, describe);
    RealBuiltinsAreValid(describe);
    var d := Definition("codex", "mine", User, "codex.md");
    assert BUILTIN_NAMES[5] == "codex" && d.name in b.names;
    assert d.name !in b.variants by {
      assert |SUBAGENT_VARIANTS[0]| == 15 && |SUBAGENT_VARIANTS[1]| == 7 && |SUBAGENT_VARIANTS[2]| == 4;
    }
    NotCallable(b, d);
    hide MergeAll, Discovered, Resolves;
    assert UserEntry(b, d) in MergeAll(b, Discovered(OneFile("codex", d).All()));
  }

  /** And so is the condition on the names: a project file `a.md` that declares another agent is
      shown under that name and does not resolve by it. */
  lemma MisnamedNotCallable(b: Builtins, stem: string, d: Definition)
    requires b.Valid() && d.scope == Project && stem != d.name
    ensures var store := OneFile(stem, d);
      && !DecidingMatch(Searched(store.All())) && DistinctPaths(Searched(store.All()))
      && UserEntry(b, d) in MergeAll(b, Discovered(store.All())) && !Resolves(b, store, UserEntry(b, d))
  {
    var store := OneFile(stem, d);
    OneFileSearch(stem, d);
    assert FirstOfName([Found(stem, d)], 0);
    assert FirstIn(store.project, d.name) == None by {
      assert store.project == store.All();
    }
    assert FirstIn(store.user, d.name) == None;
    OneFileShown(b, stem, d);
    hide FirstIn, MergeAll, Discovered, Searched;
  }

  function OneFile(stem: string, d: Definition): Store {
    var dirs := [Directory(d.scope, [File(stem, Some(d))])];
    if d.scope == Project then Store(dirs, []) else Store([], dirs)
  }

  lemma OneFileSearch(stem: string, d: Definition)
    ensures var dirs := OneFile(stem, d).All();
      && Searched(dirs) == [Found(stem, d)]
      && FirstIn(dirs, d.name) == (if stem == d.name then Some(d) else None)
      && DefinitionOf(Discovered(dirs), d.name) == Some(d)
  {
    var dirs := OneFile(stem, d).All();
    OneFileFound(stem, d);
    assert [Found(stem, d)][..0] == [];
    hide FirstIn, Discovered, DefinitionOf, Searched, FoundIn;
    BothSearch(dirs, d.name);
  }

  lemma OneFileFound(stem: string, d: Definition)
    ensures Searched(OneFile(stem, d).All()) == [Found(stem, d)]
  {
    var files := [File(stem, Some(d))];
    var dir := Directory(d.scope, files);
    assert OneFile(stem, d).All() == [dir];
    assert [dir][..0] == [] && files[..0] == [];
    assert FoundIn(files, d.scope) == [Found(stem, d)];
  }

  lemma OneFileShown(b: Builtins, stem: string, d: Definition)
    requires b.Valid() && Eligible(b, d)
    ensures UserEntry(b, d) in MergeAll(b, Discovered(OneFile(stem, d).All()))
  {
    var dirs := OneFile(stem, d).All();
    OneFileSearch(stem, d);
    DiscoveryIsUnique(dirs);
    UniqueCandidate(b, Discovered(dirs), d.name);
    var entries := MergeAll(b, Discovered(dirs));
    hide MergeAll, Discovered, DefinitionOf;
    assert entries[Position(entries, d.name).value] == UserEntry(b, d);
  }

  lemma NotCallable(b: Builtins, d: Definition)
    requires b.Valid() && d.scope == User && d.name in b.names && d.name !in b.variants
    ensures UserEntry(b, d) in MergeAll(b, Discovered(OneFile(d.name, d).All()))
    ensures !Resolves(b, OneFile(d.name, d), UserEntry(b, d))
  {
    OneFileShown(b, d.name, d);
    assert FirstIn(OneFile(d.name, d).project, d.name) == None;
    hide MergeAll, Discovered, FirstIn;
  }
}

// What migrating a configuration writes and reports, said of the configuration given: which
// places are filled in, which are left alone, and that nothing present is overwritten.
module MigrationEffect {
  import opened Options
  import opened ConfigSchema
  import opened ConfigMigration

  // ---------- The keys are distinct ----------

  function CoreIndexOf(key: Name): int {
    match key
    case ModelSettings => 0
    case CommitDocs => 1
    case SearchGitignored => 2
    case BranchingStrategy => 3
    case PhaseBranchTemplate => 4
    case MilestoneBranchTemplate => 5
    case Research => 6
    case PlanChecker => 7
    case Verifier => 8
    case Parallelization => 9
    case BraveSearch => 10
    case Mode => 11
    case Depth => 12
    case TestCommands => 13
    case TestGate => 14
    case ContextWindow => 15
    case ContextTargetPercent => 16
    case Runtime => 17
    case _ => -1
  }

  function SectionIndexOf(key: Name): int {
    match key
    case WorkspaceBasePath => 0
    case WorkspaceMaxConcurrent => 1
    case RagEnabled => 2
    case RagTimeout => 3
    case YtdlpPath => 4
    case NlmPath => 5
    case McpConfigPath => 6
    case Optimization => 7
    case OptimizationValibot => 8
    case OptimizationDiscovery => 9
    case OptimizationCompileCache => 10
    case OptimizationSqliteCache => 11
    case ToolsRipgrep => 12
    case ToolsFd => 13
    case ToolsJq => 14
    case ToolsYq => 15
    case ToolsAstGrep => 16
    case ToolsSd => 17
    case ToolsHyperfine => 18
    case ToolsBat => 19
    case ToolsGh => 20
    case _ => -1
  }

  function IndexOf(key: Name): int {
    if CoreIndexOf(key) >= 0 then CoreIndexOf(key) else |CORE_KEYS| + SectionIndexOf(key)
  }

  lemma {:induction false} CoreIndex(i: nat)
    requires i < |CORE_KEYS|
    ensures CoreIndexOf(CORE_KEYS[i]) == i && !IsFlag(CORE_KEYS[i])
  {
  }

  lemma {:induction false} SectionIndex(i: nat)
    requires i < |SECTION_KEYS|
    ensures SectionIndexOf(SECTION_KEYS[i]) == i && CoreIndexOf(SECTION_KEYS[i]) == -1
  {
  }

  lemma {:induction false} FlagsFollow(i: nat)
    requires i < |SECTION_KEYS| && IsFlag(SECTION_KEYS[i])
    ensures 7 < i
  {
  }

  lemma {:induction false} IndexOfKey(i: nat)
    requires i < |KEYS|
    ensures IndexOf(KEYS[i]) == i
    ensures IsFlag(KEYS[i]) ==> 25 < i
  {
    hide CoreIndexOf, SectionIndexOf, IsFlag;
    var n := |CORE_KEYS|;
    if i < n {
      CoreIndex(i);
    } else {
      SectionIndex(i - n);
      if IsFlag(KEYS[i]) {
        FlagsFollow(i - n);
      }
    }
  }

  // No key comes twice, and no flag comes before the object it lies in.
  lemma {:induction false} KeysAreDistinct(i: nat, j: nat)
    requires i < j < |KEYS|
    ensures KEYS[i] != KEYS[j] && (KEYS[j] == Optimization ==> !IsFlag(KEYS[i]))
  {
    IndexOfKey(i);
    IndexOfKey(j);
    assert IndexOf(Optimization) == 25;
    hide IndexOf, IsFlag, KEYS;
  }

  // ---------- What becomes of a key ----------

  datatype Turn = Found | Missing | Avoided

  // Found at one of its places; else missing, unless its place is in a workspace section that
  // does not exist.
  function TurnOf(config: Config, key: Name): Turn {
    if FirstPresent(config, PlacesOf(key)).Some? then Found
    else if NestedOf(key).Some? && NestedOf(key).value.section == Workspace && !IsObject(config, Workspace)
    then Avoided
    else Missing
  }

  lemma {:induction false} TurnIs(config: Config, key: Name)
    ensures TurnOf(config, key).Missing? <==> NeedsDefault(config, key)
    ensures TurnOf(config, key).Avoided? <==> Skips(config, key)
    ensures TurnOf(config, key).Found? <==> Lookup(config, key).Some?
  {
    LookupIsFirstPresent(config, key);
    if Skips(config, key) {
      SkippedHasNoValue(config, key);
    }
    hide PlacesOf, FirstPresent, NestedOf, Lookup;
    if Lookup(config, key).None? {
      NoValueNoKey(config, key);
    }
  }

  lemma {:induction false} SkippedHasNoValue(config: Config, key: Name)
    requires Skips(config, key)
    ensures Lookup(config, key).None?
  {
    NoAliasInWorkspace(key);
    hide NestedOf, AliasesOf;
    assert FirstAlias(config, []).None?;
  }

  lemma {:induction false} NoAliasInWorkspace(key: Name)
    requires NestedOf(key).Some? && NestedOf(key).value.section == Workspace
    ensures AliasesOf(key) == []
  {
  }

  lemma {:induction false} WorkspaceIsKept(config: Config, key: Name)
    requires NeedsDefault(config, key) && IsKey(key) && IsObject(config, Workspace)
    ensures IsObject(SetDefault(config, key), Workspace)
  {
    assert key != Workspace by {
      WorkspaceIsSection();
      hide IsSection;
    }
    hide NestedOf, DefaultOf, IsSection, Lookup;
  }

  lemma {:induction false} StepKeepsMissing(config: Config, key: Name, other: Name)
    requires IsKey(key) && IsKey(other) && key != other && NeedsDefault(config, other)
    requires other == Optimization ==> !IsFlag(key)
    ensures NeedsDefault(MigrateKey(config, key), other)
  {
    hide NestedOf, IsKey, SetDefault, Lookup;
    if NeedsDefault(config, key) {
      OthersReadTheSame(config, key, other);
      if IsObject(config, Workspace) {
        WorkspaceIsKept(config, key);
      }
      NoValueNoKey(config, other);
    }
  }

  lemma {:induction false} NoValueNoKey(config: Config, key: Name)
    requires Lookup(config, key).None?
    ensures key !in config
  {
  }

  lemma {:induction false} StepKeepsFound(config: Config, key: Name, other: Name)
    requires IsKey(key) && IsKey(other) && key != other && Lookup(config, other).Some?
    ensures Lookup(MigrateKey(config, key), other).Some?
  {
    hide NestedOf, IsKey, SetDefault, Lookup;
    if NeedsDefault(config, key) {
      if other == Optimization {
        OptimizationStays(config, key);
      } else {
        OthersReadTheSame(config, key, other);
      }
    }
  }

  lemma {:induction false} StepKeepsTurn(config: Config, key: Name, other: Name)
    requires IsKey(key) && IsKey(other) && key != other
    requires other == Optimization ==> !IsFlag(key)
    ensures TurnOf(MigrateKey(config, key), other) == TurnOf(config, other)
  {
    TurnIs(config, other);
    TurnIs(MigrateKey(config, key), other);
    hide TurnOf, NeedsDefault, Skips, Lookup, IsKey, IsFlag, SetDefault;
    match TurnOf(config, other)
    case Found => StepKeepsFound(config, key, other);
    case Missing => StepKeepsMissing(config, key, other);
    case Avoided =>
      if NeedsDefault(config, key) {
        StaysSkipped(config, key, other);
      }
  }

  // What becomes of a key when its turn comes is settled by the configuration given.
  lemma {:induction false} TurnIsSettled(config: Config, n: nat, i: nat)
    requires n <= i < |KEYS|
    ensures TurnOf(MigrateUpTo(config, n), KEYS[i]) == TurnOf(config, KEYS[i])
  {
    hide TurnOf, IsKey, KEYS, MigrateKey, IsFlag;
    if n > 0 {
      TurnIsSettled(config, n - 1, i);
      KeyAt(i);
      KeyAt(n - 1);
      KeysAreDistinct(n - 1, i);
      StepKeepsTurn(MigrateUpTo(config, n - 1), KEYS[n - 1], KEYS[i]);
    }
  }

  // ---------- What is reported ----------

  // The places of the first n keys that take a given turn, in the order of the keys.
  function PlacesWith(config: Config, turn: Turn, n: nat): seq<Path>
    requires n <= |KEYS|
  {
    if n == 0 then []
    else PlacesWith(config, turn, n - 1) + if TurnOf(config, KEYS[n - 1]) == turn then [PlaceOf(KEYS[n - 1])] else []
  }

  lemma {:induction false} ReportedUpTo(config: Config, n: nat)
    requires n <= |KEYS|
    ensures MissingUpTo(config, n) == PlacesWith(config, Missing, n)
    ensures UnchangedUpTo(config, n) == PlacesWith(config, Found, n)
  {
    hide TurnOf, NeedsDefault, Skips, Lookup, KEYS, MigrateUpTo, PlaceOf;
    if n > 0 {
      ReportedUpTo(config, n - 1);
      TurnIsSettled(config, n - 1, n - 1);
      TurnIs(MigrateUpTo(config, n - 1), KEYS[n - 1]);
    }
  }

  // ---------- What is written ----------

  ghost predicate Writes(config: Config, i: nat, p: Path)
    requires i < |KEYS|
  {
    NestedOf(KEYS[i]) == Some(p) && TurnOf(config, KEYS[i]).Missing?
  }

  lemma {:induction false} StepWritesField(config: Config, key: Name, p: Path)
    requires IsKey(key) && IsSection(p.section)
    ensures FieldAt(MigrateKey(config, key), p)
            == if NestedOf(key) == Some(p) && NeedsDefault(config, key) then Some(DefaultOf(key))
               else FieldAt(config, p)
  {
    hide NestedOf, DefaultOf, FieldAt, IsSection, IsKey, NeedsDefault, SetDefault;
    if NeedsDefault(config, key) {
      SetDefaultField(config, key, p);
    }
  }

  // A field of a section gets a default exactly when its key is missing; every other field is
  // as it was. No value is overwritten.
  lemma {:induction false} FieldsUpTo(config: Config, n: nat, p: Path)
    requires n <= |KEYS| && IsSection(p.section)
    ensures forall i :: 0 <= i < n && Writes(config, i, p) ==>
                          FieldAt(MigrateUpTo(config, n), p) == Some(DefaultOf(KEYS[i]))
    ensures (forall i :: 0 <= i < n ==> !Writes(config, i, p)) ==>
              FieldAt(MigrateUpTo(config, n), p) == FieldAt(config, p)
  {
    hide NestedOf, DefaultOf, FieldAt, IsSection, IsKey, TurnOf, KEYS, MigrateKey, NeedsDefault;
    if n > 0 {
      var key := KEYS[n - 1];
      var before := MigrateUpTo(config, n - 1);
      FieldsUpTo(config, n - 1, p);
      KeyAt(n - 1);
      StepWritesField(before, key, p);
      TurnIsSettled(config, n - 1, n - 1);
      TurnIs(before, key);
      assert Writes(config, n - 1, p) <==> NestedOf(key) == Some(p) && NeedsDefault(before, key);
      forall i | 0 <= i < n && Writes(config, i, p)
        ensures FieldAt(MigrateUpTo(config, n), p) == Some(DefaultOf(KEYS[i]))
      {
        if Writes(config, n - 1, p) {
          OneWriter(config, i, n - 1, p);
        }
      }
    }
  }

  lemma {:induction false} OneWriter(config: Config, i: nat, j: nat, p: Path)
    requires i < |KEYS| && j < |KEYS| && Writes(config, i, p) && Writes(config, j, p)
    ensures KEYS[i] == KEYS[j]
  {
    hide NestedOf, OwnerOf, KEYS, TurnOf;
    PlacesAreDistinct(KEYS[i]);
    PlacesAreDistinct(KEYS[j]);
  }

  // A name outside the sections gets a default exactly when it is a missing key without a
  // nested place; every other name is as it was.
  lemma {:induction false} NamesUpTo(config: Config, n: nat, name: Name)
    requires n <= |KEYS| && !IsSection(name)
    ensures
      var writes := NestedOf(name).None? && TurnOf(config, name).Missing? && name in KEYS[..n];
      ValueAt(MigrateUpTo(config, n), Top(name))
      == if writes then Some(DefaultOf(name)) else ValueAt(config, Top(name))
  {
    hide NestedOf, DefaultOf, IsSection, IsKey, TurnOf, KEYS, MigrateKey;
    if n > 0 {
      var key := KEYS[n - 1];
      var before := MigrateUpTo(config, n - 1);
      NamesUpTo(config, n - 1, name);
      KeyAt(n - 1);
      StepWritesName(before, key, name);
      TurnIsSettled(config, n - 1, n - 1);
      TurnIs(before, key);
      assert KEYS[..n] == KEYS[..n - 1] + [key];
    }
  }

  lemma {:induction false} StepWritesName(config: Config, key: Name, name: Name)
    requires IsKey(key) && !IsSection(name)
    ensures ValueAt(MigrateKey(config, key), Top(name))
            == if key == name && NestedOf(name).None? && NeedsDefault(config, key) then Some(DefaultOf(key))
               else ValueAt(config, Top(name))
  {
    if NeedsDefault(config, key) {
      if key != name || NestedOf(key).Some? {
        SetDefaultName(config, key, name);
      }
    }
    hide NestedOf, DefaultOf, IsSection, IsKey, NeedsDefault;
  }

  lemma {:induction false} SetDefaultName(config: Config, key: Name, name: Name)
    requires NeedsDefault(config, key) && IsKey(key) && !IsSection(name)
    requires key != name || NestedOf(key).Some?
    ensures name in SetDefault(config, key) <==> name in config
    ensures name in config ==> SetDefault(config, key)[name] == config[name]
  {
    hide NestedOf, DefaultOf, IsSection, IsKey, NeedsDefault, SetDefault;
    SetDefaultTop(config, key, name);
  }

  // ---------- The empty configuration ----------

  predicate IsOn(key: Name) {
    match key
    case CommitDocs | Research | PlanChecker | Verifier | Parallelization | TestGate | RagEnabled => true
    case OptimizationValibot | OptimizationSqliteCache => true
    case ToolsRipgrep | ToolsFd | ToolsJq | ToolsYq | ToolsAstGrep => true
    case ToolsSd | ToolsHyperfine | ToolsBat | ToolsGh => true
    case _ => false
  }

  predicate IsOff(key: Name) {
    key == SearchGitignored || key == BraveSearch || key == OptimizationCompileCache
  }

  lemma {:induction false} ModelSettingsAreNoSwitch()
    ensures DefaultOf(ModelSettings).Obj?
  {
  }

  lemma {:induction false} Switches(key: Name)
    ensures DefaultOf(key) == Bool(true) <==> IsOn(key)
    ensures DefaultOf(key) == Bool(false) <==> IsOff(key)
  {
    ModelSettingsAreNoSwitch();
    hide DEFAULT_MODEL_SETTINGS;
  }

  lemma {:induction false} ModeDefaults()
    ensures DefaultOf(BranchingStrategy) == Str("none") && DefaultOf(Mode) == Str("interactive")
    ensures DefaultOf(Depth) == Str("standard") && DefaultOf(Runtime) == Str("auto")
    ensures DefaultOf(OptimizationDiscovery) == Str("optimized")
  {
    hide DEFAULT_MODEL_SETTINGS;
  }

  lemma {:induction false} TemplateDefaults()
    ensures DefaultOf(PhaseBranchTemplate) == Str("bgsd/phase-{phase}-{slug}")
    ensures DefaultOf(MilestoneBranchTemplate) == Str("bgsd/{milestone}-{slug}")
    ensures DefaultOf(WorkspaceBasePath) == Str("/tmp/gsd-workspaces")
  {
    hide DEFAULT_MODEL_SETTINGS;
  }

  lemma {:induction false} NumberDefaults()
    ensures DefaultOf(ContextWindow) == Num(200000) && DefaultOf(ContextTargetPercent) == Num(50)
    ensures DefaultOf(WorkspaceMaxConcurrent) == Num(3) && DefaultOf(RagTimeout) == Num(30)
    ensures DefaultOf(YtdlpPath) == DefaultOf(NlmPath) == DefaultOf(McpConfigPath) == Str("")
    ensures DefaultOf(TestCommands) == DefaultOf(Optimization) == Obj(map[])
  {
    hide DEFAULT_MODEL_SETTINGS;
  }

  lemma {:induction false} NothingPresent(places: seq<Place>)
    ensures FirstPresent(map[], places) == None
  {
    if places != [] {
      NothingPresent(places[1..]);
    }
  }

  // An empty configuration, and anything that is no object, reads as the defaults: these keys
  // are on, these are off.
  lemma {:induction false} EmptyReadsAsDefaults(raw: Json, key: Name)
    requires raw == Obj(map[]) || !raw.Obj?
    ensures Normalized(raw, key) == DefaultOf(key)
    ensures Normalized(raw, key) == Bool(true) <==> IsOn(key)
    ensures Normalized(raw, key) == Bool(false) <==> IsOff(key)
  {
    Switches(key);
    NothingPresent(PlacesOf(key));
    LookupIsFirstPresent(ConfigOf(raw), key);
    hide DefaultOf, PlacesOf, FirstPresent, Lookup, IsOn, IsOff;
  }
}

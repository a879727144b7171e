// Reading and migrating configuration (plugin.js, the config contract): a value is looked
// up by key, then at its nested place, then under its aliases; migration writes every
// missing value at its preferred place.
module ConfigMigration {
  import opened Options
  import opened ConfigSchema

  // ---------- Reading ----------

  predicate IsObject(config: Config, n: Name) {
    n in config && config[n].Obj?
  }

  function FieldAt(config: Config, p: Path): Option<Json> {
    if IsObject(config, p.section) && p.field in config[p.section].fields
    then Some(config[p.section].fields[p.field]) else None
  }

  function FirstAlias(config: Config, aliases: seq<Name>): Option<Json> {
    if aliases == [] then None
    else if aliases[0] in config then Some(config[aliases[0]])
    else FirstAlias(config, aliases[1..])
  }

  // The nested place, and for the plan checker the older name of its field.
  function NestedValue(config: Config, p: Path): Option<Json> {
    if FieldAt(config, p).Some? then FieldAt(config, p)
    else if p == Path(Workflow, PlanCheck) then FieldAt(config, Path(Workflow, PlanChecker))
    else None
  }

  // getSchemaLookupValue
  function Lookup(config: Config, key: Name): Option<Json> {
    if key in config then Some(config[key])
    else if NestedOf(key).Some? && NestedValue(config, NestedOf(key).value).Some? then
      NestedValue(config, NestedOf(key).value)
    else FirstAlias(config, AliasesOf(key))
  }

  // The places a value may stand at, in order of precedence: the key itself, its nested place,
  // the older name of that place, its aliases.
  datatype Place = Top(name: Name) | In(path: Path)

  function ValueAt(config: Config, place: Place): Option<Json> {
    match place
    case Top(name) => if name in config then Some(config[name]) else None
    case In(path) => FieldAt(config, path)
  }

  function NestedPlaces(key: Name): seq<Place> {
    (if NestedOf(key).Some? then [In(NestedOf(key).value)] else [])
    + (if key == PlanChecker then [In(Path(Workflow, PlanChecker))] else [])
  }

  function AliasPlaces(key: Name): seq<Place> {
    if key == Research then [Top(ResearchEnabled)] else []
  }

  function PlacesOf(key: Name): seq<Place> {
    [Top(key)] + (NestedPlaces(key) + AliasPlaces(key))
  }

  function FirstPresent(config: Config, places: seq<Place>): Option<Json> {
    if places == [] then None
    else if ValueAt(config, places[0]).Some? then ValueAt(config, places[0])
    else FirstPresent(config, places[1..])
  }

  lemma {:induction false} FirstOfTwo(config: Config, a: seq<Place>, b: seq<Place>)
    ensures FirstPresent(config, a + b)
            == if FirstPresent(config, a).Some? then FirstPresent(config, a) else FirstPresent(config, b)
  {
    hide ValueAt;
    if a == [] {
      assert a + b == b;
    } else {
      assert (a + b)[1..] == a[1..] + b;
      FirstOfTwo(config, a[1..], b);
    }
  }

  lemma {:induction false} FirstOfOne(config: Config, place: Place)
    ensures FirstPresent(config, [place]) == ValueAt(config, place) && FirstPresent(config, []) == None
  {
    hide ValueAt;
    assert [place][1..] == [];
  }

  lemma {:induction false} OldPlace(key: Name)
    ensures NestedOf(key) == Some(Path(Workflow, PlanCheck)) <==> key == PlanChecker
  {
    if NestedOf(key).Some? {
      PlacesAreDistinct(key);
    }
    assert NestedOf(PlanChecker) == Some(Path(Workflow, PlanCheck));
    hide NestedOf, OwnerOf;
    assert OwnerOf(Path(Workflow, PlanCheck)) == Some(PlanChecker) by {
      PlacesAreDistinct(PlanChecker);
    }
  }

  lemma {:induction false} NestedIsFirstPresent(config: Config, key: Name)
    ensures FirstPresent(config, NestedPlaces(key))
            == if NestedOf(key).Some? then NestedValue(config, NestedOf(key).value) else None
  {
    OldPlace(key);
    hide NestedOf, FieldAt;
    if NestedOf(key).Some? {
      var place := In(NestedOf(key).value);
      var older := In(Path(Workflow, PlanChecker));
      FirstOfOne(config, place);
      FirstOfOne(config, older);
      FirstOfTwo(config, [place], [older]);
      assert [place] + [] == [place];
      hide FirstPresent;
    }
  }

  lemma {:induction false} AliasIsFirstPresent(config: Config, key: Name)
    ensures FirstPresent(config, AliasPlaces(key)) == FirstAlias(config, AliasesOf(key))
  {
    assert [ResearchEnabled][1..] == [];
    FirstOfOne(config, Top(ResearchEnabled));
    hide FirstPresent;
  }

  // A lookup finds the value at the first place that has one.
  lemma {:induction false} LookupIsFirstPresent(config: Config, key: Name)
    ensures Lookup(config, key) == FirstPresent(config, PlacesOf(key))
  {
    NestedIsFirstPresent(config, key);
    AliasIsFirstPresent(config, key);
    hide NestedOf, NestedValue, FirstAlias, AliasesOf, FirstPresent, NestedPlaces, AliasPlaces;
    FirstOfOne(config, Top(key));
    FirstOfTwo(config, [Top(key)], NestedPlaces(key) + AliasPlaces(key));
    FirstOfTwo(config, NestedPlaces(key), AliasPlaces(key));
  }

  predicate Truthy(v: Json) {
    match v
    case Null => false
    case Bool(b) => b
    case Num(n) => n != 0
    case Str(s) => s != ""
    case _ => true
  }

  // normalizeSchemaValue
  function NormalizeValue(raw: Option<Json>, key: Name): Json {
    match raw
    case None => DefaultOf(key)
    case Some(v) =>
      if Coerces(key) then
        if v.Bool? then v
        else if v.Obj? && Enabled in v.fields then Bool(Truthy(v.fields[Enabled]))
        else DefaultOf(key)
      else v
  }

  // The value normalizeConfig gives a key; anything but an object counts as an empty one.
  function ConfigOf(raw: Json): Config {
    if raw.Obj? then raw.fields else map[]
  }

  function Normalized(raw: Json, key: Name): Json {
    NormalizeValue(Lookup(ConfigOf(raw), key), key)
  }

  // Every key has the first value found, or its default.
  lemma {:induction false} NormalizedExactly(raw: Json, key: Name)
    requires key != Parallelization
    ensures
      var found := FirstPresent(ConfigOf(raw), PlacesOf(key));
      Normalized(raw, key) == if found.Some? then found.value else DefaultOf(key)
  {
    hide DefaultOf, PlacesOf, FirstPresent, Lookup;
    LookupIsFirstPresent(ConfigOf(raw), key);
  }

  // Parallelization is always on or off. It is off exactly when it is set to false, or to an
  // object whose enabled field is false, null, zero or empty.
  lemma {:induction false} ParallelOffExactlyWhen(raw: Json)
    ensures Normalized(raw, Parallelization).Bool?
    ensures
      var found := FieldOr(ConfigOf(raw), Parallelization);
      Normalized(raw, Parallelization) == Bool(false) <==>
      || found == Bool(false)
      || (found.Obj? && Enabled in found.fields
          && found.fields[Enabled] in [Null, Bool(false), Num(0), Str("")])
  {
    hide FirstPresent, Lookup;
    LookupIsFirstPresent(ConfigOf(raw), Parallelization);
    assert FirstPresent(ConfigOf(raw), PlacesOf(Parallelization))
           == ValueAt(ConfigOf(raw), Top(Parallelization)) by {
      assert NestedOf(Parallelization).None?;
      assert PlacesOf(Parallelization) == [Top(Parallelization)];
      FirstOfOne(ConfigOf(raw), Top(Parallelization));
    }
  }

  function FieldOr(config: Config, key: Name): Json {
    if key in config then config[key] else Null
  }

  // ---------- Migrating ----------

  // preferredSchemaPath and setByPath: one or two levels deep, and anything in the way of
  // the section is replaced by an object.
  function SetDefault(config: Config, key: Name): Config {
    match NestedOf(key)
    case None => config[key := DefaultOf(key)]
    case Some(p) =>
      var section := if IsObject(config, p.section) then config[p.section].fields else map[];
      config[p.section := Obj(section[p.field := DefaultOf(key)])]
  }

  // shouldSkipMigrationForCompatibility: no workspace section is ever created.
  predicate Skips(config: Config, key: Name) {
    && NestedOf(key).Some? && NestedOf(key).value.section == Workspace
    && key !in config && !IsObject(config, Workspace)
  }

  predicate NeedsDefault(config: Config, key: Name) {
    !Skips(config, key) && Lookup(config, key).None?
  }

  function MigrateKey(config: Config, key: Name): Config {
    if NeedsDefault(config, key) then SetDefault(config, key) else config
  }

  // The first n keys of the schema, in order.
  function MigrateUpTo(config: Config, n: nat): Config
    requires n <= |KEYS|
  {
    if n == 0 then config else MigrateKey(MigrateUpTo(config, n - 1), KEYS[n - 1])
  }

  function Migrated(raw: Json): Json {
    Obj(MigrateUpTo(ConfigOf(raw), |KEYS|))
  }

  function PlaceOf(key: Name): Path {
    match NestedOf(key)
    case Some(p) => p
    case None => Path(key, key)
  }

  // The places migration reports as filled in.
  function MissingUpTo(config: Config, n: nat): seq<Path>
    requires n <= |KEYS|
  {
    if n == 0 then []
    else MissingUpTo(config, n - 1) +
         (if NeedsDefault(MigrateUpTo(config, n - 1), KEYS[n - 1]) then [PlaceOf(KEYS[n - 1])] else [])
  }

  // The places it reports as left alone: a value was found there or at another place.
  function UnchangedUpTo(config: Config, n: nat): seq<Path>
    requires n <= |KEYS|
  {
    if n == 0 then []
    else
      var before := MigrateUpTo(config, n - 1);
      var key := KEYS[n - 1];
      UnchangedUpTo(config, n - 1) +
      (if !Skips(before, key) && Lookup(before, key).Some? then [PlaceOf(key)] else [])
  }

  method MigrateConfig(raw: Json) returns (config: Config, migratedKeys: seq<Path>, unchangedKeys: seq<Path>)
    ensures Obj(config) == Migrated(raw)
    ensures migratedKeys == MissingUpTo(ConfigOf(raw), |KEYS|)
    ensures unchangedKeys == UnchangedUpTo(ConfigOf(raw), |KEYS|)
  {
    hide Skips, Lookup, SetDefault;
    config := ConfigOf(raw);
    migratedKeys, unchangedKeys := [], [];
    for i := 0 to |KEYS|
      invariant config == MigrateUpTo(ConfigOf(raw), i)
      invariant migratedKeys == MissingUpTo(ConfigOf(raw), i)
      invariant unchangedKeys == UnchangedUpTo(ConfigOf(raw), i)
    {
      var key := KEYS[i];
      if !Skips(config, key) {
        if Lookup(config, key).Some? {
          unchangedKeys := unchangedKeys + [PlaceOf(key)];
        } else {
          config := SetDefault(config, key);
          migratedKeys := migratedKeys + [PlaceOf(key)];
        }
      }
    }
  }

  // ---------- Writing one default leaves the others alone ----------

  // A schema key by its position; what the steps need to know about it.
  ghost predicate IsKey(key: Name) {
    && (IsSection(key) ==> key == Optimization)
    && key != ResearchEnabled
  }

  lemma {:induction false} KeyAt(i: nat)
    requires i < |KEYS|
    ensures IsKey(KEYS[i])
  {
    KeysAreNotSections(i);
    hide IsSection;
  }

  // What writing the default of `key` does to any place of any section.
  lemma {:induction false} SetDefaultField(config: Config, key: Name, p: Path)
    requires NeedsDefault(config, key) && IsKey(key) && IsSection(p.section)
    ensures FieldAt(SetDefault(config, key), p)
            == if NestedOf(key) == Some(p) then Some(DefaultOf(key)) else FieldAt(config, p)
  {
    match NestedOf(key)
    case Some(place) =>
      SectionsAreNotNested(key);
      NestedDefaultField(config, key, place, p);
    case None =>
      PlainDefaultField(config, key, p);
  }

  lemma {:induction false} NestedDefaultField(config: Config, key: Name, place: Path, p: Path)
    requires NestedOf(key) == Some(place)
    ensures FieldAt(SetDefault(config, key), p) == if place == p then Some(DefaultOf(key)) else FieldAt(config, p)
  {
    hide NestedOf, DefaultOf;
  }

  // A plain key is a section only if it is `optimization`, missing so far; its default is empty.
  lemma {:induction false} PlainDefaultField(config: Config, key: Name, p: Path)
    requires NestedOf(key).None? && IsKey(key) && IsSection(p.section) && NeedsDefault(config, key)
    ensures FieldAt(SetDefault(config, key), p) == FieldAt(config, p)
  {
    OptimizationDefault();
    hide NestedOf, DefaultOf, FirstAlias, AliasesOf, NestedValue, IsSection;
  }

  lemma {:induction false} OptimizationDefault()
    ensures DefaultOf(Optimization) == Obj(map[])
  {
  }

  // What it does to a property of the configuration itself.
  lemma {:induction false} SetDefaultTop(config: Config, key: Name, n: Name)
    requires NeedsDefault(config, key) && IsKey(key)
    requires IsSection(n) ==> NestedOf(key).None? || NestedOf(key).value.section != n
    requires n != key || NestedOf(key).Some?
    ensures n in SetDefault(config, key) <==> n in config
    ensures n in config ==> SetDefault(config, key)[n] == config[n]
  {
    if NestedOf(key).Some? {
      SectionsAreNotNested(key);
    }
    hide IsSection, NestedOf, DefaultOf;
  }

  // What is read depends only on the key itself, its nested place and its aliases.
  lemma {:induction false} SamePartsSameValue(before: Config, after: Config, key: Name)
    requires key in before <==> key in after
    requires key in before ==> before[key] == after[key]
    requires NestedOf(key).Some? ==> NestedValue(before, NestedOf(key).value) == NestedValue(after, NestedOf(key).value)
    requires FirstAlias(before, AliasesOf(key)) == FirstAlias(after, AliasesOf(key))
    ensures Lookup(before, key) == Lookup(after, key)
  {
    hide NestedOf, NestedValue, FirstAlias, AliasesOf;
  }

  // Another key is read exactly as before, unless it is the `optimization` object and the
  // step wrote into it.
  lemma {:induction false} OthersReadTheSame(config: Config, key: Name, other: Name)
    requires NeedsDefault(config, key) && IsKey(key) && IsKey(other) && key != other
    requires other == Optimization ==> NestedOf(key).None? || NestedOf(key).value.section != Optimization
    ensures Lookup(SetDefault(config, key), other) == Lookup(config, other)
  {
    hide Lookup, NestedOf, NestedValue, IsSection, SetDefault, NeedsDefault, AliasesOf, FirstAlias;
    SetDefaultTop(config, key, other);
    AliasReadsTheSame(config, key, other);
    if NestedOf(other).Some? {
      NestedReadsTheSame(config, key, other, NestedOf(other).value);
    }
    SamePartsSameValue(SetDefault(config, key), config, other);
  }

  lemma {:induction false} NestedReadsTheSame(config: Config, key: Name, other: Name, p: Path)
    requires NeedsDefault(config, key) && IsKey(key) && key != other && NestedOf(other) == Some(p)
    ensures NestedValue(SetDefault(config, key), p) == NestedValue(config, p)
  {
    hide NestedOf, OwnerOf, IsSection, SetDefault, NeedsDefault, FieldAt;
    SectionsAreNotNested(other);
    PlacesAreDistinct(other);
    WorkflowIsSection();
    SetDefaultField(config, key, p);
    SetDefaultField(config, key, Path(Workflow, PlanChecker));
    if NestedOf(key).Some? {
      PlacesAreDistinct(key);
      SectionsAreNotNested(key);
    }
  }

  lemma {:induction false} WorkflowIsSection()
    ensures IsSection(Workflow)
  {
  }

  lemma {:induction false} AliasReadsTheSame(config: Config, key: Name, other: Name)
    requires NeedsDefault(config, key) && IsKey(key)
    ensures FirstAlias(SetDefault(config, key), AliasesOf(other)) == FirstAlias(config, AliasesOf(other))
  {
    hide SetDefault, NeedsDefault, IsSection, NestedOf, AliasesOf, FirstAlias, IsKey;
    AliasIsNoSection();
    AliasIsNoKey(key);
    SetDefaultTop(config, key, ResearchEnabled);
    AliasDecides(SetDefault(config, key), config, other);
  }

  lemma {:induction false} AliasIsNoKey(key: Name)
    requires IsKey(key)
    ensures key != ResearchEnabled
  {
  }

  // The only alias is that of `research`.
  lemma {:induction false} AliasDecides(a: Config, b: Config, key: Name)
    requires ResearchEnabled in a <==> ResearchEnabled in b
    requires ResearchEnabled in b ==> a[ResearchEnabled] == b[ResearchEnabled]
    ensures FirstAlias(a, AliasesOf(key)) == FirstAlias(b, AliasesOf(key))
  {
    if key == Research {
      assert AliasesOf(key)[1..] == [];
      assert FirstAlias(a, []) == None && FirstAlias(b, []) == None;
    }
  }

  lemma {:induction false} AliasIsNoSection()
    ensures !IsSection(ResearchEnabled)
  {
  }

  // The key itself is now found, with its default.
  lemma {:induction false} DefaultIsFound(config: Config, key: Name)
    requires NeedsDefault(config, key) && IsKey(key)
    ensures Lookup(SetDefault(config, key), key) == Some(DefaultOf(key))
  {
    if NestedOf(key).Some? {
      SectionsAreNotNested(key);
      SetDefaultField(config, key, NestedOf(key).value);
      SetDefaultTop(config, key, key);
    }
    hide NestedOf, IsSection, DefaultOf, FieldAt;
  }

  lemma {:induction false} DefaultIsNormal(key: Name)
    ensures NormalizeValue(Some(DefaultOf(key)), key) == DefaultOf(key)
  {
    assert DefaultOf(Parallelization) == Bool(true);
    hide DefaultOf;
  }

  // ---------- Migration preserves meaning ----------

  // One step leaves the value of every key but `optimization` as it was.
  lemma {:induction false} StepPreserves(config: Config, key: Name, other: Name)
    requires IsKey(key) && IsKey(other)
    requires other == Optimization ==>
      NestedOf(key).Some? && NestedOf(key).value.section == Optimization ==> Lookup(config, key).Some?
    ensures NormalizeValue(Lookup(MigrateKey(config, key), other), other)
            == NormalizeValue(Lookup(config, other), other)
  {
    hide Lookup, SetDefault, NestedOf, DefaultOf, IsKey;
    if NeedsDefault(config, key) {
      if key == other {
        DefaultIsFound(config, key);
        DefaultIsNormal(key);
      } else {
        OthersReadTheSame(config, key, other);
      }
    }
  }

  lemma {:induction false} MigrationPreservesUpTo(config: Config, other: Name, n: nat)
    requires n <= |KEYS| && IsKey(other) && other != Optimization
    ensures NormalizeValue(Lookup(MigrateUpTo(config, n), other), other)
            == NormalizeValue(Lookup(config, other), other)
  {
    hide NormalizeValue, Lookup, MigrateKey, IsKey, KEYS;
    if n > 0 {
      KeyAt(n - 1);
      MigrationPreservesUpTo(config, other, n - 1);
      StepPreserves(MigrateUpTo(config, n - 1), KEYS[n - 1], other);
    }
  }

  // Whatever the raw configuration, normalising after migration gives every schema key
  // but `optimization` the value it had before.
  lemma {:induction false} MigrationPreservesMeaning(raw: Json, i: nat)
    requires i < |KEYS| && KEYS[i] != Optimization
    ensures Normalized(Migrated(raw), KEYS[i]) == Normalized(raw, KEYS[i])
  {
    KeyAt(i);
    MigrationPreservesUpTo(ConfigOf(raw), KEYS[i], |KEYS|);
    hide MigrateUpTo, Lookup, NormalizeValue;
  }

  // ---------- Migrating twice ----------

  // A key that a step has dealt with is found, or is skipped for good.
  lemma {:induction false} StepSettles(config: Config, key: Name)
    requires IsKey(key)
    ensures !NeedsDefault(MigrateKey(config, key), key)
  {
    hide IsKey, SetDefault, DefaultOf, NestedOf, Lookup;
    if NeedsDefault(config, key) {
      DefaultIsFound(config, key);
    }
  }

  lemma {:induction false} StepKeepsSettled(config: Config, key: Name, other: Name)
    requires IsKey(key) && IsKey(other) && !NeedsDefault(config, other)
    ensures !NeedsDefault(MigrateKey(config, key), other)
  {
    hide Lookup, Skips, SetDefault, IsKey, NestedOf, DefaultOf;
    if NeedsDefault(config, key) {
      if key == other {
        DefaultIsFound(config, key);
      } else if Skips(config, other) {
        StaysSkipped(config, key, other);
      } else if other == Optimization {
        OptimizationStays(config, key);
      } else {
        OthersReadTheSame(config, key, other);
      }
    }
  }

  lemma {:induction false} SkippedIsNoSection(config: Config, key: Name)
    requires Skips(config, key)
    ensures !IsSection(key) && !IsObject(config, Workspace)
  {
    SectionsAreNotNested(key);
    hide NestedOf, IsSection, IsObject;
  }

  lemma {:induction false} SkippingDependsOn(before: Config, after: Config, key: Name)
    requires Skips(before, key)
    requires key in before <==> key in after
    requires Workspace in before <==> Workspace in after
    requires Workspace in before ==> before[Workspace] == after[Workspace]
    ensures Skips(after, key)
  {
    hide NestedOf;
  }

  // Without a workspace section none is created.
  lemma {:induction false} StaysSkipped(config: Config, key: Name, other: Name)
    requires NeedsDefault(config, key) && IsKey(key) && IsKey(other) && key != other
    requires Skips(config, other)
    ensures Skips(SetDefault(config, key), other)
  {
    hide NeedsDefault, IsKey, Skips, SetDefault, IsSection, NestedOf, IsObject;
    SkippedIsNoSection(config, other);
    WorkspaceStays(config, key);
    SetDefaultTop(config, key, other);
    SkippingDependsOn(config, SetDefault(config, key), other);
  }

  lemma {:induction false} WorkspaceStays(config: Config, key: Name)
    requires NeedsDefault(config, key) && IsKey(key) && !IsObject(config, Workspace)
    ensures Workspace in SetDefault(config, key) <==> Workspace in config
    ensures Workspace in config ==> SetDefault(config, key)[Workspace] == config[Workspace]
  {
    hide NeedsDefault, IsKey, SetDefault, IsSection, NestedOf, IsObject;
    NotInWorkspace(config, key);
    SetDefaultTop(config, key, Workspace);
  }

  lemma {:induction false} WorkspaceIsSection()
    ensures IsSection(Workspace)
  {
  }

  lemma {:induction false} NotInWorkspace(config: Config, key: Name)
    requires NeedsDefault(config, key) && IsKey(key) && !IsObject(config, Workspace)
    ensures NestedOf(key).None? || NestedOf(key).value.section != Workspace
    ensures key != Workspace
  {
    WorkspaceIsSection();
    hide NestedOf, IsSection, DefaultOf;
  }

  lemma {:induction false} OptimizationStays(config: Config, key: Name)
    requires NeedsDefault(config, key) && IsKey(key) && Lookup(config, Optimization).Some?
    ensures Lookup(SetDefault(config, key), Optimization).Some?
  {
    OptimizationIsPlain();
    hide NestedOf, DefaultOf, IsSection;
  }

  lemma {:induction false} OptimizationIsPlain()
    ensures NestedOf(Optimization).None? && AliasesOf(Optimization) == []
  {
  }

  lemma {:induction false} SettledUpTo(config: Config, n: nat, i: nat)
    requires i < n <= |KEYS|
    ensures !NeedsDefault(MigrateUpTo(config, n), KEYS[i])
    decreases n
  {
    hide NeedsDefault, MigrateKey, IsKey, KEYS;
    KeyAt(n - 1);
    KeyAt(i);
    var before := MigrateUpTo(config, n - 1);
    if i == n - 1 {
      StepSettles(before, KEYS[i]);
    } else {
      SettledUpTo(config, n - 1, i);
      StepKeepsSettled(before, KEYS[n - 1], KEYS[i]);
    }
  }

  lemma {:induction false} NothingLeft(config: Config, n: nat)
    requires n <= |KEYS| && forall i :: 0 <= i < |KEYS| ==> !NeedsDefault(config, KEYS[i])
    ensures MigrateUpTo(config, n) == config && MissingUpTo(config, n) == []
  {
    hide NeedsDefault, KEYS;
    if n > 0 {
      NothingLeft(config, n - 1);
    }
  }

  // Migrating a migrated configuration changes nothing and reports nothing to migrate.
  lemma {:induction false} MigrationIsIdempotent(raw: Json)
    ensures Migrated(Migrated(raw)) == Migrated(raw)
    ensures MissingUpTo(ConfigOf(Migrated(raw)), |KEYS|) == []
  {
    var config := MigrateUpTo(ConfigOf(raw), |KEYS|);
    hide NeedsDefault, MigrateUpTo, MissingUpTo, KEYS;
    forall i | 0 <= i < |KEYS|
      ensures !NeedsDefault(config, KEYS[i])
    {
      SettledUpTo(ConfigOf(raw), |KEYS|, i);
    }
    NothingLeft(config, |KEYS|);
  }

  // ---------- The one exception ----------

  // The keys whose place is inside the `optimization` object.
  predicate IsFlag(key: Name) {
    NestedOf(key).Some? && NestedOf(key).value.section == Optimization
  }

  // Every optimization flag can already be read.
  ghost predicate FlagsAreSet(config: Config) {
    forall i :: 0 <= i < |KEYS| && IsFlag(KEYS[i]) ==> Lookup(config, KEYS[i]).Some?
  }

  lemma {:induction false} FlagIsNeverSkipped(config: Config, key: Name)
    requires IsFlag(key)
    ensures NeedsDefault(config, key) <==> Lookup(config, key).None?
  {
    hide NestedOf, Lookup;
  }

  lemma {:induction false} FlagStaysSet(config: Config, n: nat, i: nat)
    requires n <= |KEYS| && i < |KEYS| && IsFlag(KEYS[i]) && Lookup(config, KEYS[i]).Some?
    ensures Lookup(MigrateUpTo(config, n), KEYS[i]).Some?
  {
    hide IsFlag, Lookup, NeedsDefault, IsKey, KEYS, MigrateKey;
    if n > 0 {
      FlagStaysSet(config, n - 1, i);
      KeyAt(i);
      KeyAt(n - 1);
      var before := MigrateUpTo(config, n - 1);
      FlagIsNeverSkipped(before, KEYS[i]);
      StepKeepsSettled(before, KEYS[n - 1], KEYS[i]);
      FlagIsNeverSkipped(MigrateKey(before, KEYS[n - 1]), KEYS[i]);
    }
  }

  lemma {:induction false} StepKeepsTheObject(config: Config, key: Name)
    requires IsKey(key) && (IsFlag(key) ==> Lookup(config, key).Some?)
    ensures NormalizeValue(Lookup(MigrateKey(config, key), Optimization), Optimization)
            == NormalizeValue(Lookup(config, Optimization), Optimization)
  {
    OptimizationIsKey();
    hide NormalizeValue, Lookup, MigrateKey, NestedOf, IsKey;
    StepPreserves(config, key, Optimization);
  }

  lemma {:induction false} OptimizationIsKey()
    ensures IsKey(Optimization)
  {
  }

  // With every flag set no step touches the object, so it keeps its value.
  lemma {:induction false} SetFlagsKeepTheObject(config: Config, n: nat)
    requires n <= |KEYS| && FlagsAreSet(config)
    ensures NormalizeValue(Lookup(MigrateUpTo(config, n), Optimization), Optimization)
            == NormalizeValue(Lookup(config, Optimization), Optimization)
  {
    hide NormalizeValue, Lookup, MigrateKey, KEYS, NestedOf, IsKey, IsFlag;
    if n > 0 {
      SetFlagsKeepTheObject(config, n - 1);
      KeyAt(n - 1);
      if IsFlag(KEYS[n - 1]) {
        FlagStaysSet(config, n - 1, n - 1);
      }
      StepKeepsTheObject(MigrateUpTo(config, n - 1), KEYS[n - 1]);
    }
  }

  lemma {:induction false} FlagIsNested(key: Name)
    requires IsFlag(key)
    ensures NestedOf(key).Some? && !IsSection(key)
  {
    SectionsAreNotNested(key);
    hide NestedOf, IsSection;
  }

  // Migration never writes a flag under its own name.
  lemma {:induction false} FlagNameStays(config: Config, n: nat, key: Name)
    requires n <= |KEYS| && IsFlag(key)
    ensures key in MigrateUpTo(config, n) <==> key in config
  {
    hide NeedsDefault, IsKey, KEYS, SetDefault, NestedOf, IsSection, IsFlag;
    if n > 0 {
      FlagNameStays(config, n - 1, key);
      KeyAt(n - 1);
      FlagIsNested(key);
      if NeedsDefault(MigrateUpTo(config, n - 1), KEYS[n - 1]) {
        SetDefaultTop(MigrateUpTo(config, n - 1), KEYS[n - 1], key);
      }
    }
  }

  lemma {:induction false} FlagIsReadInPlace(config: Config, key: Name)
    requires IsFlag(key) && key !in config
    ensures Lookup(config, key) == FieldAt(config, NestedOf(key).value)
  {
    hide FieldAt, NestedOf;
    assert key != Research by {
      ResearchIsNoFlag();
    }
  }

  lemma {:induction false} ResearchIsNoFlag()
    ensures !IsFlag(Research)
  {
  }

  // A flag that could not be read is written into the object, which changes it.
  lemma {:induction false} UnsetFlagChangesTheObject(config: Config, i: nat)
    requires i < |KEYS| && IsFlag(KEYS[i]) && Lookup(config, KEYS[i]).None?
    ensures NormalizeValue(Lookup(MigrateUpTo(config, |KEYS|), Optimization), Optimization)
            != NormalizeValue(Lookup(config, Optimization), Optimization)
  {
    var key := KEYS[i];
    var after := MigrateUpTo(config, |KEYS|);
    var p := NestedOf(key).value;
    assert key !in config;
    assert p.section == Optimization;
    SettledUpTo(config, |KEYS|, i);
    hide KEYS, NestedOf, IsFlag, NeedsDefault, Lookup, MigrateUpTo;
    FlagIsNeverSkipped(after, key);
    FlagNameStays(config, |KEYS|, key);
    FlagIsReadInPlace(after, key);
    FlagIsReadInPlace(config, key);
    ObjectsDiffer(config, after, p);
  }

  lemma {:induction false} ObjectsDiffer(before: Config, after: Config, p: Path)
    requires p.section == Optimization && FieldAt(before, p).None? && FieldAt(after, p).Some?
    ensures NormalizeValue(Lookup(after, Optimization), Optimization)
            != NormalizeValue(Lookup(before, Optimization), Optimization)
  {
    OptimizationIsPlain();
    OptimizationDefault();
    hide NestedOf, AliasesOf, DefaultOf;
    assert FirstAlias(before, []) == None;
  }

  // `optimization` is a key and a section at once: migration preserves its value exactly
  // when every flag inside it could already be read.
  lemma {:induction false} OptimizationIsPreservedExactlyWhen(raw: Json)
    ensures Normalized(Migrated(raw), Optimization) == Normalized(raw, Optimization) <==> FlagsAreSet(ConfigOf(raw))
  {
    var config := ConfigOf(raw);
    hide MigrateUpTo, Lookup, NormalizeValue, KEYS, IsFlag;
    if FlagsAreSet(config) {
      SetFlagsKeepTheObject(config, |KEYS|);
    } else {
      var i :| 0 <= i < |KEYS| && IsFlag(KEYS[i]) && Lookup(config, KEYS[i]).None?;
      UnsetFlagChangesTheObject(config, i);
    }
  }
}

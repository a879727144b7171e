// The configuration schema (plugin.js, CONFIG_SCHEMA): its keys in order, the nested place
// and the aliases of each, and the default values.
module ConfigSchema {
  import opened Options

  // The property names the configuration contract mentions; Other stands for any other name.
  datatype Name =
    | ModelSettings | CommitDocs | SearchGitignored | BranchingStrategy | PhaseBranchTemplate
    | MilestoneBranchTemplate | Research | PlanChecker | Verifier | Parallelization | BraveSearch
    | Mode | Depth | TestCommands | TestGate | ContextWindow | ContextTargetPercent | Runtime
    | WorkspaceBasePath | WorkspaceMaxConcurrent | RagEnabled | RagTimeout | YtdlpPath | NlmPath
    | McpConfigPath | Optimization | OptimizationValibot | OptimizationDiscovery
    | OptimizationCompileCache | OptimizationSqliteCache | ToolsRipgrep | ToolsFd | ToolsJq | ToolsYq
    | ToolsAstGrep | ToolsSd | ToolsHyperfine | ToolsBat | ToolsGh | Planning | Git | Workflow
    | ResearchEnabled | PlanCheck | Workspace | BasePath | MaxConcurrent | Rag | Valibot | Discovery
    | CompileCache | SqliteCache | Tools | Ripgrep | Fd | Jq | Yq | AstGrep | Sd | Hyperfine | Bat | Gh
    | Enabled
    | Other(text: string)

  // A JSON value; an object is a map, the order of its properties does not matter here.
  datatype Json =
    | Null
    | Bool(b: bool)
    | Num(n: int)
    | Str(s: string)
    | Arr(items: seq<Json>)
    | Obj(fields: map<Name, Json>)

  type Config = map<Name, Json>

  datatype Path = Path(section: Name, field: Name)

  // The shared model settings; their content plays no part in migration.
  const DEFAULT_MODEL_SETTINGS := Obj(map[
    Other("default_profile") := Str("balanced"),
    Other("profiles") := Obj(map[
      Other("quality") := Obj(map[Other("model") := Str("gpt-5.4")]),
      Other("balanced") := Obj(map[Other("model") := Str("gpt-5.4-mini")]),
      Other("budget") := Obj(map[Other("model") := Str("gpt-5.4-nano")])]),
    Other("agent_overrides") := Obj(map[])])

  // The keys, in the order in which the schema is walked.
  const CORE_KEYS: seq<Name> := [
    ModelSettings, CommitDocs, SearchGitignored, BranchingStrategy, PhaseBranchTemplate,
    MilestoneBranchTemplate, Research, PlanChecker, Verifier, Parallelization, BraveSearch, Mode,
    Depth, TestCommands, TestGate, ContextWindow, ContextTargetPercent, Runtime
  ]

  const SECTION_KEYS: seq<Name> := [
    WorkspaceBasePath, WorkspaceMaxConcurrent, RagEnabled, RagTimeout, YtdlpPath, NlmPath,
    McpConfigPath, Optimization, OptimizationValibot, OptimizationDiscovery, OptimizationCompileCache,
    OptimizationSqliteCache, ToolsRipgrep, ToolsFd, ToolsJq, ToolsYq, ToolsAstGrep, ToolsSd,
    ToolsHyperfine, ToolsBat, ToolsGh
  ]

  const KEYS: seq<Name> := CORE_KEYS + SECTION_KEYS

  function DefaultOf(key: Name): Json {
    match key
    case ModelSettings => DEFAULT_MODEL_SETTINGS
    case CommitDocs => Bool(true)
    case SearchGitignored => Bool(false)
    case BranchingStrategy => Str("none")
    case PhaseBranchTemplate => Str("bgsd/phase-{phase}-{slug}")
    case MilestoneBranchTemplate => Str("bgsd/{milestone}-{slug}")
    case Research => Bool(true)
    case PlanChecker => Bool(true)
    case Verifier => Bool(true)
    case Parallelization => Bool(true)
    case BraveSearch => Bool(false)
    case Mode => Str("interactive")
    case Depth => Str("standard")
    case TestCommands => Obj(map[])
    case TestGate => Bool(true)
    case ContextWindow => Num(200000)
    case ContextTargetPercent => Num(50)
    case Runtime => Str("auto")
    case WorkspaceBasePath => Str("/tmp/gsd-workspaces")
    case WorkspaceMaxConcurrent => Num(3)
    case RagEnabled => Bool(true)
    case RagTimeout => Num(30)
    case YtdlpPath => Str("")
    case NlmPath => Str("")
    case McpConfigPath => Str("")
    case Optimization => Obj(map[])
    case OptimizationValibot => Bool(true)
    case OptimizationDiscovery => Str("optimized")
    case OptimizationCompileCache => Bool(false)
    case OptimizationSqliteCache => Bool(true)
    case ToolsRipgrep => Bool(true)
    case ToolsFd => Bool(true)
    case ToolsJq => Bool(true)
    case ToolsYq => Bool(true)
    case ToolsAstGrep => Bool(true)
    case ToolsSd => Bool(true)
    case ToolsHyperfine => Bool(true)
    case ToolsBat => Bool(true)
    case ToolsGh => Bool(true)
    case _ => Null
  }

  // The field a key has in each of the six sections.
  function PlanningField(key: Name): Option<Name> {
    match key
    case CommitDocs => Some(CommitDocs)
    case SearchGitignored => Some(SearchGitignored)
    case _ => None
  }

  function GitField(key: Name): Option<Name> {
    match key
    case BranchingStrategy => Some(BranchingStrategy)
    case PhaseBranchTemplate => Some(PhaseBranchTemplate)
    case MilestoneBranchTemplate => Some(MilestoneBranchTemplate)
    case _ => None
  }

  function WorkflowField(key: Name): Option<Name> {
    match key
    case Research => Some(Research)
    case PlanChecker => Some(PlanCheck)
    case Verifier => Some(Verifier)
    case RagEnabled => Some(Rag)
    case RagTimeout => Some(RagTimeout)
    case _ => None
  }

  function WorkspaceField(key: Name): Option<Name> {
    match key
    case WorkspaceBasePath => Some(BasePath)
    case WorkspaceMaxConcurrent => Some(MaxConcurrent)
    case _ => None
  }

  function OptimizationField(key: Name): Option<Name> {
    match key
    case OptimizationValibot => Some(Valibot)
    case OptimizationDiscovery => Some(Discovery)
    case OptimizationCompileCache => Some(CompileCache)
    case OptimizationSqliteCache => Some(SqliteCache)
    case _ => None
  }

  function ToolsField(key: Name): Option<Name> {
    match key
    case ToolsRipgrep => Some(Ripgrep)
    case ToolsFd => Some(Fd)
    case ToolsJq => Some(Jq)
    case ToolsYq => Some(Yq)
    case ToolsAstGrep => Some(AstGrep)
    case ToolsSd => Some(Sd)
    case ToolsHyperfine => Some(Hyperfine)
    case ToolsBat => Some(Bat)
    case ToolsGh => Some(Gh)
    case _ => None
  }

  // The preferred place of a key that lives in a section.
  function NestedOf(key: Name): Option<Path> {
    if PlanningField(key).Some? then Some(Path(Planning, PlanningField(key).value))
    else if GitField(key).Some? then Some(Path(Git, GitField(key).value))
    else if WorkflowField(key).Some? then Some(Path(Workflow, WorkflowField(key).value))
    else if WorkspaceField(key).Some? then Some(Path(Workspace, WorkspaceField(key).value))
    else if OptimizationField(key).Some? then Some(Path(Optimization, OptimizationField(key).value))
    else if ToolsField(key).Some? then Some(Path(Tools, ToolsField(key).value))
    else None
  }

  function AliasesOf(key: Name): seq<Name> {
    if key == Research then [ResearchEnabled] else []
  }

  // The only key with a coercion rule.
  predicate Coerces(key: Name) { key == Parallelization }

  predicate IsSection(n: Name) {
    n == Planning || n == Git || n == Workflow || n == Workspace || n == Optimization || n == Tools
  }

  // The key a field of a section belongs to: no place is used twice.
  function PlanningKey(field: Name): Option<Name> {
    match field
    case CommitDocs => Some(CommitDocs)
    case SearchGitignored => Some(SearchGitignored)
    case _ => None
  }

  function GitKey(field: Name): Option<Name> {
    match field
    case BranchingStrategy => Some(BranchingStrategy)
    case PhaseBranchTemplate => Some(PhaseBranchTemplate)
    case MilestoneBranchTemplate => Some(MilestoneBranchTemplate)
    case _ => None
  }

  function WorkflowKey(field: Name): Option<Name> {
    match field
    case Research => Some(Research)
    case PlanCheck => Some(PlanChecker)
    case Verifier => Some(Verifier)
    case Rag => Some(RagEnabled)
    case RagTimeout => Some(RagTimeout)
    case _ => None
  }

  function WorkspaceKey(field: Name): Option<Name> {
    match field
    case BasePath => Some(WorkspaceBasePath)
    case MaxConcurrent => Some(WorkspaceMaxConcurrent)
    case _ => None
  }

  function OptimizationKey(field: Name): Option<Name> {
    match field
    case Valibot => Some(OptimizationValibot)
    case Discovery => Some(OptimizationDiscovery)
    case CompileCache => Some(OptimizationCompileCache)
    case SqliteCache => Some(OptimizationSqliteCache)
    case _ => None
  }

  function ToolsKey(field: Name): Option<Name> {
    match field
    case Ripgrep => Some(ToolsRipgrep)
    case Fd => Some(ToolsFd)
    case Jq => Some(ToolsJq)
    case Yq => Some(ToolsYq)
    case AstGrep => Some(ToolsAstGrep)
    case Sd => Some(ToolsSd)
    case Hyperfine => Some(ToolsHyperfine)
    case Bat => Some(ToolsBat)
    case Gh => Some(ToolsGh)
    case _ => None
  }

  function OwnerOf(p: Path): Option<Name> {
    match p.section
    case Planning => PlanningKey(p.field)
    case Git => GitKey(p.field)
    case Workflow => WorkflowKey(p.field)
    case Workspace => WorkspaceKey(p.field)
    case Optimization => OptimizationKey(p.field)
    case Tools => ToolsKey(p.field)
    case _ => None
  }

  lemma {:induction false} PlacesOfPlanning(key: Name)
    requires PlanningField(key).Some?
    ensures OwnerOf(Path(Planning, PlanningField(key).value)) == Some(key)
  {
    hide GitKey, WorkflowKey, WorkspaceKey, OptimizationKey, ToolsKey;
  }

  lemma {:induction false} PlacesOfGit(key: Name)
    requires GitField(key).Some?
    ensures OwnerOf(Path(Git, GitField(key).value)) == Some(key)
  {
    hide PlanningKey, WorkflowKey, WorkspaceKey, OptimizationKey, ToolsKey;
  }

  lemma {:induction false} PlacesOfWorkflow(key: Name)
    requires WorkflowField(key).Some?
    ensures OwnerOf(Path(Workflow, WorkflowField(key).value)) == Some(key)
  {
    hide PlanningKey, GitKey, WorkspaceKey, OptimizationKey, ToolsKey;
  }

  lemma {:induction false} PlacesOfWorkspace(key: Name)
    requires WorkspaceField(key).Some?
    ensures OwnerOf(Path(Workspace, WorkspaceField(key).value)) == Some(key)
  {
    hide PlanningKey, GitKey, WorkflowKey, OptimizationKey, ToolsKey;
  }

  lemma {:induction false} PlacesOfOptimization(key: Name)
    requires OptimizationField(key).Some?
    ensures OwnerOf(Path(Optimization, OptimizationField(key).value)) == Some(key)
  {
    hide PlanningKey, GitKey, WorkflowKey, WorkspaceKey, ToolsKey;
  }

  lemma {:induction false} ToolsKeys(key: Name)
    requires ToolsField(key).Some?
    ensures ToolsKey(ToolsField(key).value) == Some(key)
  {
  }

  lemma {:induction false} PlacesOfTools(key: Name)
    requires ToolsField(key).Some?
    ensures OwnerOf(Path(Tools, ToolsField(key).value)) == Some(key)
  {
    ToolsKeys(key);
    hide PlanningKey, GitKey, WorkflowKey, WorkspaceKey, OptimizationKey, ToolsKey, ToolsField;
  }

  lemma {:induction false} PlacesAreDistinct(key: Name)
    requires NestedOf(key).Some?
    ensures OwnerOf(NestedOf(key).value) == Some(key)
  {
    hide OwnerOf, PlanningField, GitField, WorkflowField, WorkspaceField, OptimizationField, ToolsField;
    if PlanningField(key).Some? {
      PlacesOfPlanning(key);
    } else if GitField(key).Some? {
      PlacesOfGit(key);
    } else if WorkflowField(key).Some? {
      PlacesOfWorkflow(key);
    } else if WorkspaceField(key).Some? {
      PlacesOfWorkspace(key);
    } else if OptimizationField(key).Some? {
      PlacesOfOptimization(key);
    } else if ToolsField(key).Some? {
      PlacesOfTools(key);
    }
  }

  lemma {:induction false} OwnerInPlanning(field: Name)
    ensures PlanningKey(field).Some? ==> NestedOf(PlanningKey(field).value) == Some(Path(Planning, field))
    ensures GitKey(field).Some? ==> NestedOf(GitKey(field).value) == Some(Path(Git, field))
  {
  }

  lemma {:induction false} OwnerInWorkflow(field: Name)
    ensures WorkflowKey(field).Some? ==> NestedOf(WorkflowKey(field).value) == Some(Path(Workflow, field))
    ensures WorkspaceKey(field).Some? ==> NestedOf(WorkspaceKey(field).value) == Some(Path(Workspace, field))
  {
  }

  lemma {:induction false} OwnerInOptimization(field: Name)
    ensures OptimizationKey(field).Some? ==> NestedOf(OptimizationKey(field).value) == Some(Path(Optimization, field))
  {
  }

  lemma {:induction false} OwnerInTools(field: Name)
    ensures ToolsKey(field).Some? ==> NestedOf(ToolsKey(field).value) == Some(Path(Tools, field))
  {
    if ToolsKey(field).Some? {
      ToolsFields(field);
      OnlyTools(ToolsKey(field).value);
    }
    hide ToolsKey, ToolsField, PlanningField, GitField, WorkflowField, WorkspaceField, OptimizationField;
  }

  lemma {:induction false} ToolsFields(field: Name)
    requires ToolsKey(field).Some?
    ensures ToolsField(ToolsKey(field).value) == Some(field)
  {
  }

  // A tool is in no other section.
  lemma {:induction false} OnlyTools(key: Name)
    requires ToolsField(key).Some?
    ensures PlanningField(key).None? && GitField(key).None? && WorkflowField(key).None?
    ensures WorkspaceField(key).None? && OptimizationField(key).None?
  {
  }

  lemma {:induction false} OwnerHasPlace(key: Name, p: Path)
    requires OwnerOf(p) == Some(key)
    ensures NestedOf(key) == Some(p)
  {
    OwnerInPlanning(p.field);
    OwnerInWorkflow(p.field);
    OwnerInOptimization(p.field);
    OwnerInTools(p.field);
    hide NestedOf, PlanningKey, GitKey, WorkflowKey, WorkspaceKey, OptimizationKey, ToolsKey;
  }

  // The table of the fields of each section and the table of the places of the keys agree.
  lemma {:induction false} OwnerExactlyWhen(key: Name, p: Path)
    ensures NestedOf(key) == Some(p) <==> OwnerOf(p) == Some(key)
  {
    hide NestedOf, OwnerOf;
    if NestedOf(key) == Some(p) {
      PlacesAreDistinct(key);
    }
    if OwnerOf(p) == Some(key) {
      OwnerHasPlace(key, p);
    }
  }

  lemma {:induction false} SectionHasNoPlace(n: Name)
    requires IsSection(n)
    ensures NestedOf(n).None?
  {
  }

  lemma {:induction false} PlanCheckerIsNoField(key: Name)
    ensures WorkflowField(key) != Some(PlanChecker)
  {
  }

  lemma {:induction false} SectionsAreNotNested(key: Name)
    requires NestedOf(key).Some?
    ensures IsSection(NestedOf(key).value.section) && !IsSection(key)
    ensures NestedOf(key).value != Path(Workflow, PlanChecker)
  {
    PlanCheckerIsNoField(key);
    hide PlanningField, GitField, WorkflowField, WorkspaceField, OptimizationField, ToolsField;
    if IsSection(key) {
      SectionHasNoPlace(key);
    }
  }

  lemma {:induction false} CoreKeysAreNotSections(i: nat)
    requires i < |CORE_KEYS|
    ensures !IsSection(CORE_KEYS[i]) && CORE_KEYS[i] != ResearchEnabled
  {
  }

  lemma {:induction false} SectionKeysAreNotSections(i: nat)
    requires i < |SECTION_KEYS|
    ensures IsSection(SECTION_KEYS[i]) ==> SECTION_KEYS[i] == Optimization
    ensures SECTION_KEYS[i] != ResearchEnabled
  {
  }

  // A section that is also a key: only `optimization`. The one alias is not a key.
  lemma {:induction false} KeysAreNotSections(i: nat)
    requires i < |KEYS|
    ensures IsSection(KEYS[i]) ==> KEYS[i] == Optimization
    ensures KEYS[i] != ResearchEnabled
  {
    if i < |CORE_KEYS| {
      CoreKeysAreNotSections(i);
    } else {
      SectionKeysAreNotSections(i - |CORE_KEYS|);
    }
    hide IsSection;
  }
}

/**
 * The pure part of `DefaultConfigLoader` (src/configLoader.ts): building the
 * configuration from what `.bman/config.json` parsed to, and validating a
 * configuration. The file is given as the value `readConfigFile` returns
 * (an empty object when there is no file) or the error `JSON.parse`
 * raised; the path arithmetic of the `path` module is a parameter.
 */
module ConfigLoader {
  import opened Types
  import opened Text
  import opened Json
  import opened AgentRegistry
  import TasksFile

  /** The configuration `load` returns. `tasksFile` and `outputDir` are whatever the file held, or the defaults. */
  datatype Config = Config(agent: AgentConfig, tasksFile: Json, outputDir: Json)

  const DefaultAgentName := "codex"

  /** `isPlainObject` of a property read (`None` is `undefined`). */
  predicate IsPlainObject(v: Option<Json>) {
    v.Some? && v.value.JObject?
  }

  /** The members of `isPlainObject(v) ? v : {}`. */
  function MembersOf(v: Option<Json>): seq<(string, Json)> {
    if IsPlainObject(v) then v.value.members else []
  }

  /** `isNonEmptyString`. */
  predicate IsNonEmptyString(v: Json) {
    v.JString? && !IsBlank(v.s)
  }

  /** `isNonEmptyStringArray` of an array of strings. */
  predicate IsNonEmptyStringArray(items: seq<string>) {
    |items| > 0 && forall i :: 0 <= i < |items| ==> !IsBlank(items[i])
  }

  /** `normalizeAgentName`. */
  function NormalizeAgentName(agent: Option<Json>): string {
    if !(agent.Some? && agent.value.JString?) then DefaultAgentName
    else
      var normalized := ToLower(Trim(agent.value.s));
      if normalized == "" then DefaultAgentName else normalized
  }

  /** A name that is trimmed, lower-case and not blank. */
  predicate IsAgentName(name: string) {
    !IsBlank(name) && IsTrimmed(name) && ToLower(name) == name
  }

  lemma DefaultAgentNameIsAgentName()
    ensures IsAgentName(DefaultAgentName)
  {
    assert DefaultAgentName[0] == 'c' && DefaultAgentName[4] == 'x';
    assert DefaultAgentName == ['c'] + "odex";
  }

  /**
   * The default agent is `codex` unless the value is a string that is not
   * blank, which is then trimmed and lower-cased.
   */
  lemma NormalizedAgentName(agent: Option<Json>)
    ensures agent.Some? && agent.value.JString? && !IsBlank(agent.value.s) ==> NormalizeAgentName(agent) == ToLower(Trim(agent.value.s))
    ensures !(agent.Some? && agent.value.JString?) || IsBlank(agent.value.s) ==> NormalizeAgentName(agent) == DefaultAgentName
    ensures IsAgentName(NormalizeAgentName(agent))
  {
    DefaultAgentNameIsAgentName();
    if agent.Some? && agent.value.JString? {
      TrimShape(agent.value.s);
      ToLowerFacts(Trim(agent.value.s));
    }
  }

  /** Normalizing a normalized name changes nothing. */
  lemma NormalizeAgentNameIdempotent(agent: Option<Json>)
    ensures NormalizeAgentName(Some(JString(NormalizeAgentName(agent)))) == NormalizeAgentName(agent)
  {
    var name := NormalizeAgentName(agent);
    NormalizedAgentName(agent);
    TrimTrimmed(name);
  }

  /** `normalizeRegistryKey`. */
  function NormalizeRegistryKey(key: string): string {
    ToLower(Trim(key))
  }

  /** `value.map((item) => (typeof item === "string" ? item.trim() : ""))`. */
  function TrimItems(items: seq<Json>): (r: seq<string>)
    ensures |r| == |items|
    ensures forall i :: 0 <= i < |items| ==> r[i] == if items[i].JString? then Trim(items[i].s) else ""
  {
    if items == [] then []
    else [if items[0].JString? then Trim(items[0].s) else ""] + TrimItems(items[1..])
  }

  /** `normalizeCmd`: `None` is `null`. */
  function NormalizeCmd(value: Option<Json>): Option<seq<string>> {
    if !(value.Some? && value.value.JArray?) then None
    else
      var trimmed := TrimItems(value.value.items);
      if IsNonEmptyStringArray(trimmed) then Some(trimmed) else None
  }

  /**
   * A command is kept exactly when it is a non-empty array of strings none
   * of which is blank; it is kept with every item trimmed.
   */
  lemma NormalizeCmdIff(value: Option<Json>)
    ensures NormalizeCmd(value).Some? <==>
      value.Some? && value.value.JArray? && |value.value.items| > 0 &&
      forall i :: 0 <= i < |value.value.items| ==> value.value.items[i].JString? && !IsBlank(value.value.items[i].s)
    ensures NormalizeCmd(value).Some? ==>
      var items := value.value.items;
      |NormalizeCmd(value).value| == |items| &&
      forall i :: 0 <= i < |items| ==> NormalizeCmd(value).value[i] == Trim(items[i].s) && IsTrimmed(Trim(items[i].s))
  {
    if value.Some? && value.value.JArray? {
      var items := value.value.items;
      forall i | 0 <= i < |items|
        ensures IsTrimmed(TrimItems(items)[i])
        ensures IsBlank(TrimItems(items)[i]) <==> !items[i].JString? || IsBlank(items[i].s)
      {
        if items[i].JString? {
          TrimShape(items[i].s);
          TrimIdempotent(items[i].s);
          TrimShape(Trim(items[i].s));
        }
      }
    }
  }

  /** `{ cmd: normalizeCmd(entry.cmd) ?? [] }` for a user entry. */
  function UserEntry(value: Json): RegistryEntry {
    var cmd := NormalizeCmd(Get(MembersOf(Some(value)), "cmd"));
    RegistryEntry(if cmd.Some? then cmd.value else [])
  }

  /** The user entry at `i` is stored under `key`. */
  predicate Stores(members: seq<(string, Json)>, i: int, key: string) {
    0 <= i < |members| && NormalizeRegistryKey(members[i].0) == key && key != ""
  }

  /** The registry `buildRegistry` holds after the loop has visited `members`, starting from `reg`. */
  function OverlayUser(reg: Registry, members: seq<(string, Json)>): Registry
    decreases |members|
  {
    if members == [] then reg
    else
      var key := NormalizeRegistryKey(members[0].0);
      OverlayUser(if key == "" then reg else Put(reg, key, UserEntry(members[0].1)), members[1..])
  }

  /** What `buildRegistry` returns. */
  function BuiltRegistry(rawRegistry: Option<Json>): Registry {
    if IsPlainObject(rawRegistry) then OverlayUser(BuiltinRegistry, rawRegistry.value.members) else BuiltinRegistry
  }

  /** `buildRegistry`: the built-in agents, then each user entry assigned in turn. */
  method BuildRegistry(rawRegistry: Option<Json>) returns (registry: Registry)
    ensures registry == BuiltRegistry(rawRegistry)
  {
    registry := BuiltinRegistry;
    if !IsPlainObject(rawRegistry) {
      return;
    }
    var entries := rawRegistry.value.members;
    var i := 0;
    while i < |entries|
      invariant 0 <= i <= |entries|
      invariant OverlayUser(registry, entries[i..]) == BuiltRegistry(rawRegistry)
    {
      var (rawKey, value) := entries[i];
      assert entries[i..][1..] == entries[i + 1..];
      var key := NormalizeRegistryKey(rawKey);
      if key == "" {
        i := i + 1;
        continue;
      }
      var entry := MembersOf(Some(value));
      var cmd := NormalizeCmd(Get(entry, "cmd"));
      registry := Put(registry, key, RegistryEntry(if cmd.Some? then cmd.value else []));
      i := i + 1;
    }
    assert entries[i..] == [];
  }

  lemma StoresShift(members: seq<(string, Json)>, key: string)
    requires members != []
    ensures forall j :: 0 <= j ==> (Stores(members[1..], j, key) <==> Stores(members, j + 1, key))
  {
    forall j | 0 <= j
      ensures Stores(members[1..], j, key) <==> Stores(members, j + 1, key)
    {
      if 0 <= j < |members| - 1 {
        assert members[1..][j] == members[j + 1];
      }
    }
  }

  /** A key no user entry is stored under reads what it read before the loop. */
  lemma {:induction false} OverlayUntouched(reg: Registry, members: seq<(string, Json)>, key: string)
    requires forall i :: !Stores(members, i, key)
    ensures Lookup(OverlayUser(reg, members), key) == Lookup(reg, key)
    decreases |members|
  {
    if members != [] {
      var k := NormalizeRegistryKey(members[0].0);
      var next := if k == "" then reg else Put(reg, k, UserEntry(members[0].1));
      StoresShift(members, key);
      OverlayUntouched(next, members[1..], key);
      assert !Stores(members, 0, key);
      if k != "" {
        PutKeepsOthers(reg, k, UserEntry(members[0].1), key);
      }
    }
  }

  /** A key reads the entry of the last user entry stored under it. */
  lemma {:induction false} OverlayLastWins(reg: Registry, members: seq<(string, Json)>, key: string, i: nat)
    requires Stores(members, i, key)
    requires forall j :: i < j ==> !Stores(members, j, key)
    ensures Lookup(OverlayUser(reg, members), key) == Some(UserEntry(members[i].1))
    decreases |members|
  {
    var k := NormalizeRegistryKey(members[0].0);
    var next := if k == "" then reg else Put(reg, k, UserEntry(members[0].1));
    StoresShift(members, key);
    if i == 0 {
      PutReadsEntry(reg, key, UserEntry(members[0].1));
      OverlayUntouched(next, members[1..], key);
    } else {
      OverlayLastWins(next, members[1..], key, i - 1);
      assert members[1..][i - 1] == members[i];
    }
  }

  /** The loop keeps the keys distinct. */
  lemma {:induction false} OverlayDistinct(reg: Registry, members: seq<(string, Json)>)
    requires DistinctKeys(reg)
    ensures DistinctKeys(OverlayUser(reg, members))
    decreases |members|
  {
    if members != [] {
      var k := NormalizeRegistryKey(members[0].0);
      if k != "" {
        PutKeepsDistinct(reg, k, UserEntry(members[0].1));
        OverlayDistinct(Put(reg, k, UserEntry(members[0].1)), members[1..]);
      } else {
        OverlayDistinct(reg, members[1..]);
      }
    }
  }

  /** The keys after the loop: those before it and those user entries are stored under. */
  lemma {:induction false} OverlayHasKey(reg: Registry, members: seq<(string, Json)>, key: string)
    ensures HasKey(OverlayUser(reg, members), key) <==> HasKey(reg, key) || exists i :: Stores(members, i, key)
    decreases |members|
  {
    if members != [] {
      var k := NormalizeRegistryKey(members[0].0);
      var next := if k == "" then reg else Put(reg, k, UserEntry(members[0].1));
      assert HasKey(next, key) <==> HasKey(reg, key) || Stores(members, 0, key) by {
        if k != "" {
          if k == key {
            PutReadsEntry(reg, k, UserEntry(members[0].1));
          } else {
            PutKeepsOthers(reg, k, UserEntry(members[0].1), key);
          }
        }
      }
      OverlayHasKey(next, members[1..], key);
      StoresShift(members, key);
      if exists i :: Stores(members, i, key) {
        var i :| Stores(members, i, key);
        if i > 0 {
          assert Stores(members[1..], i - 1, key);
        }
      }
    }
  }

  lemma BuiltRegistryIsOverlay(rawRegistry: Option<Json>)
    ensures BuiltRegistry(rawRegistry) == OverlayUser(BuiltinRegistry, MembersOf(rawRegistry))
  {
  }

  /**
   * The registry `buildRegistry` returns has no key twice, and its keys are
   * the built-in agents and the normalized keys user entries are stored
   * under; so each built-in agent is there and the empty key never is.
   */
  lemma BuiltRegistryKeys(rawRegistry: Option<Json>, key: string)
    ensures var reg := BuiltRegistry(rawRegistry);
      && DistinctKeys(reg)
      && (HasKey(reg, key) <==> HasKey(BuiltinRegistry, key) || exists i :: Stores(MembersOf(rawRegistry), i, key))
      && HasKey(reg, "codex") && HasKey(reg, "gemini") && HasKey(reg, "claude")
      && !HasKey(reg, "")
  {
    BuiltinKeys();
    var members := MembersOf(rawRegistry);
    BuiltRegistryIsOverlay(rawRegistry);
    OverlayDistinct(BuiltinRegistry, members);
    OverlayHasKey(BuiltinRegistry, members, key);
    OverlayHasKey(BuiltinRegistry, members, "codex");
    OverlayHasKey(BuiltinRegistry, members, "gemini");
    OverlayHasKey(BuiltinRegistry, members, "claude");
    OverlayHasKey(BuiltinRegistry, members, "");
  }

  /** A key no user entry is stored under keeps its built-in entry, or stays absent. */
  lemma BuiltRegistryUntouched(rawRegistry: Option<Json>, key: string)
    requires forall i :: !Stores(MembersOf(rawRegistry), i, key)
    ensures Lookup(BuiltRegistry(rawRegistry), key) == Lookup(BuiltinRegistry, key)
  {
    BuiltRegistryIsOverlay(rawRegistry);
    OverlayUntouched(BuiltinRegistry, MembersOf(rawRegistry), key);
  }

  /** A user key holds the entry of the last user entry stored under it. */
  lemma BuiltRegistryLastWins(rawRegistry: Option<Json>, key: string, i: nat)
    requires Stores(MembersOf(rawRegistry), i, key)
    requires forall j :: i < j ==> !Stores(MembersOf(rawRegistry), j, key)
    ensures Lookup(BuiltRegistry(rawRegistry), key) == Some(UserEntry(MembersOf(rawRegistry)[i].1))
  {
    BuiltRegistryIsOverlay(rawRegistry);
    OverlayLastWins(BuiltinRegistry, MembersOf(rawRegistry), key, i);
  }

  /** `buildAgentConfig`. */
  function BuildAgentConfig(rawAgent: Option<Json>): AgentConfig {
    var agentObject := MembersOf(rawAgent);
    AgentConfig(NormalizeAgentName(Get(agentObject, "default")), BuiltRegistry(Get(agentObject, "registry")))
  }

  const BranchRequiredMessage := "Branch name is required to determine default tasks file path."
  const NullConfigMessage := "Cannot read properties of null (reading 'tasksFile')"

  /** `fileConfig[key]` on a parsed value other than `null`: only objects have the properties read. */
  function Property(file: Json, key: string): Option<Json> {
    if file.JObject? then Get(file.members, key) else None
  }

  /** `null` or `undefined`, what `??` replaces. */
  predicate Nullish(v: Option<Json>) {
    v.None? || v.value.JNull?
  }

  /**
   * The TypeError `path.isAbsolute` raises, inside `resolveDir` and
   * `resolvePath`, for an argument that is not a string.
   */
  const PathArgumentMessage := "The \"path\" argument must be of type string."

  /**
   * `load`, without the directories it creates: `fileConfig` is what
   * `readConfigFile` returned or raised, `tasksFilePath` maps a tracker
   * folder name to the default tasks file under the configuration directory,
   * and `defaultOutputDir` is the default output directory there. The two
   * paths are resolved before the directories are created, the output
   * directory first, and resolving anything but a string raises.
   */
  function Load(branchName: string, fileConfig: Result<Json>, tasksFilePath: string -> string, defaultOutputDir: string): Result<Config> {
    if fileConfig.Err? then Err(fileConfig.msg)
    else if fileConfig.value.JNull? then Err(NullConfigMessage)
    else
      var file := fileConfig.value;
      var trimmedBranchName := Trim(branchName);
      var configured := Property(file, "tasksFile");
      if !TruthyOpt(configured) && trimmedBranchName == "" then Err(BranchRequiredMessage)
      else
        var agent := BuildAgentConfig(Property(file, "agent"));
        var tasksFile :=
          if Nullish(configured) then
            match TasksFile.TrackerFolderName(trimmedBranchName)
            case Err(e) => Err(e)
            case Ok(folder) => Ok(JString(tasksFilePath(folder)))
          else Ok(configured.value);
        match tasksFile
        case Err(e) => Err(e)
        case Ok(tasksFile) =>
          var configuredOutputDir := Property(file, "outputDir");
          var outputDir := if Nullish(configuredOutputDir) then JString(defaultOutputDir) else configuredOutputDir.value;
          if !outputDir.JString? then Err(PathArgumentMessage)
          else if !tasksFile.JString? then Err(PathArgumentMessage)
          else Ok(Config(agent, tasksFile, outputDir))
  }

  /** A configured value that `??` keeps and that is not a string. */
  predicate KeptNonString(v: Option<Json>) {
    !Nullish(v) && !v.value.JString?
  }

  /**
   * Loading fails exactly when reading the file failed, the file held
   * `null`, no tasks file is configured (a falsy value) and the branch name
   * is blank, or a configured tasks file or output directory is not a
   * string. Otherwise both paths are strings: a configured one is kept as it
   * is, a missing one is the default, and the default tasks file lies in the
   * tracker folder of the trimmed branch name.
   */
  lemma LoadOutcome(branchName: string, fileConfig: Result<Json>, tasksFilePath: string -> string, defaultOutputDir: string)
    ensures var r := Load(branchName, fileConfig, tasksFilePath, defaultOutputDir);
      && (r.Err? <==>
            (|| fileConfig.Err? || fileConfig.value.JNull?
             || (!TruthyOpt(Property(fileConfig.value, "tasksFile")) && IsBlank(branchName))
             || KeptNonString(Property(fileConfig.value, "outputDir")) || KeptNonString(Property(fileConfig.value, "tasksFile"))))
      && (fileConfig.Ok? && !fileConfig.value.JNull? && !TruthyOpt(Property(fileConfig.value, "tasksFile")) && IsBlank(branchName) ==> r == Err(BranchRequiredMessage))
      && ((&& fileConfig.Ok? && !fileConfig.value.JNull? && !(!TruthyOpt(Property(fileConfig.value, "tasksFile")) && IsBlank(branchName))
           && (KeptNonString(Property(fileConfig.value, "outputDir")) || KeptNonString(Property(fileConfig.value, "tasksFile"))))
          ==> r == Err(PathArgumentMessage))
      && (r.Ok? ==> var file := fileConfig.value;
           && r.value.agent == BuildAgentConfig(Property(file, "agent"))
           && r.value.tasksFile.JString? && r.value.outputDir.JString?
           && (!Nullish(Property(file, "tasksFile")) ==> r.value.tasksFile == Property(file, "tasksFile").value)
           && (Nullish(Property(file, "tasksFile")) ==>
                 TasksFile.TrackerFolderName(branchName).Ok? &&
                 r.value.tasksFile == JString(tasksFilePath(TasksFile.TrackerFolderName(branchName).value)))
           && (!Nullish(Property(file, "outputDir")) ==> r.value.outputDir == Property(file, "outputDir").value)
           && (Nullish(Property(file, "outputDir")) ==> r.value.outputDir == JString(defaultOutputDir)))
  {
    TrimShape(branchName);
    TrimIdempotent(branchName);
    TasksFile.FolderNameDefined(Trim(branchName));
  }

  const DefaultNotStringMessage := "agent.default must be a non-empty string."
  const TasksFileMessage := "tasksFile must be a non-empty string."
  const OutputDirMessage := "outputDir must be a non-empty string."

  function UndefinedDefaultMessage(name: string): string {
    "agent.default \"" + name + "\" is not defined in agent.registry."
  }

  function InvalidEntryMessage(key: string): string {
    "agent.registry." + key + ".cmd must be a non-empty array of strings."
  }

  /** `validateAgentConfig`: `None` when it does not throw. */
  function ValidateAgentConfig(agent: AgentConfig): Option<string> {
    if IsBlank(agent.defaultAgent) then Some(DefaultNotStringMessage)
    else if !HasKey(agent.registry, agent.defaultAgent) then Some(UndefinedDefaultMessage(agent.defaultAgent))
    else None
  }

  predicate ValidEntry(entry: RegistryEntry) {
    IsNonEmptyStringArray(entry.cmd)
  }

  /** Entry `k` is the first, in key order, whose command is not a non-empty array of non-blank strings. */
  predicate FirstInvalidAt(reg: Registry, k: int) {
    0 <= k < |reg| && !ValidEntry(reg[k].1) && forall j :: 0 <= j < k ==> ValidEntry(reg[j].1)
  }

  /** What `validateRegistryEntries` throws, if anything. */
  function FirstInvalidEntry(reg: Registry): (r: Option<string>)
    ensures r.None? <==> forall i :: 0 <= i < |reg| ==> ValidEntry(reg[i].1)
    ensures r.Some? ==> exists k :: FirstInvalidAt(reg, k) && r.value == InvalidEntryMessage(reg[k].0)
  {
    if reg == [] then None
    else if !ValidEntry(reg[0].1) then Some(InvalidEntryMessage(reg[0].0))
    else
      var r := FirstInvalidEntry(reg[1..]);
      assert forall i :: 1 <= i < |reg| ==> reg[i] == reg[1..][i - 1];
      if r.Some? then
        var k :| FirstInvalidAt(reg[1..], k) && r.value == InvalidEntryMessage(reg[1..][k].0);
        assert FirstInvalidAt(reg, k + 1);
        r
      else r
  }

  /** `validateRegistryEntries`: the keys in order, stopping at the first entry whose command is unusable. */
  method ValidateRegistryEntries(registry: Registry) returns (error: Option<string>)
    ensures error == FirstInvalidEntry(registry)
  {
    var keys := KeysOf(registry);
    var i := 0;
    while i < |keys|
      invariant 0 <= i <= |keys|
      invariant forall j :: 0 <= j < i ==> ValidEntry(registry[j].1)
    {
      var entry := registry[i].1;
      if !IsNonEmptyStringArray(entry.cmd) {
        ghost var r := FirstInvalidEntry(registry);
        ghost var k :| FirstInvalidAt(registry, k) && r.value == InvalidEntryMessage(registry[k].0);
        assert k == i;
        return Some(InvalidEntryMessage(keys[i]));
      }
      i := i + 1;
    }
    return None;
  }

  /** `validate`: `None` when it does not throw. */
  function Validate(config: Config): Option<string> {
    var agentError := ValidateAgentConfig(config.agent);
    if agentError.Some? then agentError
    else if !IsNonEmptyString(config.tasksFile) then Some(TasksFileMessage)
    else if !IsNonEmptyString(config.outputDir) then Some(OutputDirMessage)
    else FirstInvalidEntry(config.agent.registry)
  }

  /**
   * A configuration is valid exactly when the default agent is a non-blank
   * key of the registry, the tasks file and the output directory are
   * non-blank strings, and every registry entry has a non-empty command of
   * non-blank strings.
   */
  lemma ValidateOkIff(config: Config)
    ensures Validate(config).None? <==>
      && !IsBlank(config.agent.defaultAgent) && HasKey(config.agent.registry, config.agent.defaultAgent)
      && IsNonEmptyString(config.tasksFile) && IsNonEmptyString(config.outputDir)
      && forall i :: 0 <= i < |config.agent.registry| ==> ValidEntry(config.agent.registry[i].1)
  {
  }

  /**
   * The checks run in the order agent configuration, tasks file, output
   * directory, registry entries: each failure is reported whatever the
   * later checks would say.
   */
  lemma ValidationOrder(config: Config)
    ensures IsBlank(config.agent.defaultAgent) ==> Validate(config) == Some(DefaultNotStringMessage)
    ensures ValidateAgentConfig(config.agent).None? && !IsNonEmptyString(config.tasksFile) ==> Validate(config) == Some(TasksFileMessage)
    ensures ValidateAgentConfig(config.agent).None? && IsNonEmptyString(config.tasksFile) && !IsNonEmptyString(config.outputDir) ==>
      Validate(config) == Some(OutputDirMessage)
    ensures ValidateAgentConfig(config.agent).None? && IsNonEmptyString(config.tasksFile) && IsNonEmptyString(config.outputDir) ==>
      Validate(config) == FirstInvalidEntry(config.agent.registry)
  {
  }

  /** A registry entry with an empty command makes the configuration invalid. */
  lemma EmptyCommandInvalid(config: Config, key: string)
    requires Lookup(config.agent.registry, key) == Some(RegistryEntry([]))
    ensures Validate(config).Some?
  {
    var i :| 0 <= i < |config.agent.registry| && config.agent.registry[i] == (key, RegistryEntry([]));
    assert !ValidEntry(config.agent.registry[i].1);
  }

  /**
   * A loaded configuration whose last user registry entry for a key has no
   * usable command (stored as `[]`) does not validate.
   */
  lemma UnusableUserCommandInvalid(branchName: string, fileConfig: Result<Json>, tasksFilePath: string -> string, defaultOutputDir: string, key: string, i: nat)
    requires Load(branchName, fileConfig, tasksFilePath, defaultOutputDir).Ok?
    requires var agent := MembersOf(Property(fileConfig.value, "agent"));
      var members := MembersOf(Get(agent, "registry"));
      && Stores(members, i, key) && (forall j :: i < j ==> !Stores(members, j, key))
      && NormalizeCmd(Get(MembersOf(Some(members[i].1)), "cmd")).None?
    ensures Validate(Load(branchName, fileConfig, tasksFilePath, defaultOutputDir).value).Some?
  {
    var config := Load(branchName, fileConfig, tasksFilePath, defaultOutputDir).value;
    var agent := MembersOf(Property(fileConfig.value, "agent"));
    LoadOutcome(branchName, fileConfig, tasksFilePath, defaultOutputDir);
    BuiltRegistryLastWins(Get(agent, "registry"), key, i);
    EmptyCommandInvalid(config, key);
  }

  /** The default agent of a loaded configuration is never blank, so its agent check can only fail on a name the registry lacks. */
  lemma LoadedDefaultAgentNotBlank(branchName: string, fileConfig: Result<Json>, tasksFilePath: string -> string, defaultOutputDir: string)
    requires Load(branchName, fileConfig, tasksFilePath, defaultOutputDir).Ok?
    ensures var agent := Load(branchName, fileConfig, tasksFilePath, defaultOutputDir).value.agent;
      ValidateAgentConfig(agent).None? <==> HasKey(agent.registry, agent.defaultAgent)
  {
    var agentObject := MembersOf(Property(fileConfig.value, "agent"));
    NormalizedAgentName(Get(agentObject, "default"));
    LoadOutcome(branchName, fileConfig, tasksFilePath, defaultOutputDir);
  }

  /**
   * With no configuration file and a non-blank branch name, the loaded
   * configuration is the `codex` default over the built-in registry, the
   * default tasks file and the default output directory.
   */
  lemma LoadWithoutFile(branchName: string, tasksFilePath: string -> string, defaultOutputDir: string)
    requires !IsBlank(branchName)
    ensures var r := Load(branchName, Ok(JObject([])), tasksFilePath, defaultOutputDir);
      && r.Ok? && r.value.agent == AgentConfig(DefaultAgentName, BuiltinRegistry)
      && TasksFile.TrackerFolderName(branchName).Ok?
      && r.value.tasksFile == JString(tasksFilePath(TasksFile.TrackerFolderName(branchName).value))
      && r.value.outputDir == JString(defaultOutputDir)
  {
    LoadOutcome(branchName, Ok(JObject([])), tasksFilePath, defaultOutputDir);
  }

  /** The default configuration validates whenever its two paths are not blank. */
  lemma DefaultConfigValid(tasksFile: string, outputDir: string)
    requires !IsBlank(tasksFile) && !IsBlank(outputDir)
    ensures Validate(Config(AgentConfig(DefaultAgentName, BuiltinRegistry), JString(tasksFile), JString(outputDir))).None?
  {
    BuiltinKeys();
    DefaultAgentNameIsAgentName();
    BuiltinCommandsValid();
  }

  /** A string that starts with a letter or a dash is not blank. */
  lemma WordNotBlank(s: string)
    requires s != [] && (('a' <= s[0] <= 'z') || ('A' <= s[0] <= 'Z') || s[0] == '-')
    ensures !IsBlank(s)
  {
  }

  lemma CommandValid(cmd: seq<string>)
    requires |cmd| > 0
    requires forall j :: 0 <= j < |cmd| ==> cmd[j] != [] && (('a' <= cmd[j][0] <= 'z') || ('A' <= cmd[j][0] <= 'Z') || cmd[j][0] == '-')
    ensures ValidEntry(RegistryEntry(cmd))
  {
    forall j | 0 <= j < |cmd|
      ensures !IsBlank(cmd[j])
    {
      WordNotBlank(cmd[j]);
    }
  }

  /** Every built-in agent has a usable command. */
  lemma BuiltinCommandsValid()
    ensures FirstInvalidEntry(BuiltinRegistry).None?
  {
    CommandValid(BuiltinRegistry[0].1.cmd);
    CommandValid(BuiltinRegistry[1].1.cmd);
    CommandValid(BuiltinRegistry[2].1.cmd);
  }
}

/**
 * Agent resolution and the completion rule of src/codeAgent.ts: merging a
 * configured registry over the built-in agents, choosing the agent from the
 * `--agent` option or the configured default, resolving the command line to
 * spawn, and deciding from how the child process ended whether a run
 * succeeded. Spawning, piping and the log file are not modelled: what the
 * process did arrives as a sequence of events.
 */
module CodeAgent {
  import opened Types
  import opened Text
  import opened AgentRegistry

  /** `a <= b` in the order `Array.prototype.sort` gives strings. */
  predicate StringLessEq(a: string, b: string)
    decreases |a|
  {
    a == [] || (b != [] && (a[0] < b[0] || (a[0] == b[0] && StringLessEq(a[1..], b[1..]))))
  }

  lemma {:induction false} StringLessEqTotal(a: string, b: string)
    ensures StringLessEq(a, b) || StringLessEq(b, a)
    decreases |a|
  {
    if a != [] && b != [] && a[0] == b[0] {
      StringLessEqTotal(a[1..], b[1..]);
    }
  }

  predicate Sorted(s: seq<string>) {
    forall i :: 0 < i < |s| ==> StringLessEq(s[i - 1], s[i])
  }

  function Insert(x: string, s: seq<string>): (r: seq<string>)
    ensures |r| == |s| + 1
    ensures r[0] == x || (s != [] && r[0] == s[0])
  {
    if s == [] || StringLessEq(x, s[0]) then [x] + s else [s[0]] + Insert(x, s[1..])
  }

  /** `keys.sort()`. */
  function SortStrings(s: seq<string>): seq<string> {
    if s == [] then [] else Insert(s[0], SortStrings(s[1..]))
  }

  lemma {:induction false} InsertSorted(x: string, s: seq<string>)
    requires Sorted(s)
    ensures Sorted(Insert(x, s)) && multiset(Insert(x, s)) == multiset(s) + multiset{x}
  {
    if s != [] && !StringLessEq(x, s[0]) {
      var rest := Insert(x, s[1..]);
      assert Sorted(s[1..]) by {
        forall i | 0 < i < |s| - 1
          ensures StringLessEq(s[1..][i - 1], s[1..][i])
        {
          assert s[1..][i - 1] == s[i] && s[1..][i] == s[i + 1];
        }
      }
      InsertSorted(x, s[1..]);
      StringLessEqTotal(x, s[0]);
      var r := [s[0]] + rest;
      forall i | 0 < i < |r|
        ensures StringLessEq(r[i - 1], r[i])
      {
        if i == 1 {
          assert r[1] == rest[0];
          if rest[0] != x {
            assert rest[0] == s[1];
          }
        } else {
          assert r[i - 1] == rest[i - 2] && r[i] == rest[i - 1];
        }
      }
      assert s == [s[0]] + s[1..];
    }
  }

  /** The keys sorted: in order, and the same keys. */
  lemma {:induction false} SortStringsSorted(s: seq<string>)
    ensures Sorted(SortStrings(s)) && multiset(SortStrings(s)) == multiset(s)
  {
    if s != [] {
      SortStringsSorted(s[1..]);
      InsertSorted(s[0], SortStrings(s[1..]));
      assert s == [s[0]] + s[1..];
    }
  }

  /** The list of agents the error messages show. */
  function AvailableAgents(registry: Registry): string {
    Join(SortStrings(KeysOf(registry)), ", ")
  }

  /** `mergeRegistry`: `None` is `undefined`. */
  function MergeRegistry(registry: Option<Registry>): Registry {
    if registry.None? || |KeysOf(registry.value)| == 0 then BuiltinRegistry else Overlay(BuiltinRegistry, registry.value)
  }

  /**
   * The merged registry has no key twice; a key of the configured registry
   * reads the configured entry, any other key what the built-in registry
   * has; with no configured registry, or an empty one, it is the built-in
   * registry itself.
   */
  lemma MergeRegistryLookup(registry: Option<Registry>, key: string)
    requires registry.Some? ==> DistinctKeys(registry.value)
    ensures DistinctKeys(MergeRegistry(registry))
    ensures Lookup(MergeRegistry(registry), key) ==
      if registry.Some? && HasKey(registry.value, key) then Lookup(registry.value, key) else Lookup(BuiltinRegistry, key)
    ensures registry.None? || registry.value == [] ==> MergeRegistry(registry) == BuiltinRegistry
  {
    BuiltinKeys();
    if registry.Some? {
      OverlayDistinct(BuiltinRegistry, registry.value);
      OverlayLookup(BuiltinRegistry, registry.value, key);
    }
  }

  /** `normalizeAgentName` of src/codeAgent.ts: `None` is `undefined`. */
  function NormalizeAgentName(agent: Option<string>): string {
    if agent.None? || agent.value == "" then "codex"
    else
      var normalized := ToLower(Trim(agent.value));
      if normalized == "" then "codex" else normalized
  }

  function UnsupportedAgentMessage(agent: string, registry: Registry): string {
    "Unsupported agent \"" + agent + "\". Available agents: " + AvailableAgents(registry)
  }

  function UndefinedDefaultMessage(fallback: string, registry: Registry): string {
    "Default agent \"" + fallback + "\" is not defined. Available agents: " + AvailableAgents(registry)
  }

  /** `normalizeAgentOption`: `Ok(None)` is `null`, `Err` what it throws. */
  function NormalizeAgentOption(agent: Option<string>, registry: Registry): Result<Option<string>> {
    if agent.None? || agent.value == "" then Ok(None)
    else
      var lowered := ToLower(Trim(agent.value));
      if HasKey(registry, lowered) then Ok(Some(lowered)) else Err(UnsupportedAgentMessage(agent.value, registry))
  }

  /** The registry `agentConfig?.registry` names. */
  function ConfiguredRegistry(agentConfig: Option<AgentConfig>): Option<Registry> {
    if agentConfig.Some? then Some(agentConfig.value.registry) else None
  }

  /** `CLIAgent.resolveName`. */
  function ResolveName(agentOption: Option<string>, agentConfig: Option<AgentConfig>): Result<string> {
    var registry := MergeRegistry(ConfiguredRegistry(agentConfig));
    match NormalizeAgentOption(agentOption, registry)
    case Err(e) => Err(e)
    case Ok(requested) =>
      if requested.Some? && requested.value != "" then Ok(requested.value)
      else
        var fallback := NormalizeAgentName(if agentConfig.Some? then Some(agentConfig.value.defaultAgent) else None);
        if !HasKey(registry, fallback) then Err(UndefinedDefaultMessage(fallback, registry)) else Ok(fallback)
  }

  /** Whatever `resolveName` returns is a non-empty key of the merged registry. */
  lemma ResolvedNameRegistered(agentOption: Option<string>, agentConfig: Option<AgentConfig>)
    requires ResolveName(agentOption, agentConfig).Ok?
    ensures var name := ResolveName(agentOption, agentConfig).value;
      name != "" && HasKey(MergeRegistry(ConfiguredRegistry(agentConfig)), name)
  {
  }

  /**
   * An explicit, non-empty option wins when its trimmed, lower-cased form is
   * a (non-empty) key of the merged registry, and is rejected as
   * unsupported when it is not a key at all.
   */
  lemma ExplicitOptionWins(agent: string, agentConfig: Option<AgentConfig>)
    requires agent != ""
    ensures var registry := MergeRegistry(ConfiguredRegistry(agentConfig));
      var lowered := ToLower(Trim(agent));
      && (HasKey(registry, lowered) && lowered != "" ==> ResolveName(Some(agent), agentConfig) == Ok(lowered))
      && (!HasKey(registry, lowered) ==> ResolveName(Some(agent), agentConfig) == Err(UnsupportedAgentMessage(agent, registry)))
  {
  }

  /**
   * Without an option the configured default, normalized and `codex` when
   * blank, is used if the merged registry has it, and reported as not
   * defined otherwise.
   */
  lemma DefaultAgentFallback(agentConfig: Option<AgentConfig>)
    ensures var registry := MergeRegistry(ConfiguredRegistry(agentConfig));
      var fallback := NormalizeAgentName(if agentConfig.Some? then Some(agentConfig.value.defaultAgent) else None);
      && (HasKey(registry, fallback) ==> ResolveName(None, agentConfig) == Ok(fallback))
      && (!HasKey(registry, fallback) ==> ResolveName(None, agentConfig) == Err(UndefinedDefaultMessage(fallback, registry)))
  {
  }

  /** With no option and no configuration at all the agent is `codex`. */
  lemma NoConfigurationResolvesCodex()
    ensures ResolveName(None, None) == Ok("codex")
  {
    assert MergeRegistry(None) == BuiltinRegistry;
    assert NormalizeAgentName(None) == "codex";
    BuiltinKeys();
  }

  /** The options a `CLIAgent` is built with, without the environment. `None` is `undefined`. */
  datatype AgentOptions = AgentOptions(
    name: Option<string>,
    agentConfig: Option<AgentConfig>,
    command: Option<string>,
    args: Option<seq<string>>,
    defaultArgs: Option<seq<string>>)

  datatype ResolvedCommand = ResolvedCommand(name: string, command: string, args: seq<string>)

  /** `options.name ?? options.agentConfig?.default ?? "codex"`. */
  function AgentNameOf(options: AgentOptions): string {
    if options.name.Some? then options.name.value
    else if options.agentConfig.Some? then options.agentConfig.value.defaultAgent
    else "codex"
  }

  /** `cmd.map((part) => part.trim()).filter((part) => part.length > 0)`. */
  function CommandParts(cmd: seq<string>): (parts: seq<string>)
    ensures |parts| <= |cmd|
  {
    if cmd == [] then []
    else
      var part := Trim(cmd[0]);
      (if part != "" then [part] else []) + CommandParts(cmd[1..])
  }

  /** Every part is trimmed and not empty. */
  lemma {:induction false} CommandPartsClean(cmd: seq<string>)
    ensures forall i :: 0 <= i < |CommandParts(cmd)| ==> CommandParts(cmd)[i] != "" && IsTrimmed(CommandParts(cmd)[i])
  {
    if cmd != [] {
      CommandPartsClean(cmd[1..]);
      TrimShape(cmd[0]);
      var rest := CommandParts(cmd[1..]);
      if Trim(cmd[0]) != "" {
        assert forall i :: 1 <= i < |rest| + 1 ==> CommandParts(cmd)[i] == rest[i - 1];
      }
    }
  }

  /** The first part, when there is one, is trimmed and not empty, and the rest follow it. */
  lemma FirstPartClean(cmd: seq<string>)
    requires CommandParts(cmd) != []
    ensures var parts := CommandParts(cmd); parts[0] != "" && IsTrimmed(parts[0]) && parts == [parts[0]] + parts[1..]
  {
    CommandPartsClean(cmd);
  }

  /** A command whose parts are already trimmed and not empty is kept as it is. */
  lemma {:induction false} CommandPartsKeepClean(cmd: seq<string>)
    requires forall i :: 0 <= i < |cmd| ==> cmd[i] != "" && IsTrimmed(cmd[i])
    ensures CommandParts(cmd) == cmd
  {
    if cmd != [] {
      assert forall i :: 0 <= i < |cmd[1..]| ==> cmd[1..][i] == cmd[i + 1];
      CommandPartsKeepClean(cmd[1..]);
      TrimTrimmed(cmd[0]);
      assert cmd == [cmd[0]] + cmd[1..];
    }
  }

  /** No part is left exactly when every part is blank. */
  lemma {:induction false} CommandPartsEmpty(cmd: seq<string>)
    ensures CommandParts(cmd) == [] <==> forall i :: 0 <= i < |cmd| ==> IsBlank(cmd[i])
  {
    if cmd != [] {
      CommandPartsEmpty(cmd[1..]);
      TrimShape(cmd[0]);
      assert forall i :: 0 <= i < |cmd[1..]| ==> cmd[1..][i] == cmd[i + 1];
    }
  }

  function MissingCommandMessage(name: string): string {
    "Agent \"" + name + "\" is missing a command. Configure agent.registry." + name + ".cmd in .bman/config.json."
  }

  /** The registry entry for the agent name, read as `registry[name]`. */
  function EntryOf(options: AgentOptions): Option<RegistryEntry> {
    Lookup(MergeRegistry(ConfiguredRegistry(options.agentConfig)), AgentNameOf(options))
  }

  /** `(entry?.cmd ?? [])` with its parts trimmed and the empty ones dropped. */
  function EntryParts(options: AgentOptions): seq<string> {
    var entry := EntryOf(options);
    CommandParts(if entry.Some? then entry.value.cmd else [])
  }

  /** `resolveCommand`. */
  function ResolveCommand(options: AgentOptions): Result<ResolvedCommand> {
    if options.command.Some? && options.command.value != "" then Ok(ExplicitCommand(options))
    else RegistryCommand(options)
  }

  /** The branch of `resolveCommand` for an explicit command. */
  function ExplicitCommand(options: AgentOptions): ResolvedCommand
    requires options.command.Some?
  {
    var fallbackArgs :=
      if options.defaultArgs.Some? then options.defaultArgs.value
      else if options.command.value == "codex" && options.args.None? then CodexArgs
      else [];
    ResolvedCommand(AgentNameOf(options), options.command.value, if options.args.Some? then options.args.value else fallbackArgs)
  }

  /** The branch of `resolveCommand` that reads the registry. */
  function RegistryCommand(options: AgentOptions): Result<ResolvedCommand> {
    var parts := EntryParts(options);
    if parts == [] then Err(MissingCommandMessage(AgentNameOf(options)))
    else Ok(ResolvedCommand(AgentNameOf(options), parts[0], parts[1..]))
  }

  /**
   * With an explicit command the given args are used; else the default
   * args; else, for the command `codex`, the built-in codex args; else none.
   */
  lemma ExplicitCommandArgs(options: AgentOptions)
    requires options.command.Some? && options.command.value != ""
    ensures var r := ResolveCommand(options);
      && r.Ok? && r.value.command == options.command.value && r.value.name == AgentNameOf(options)
      && (options.args.Some? ==> r.value.args == options.args.value)
      && (options.args.None? && options.defaultArgs.Some? ==> r.value.args == options.defaultArgs.value)
      && (options.args.None? && options.defaultArgs.None? ==> r.value.args == if options.command.value == "codex" then CodexArgs else [])
  {
  }

  /**
   * Without an explicit command, resolving fails, naming the agent, exactly
   * when the agent has no registry entry or its entry has only blank parts.
   */
  lemma RegistryCommandMissing(options: AgentOptions)
    requires options.command.None? || options.command.value == ""
    ensures ResolveCommand(options).Err? <==> EntryOf(options).None? || forall i :: 0 <= i < |EntryOf(options).value.cmd| ==> IsBlank(EntryOf(options).value.cmd[i])
    ensures ResolveCommand(options).Err? ==> ResolveCommand(options).msg == MissingCommandMessage(AgentNameOf(options))
  {
    assert ResolveCommand(options) == RegistryCommand(options);
    if EntryOf(options).Some? {
      CommandPartsEmpty(EntryOf(options).value.cmd);
    }
  }

  /**
   * Otherwise the command is the first non-blank part of the entry,
   * trimmed, and the args are the remaining non-blank parts, trimmed.
   */
  lemma RegistryCommandParts(options: AgentOptions)
    requires options.command.None? || options.command.value == ""
    requires ResolveCommand(options).Ok?
    ensures var r := ResolveCommand(options).value;
      && r.name == AgentNameOf(options) && [r.command] + r.args == EntryParts(options)
      && r.command != "" && IsTrimmed(r.command)
  {
    assert ResolveCommand(options) == RegistryCommand(options);
    var entry := EntryOf(options);
    var cmd := if entry.Some? then entry.value.cmd else [];
    assert EntryParts(options) == CommandParts(cmd);
    FirstPartClean(cmd);
  }

  /** With no options at all the built-in codex command line is used. */
  lemma DefaultCommandLine()
    ensures ResolveCommand(AgentOptions(None, None, None, None, None)) == Ok(ResolvedCommand("codex", "codex", CodexArgs))
  {
    var cmd := ["codex"] + CodexArgs;
    assert Lookup(BuiltinRegistry, "codex") == Some(RegistryEntry(cmd));
    forall i | 0 <= i < |cmd|
      ensures cmd[i] != "" && IsTrimmed(cmd[i])
    {
      assert cmd[i][0] != ' ' && !IsSpace(cmd[i][0]) && !IsSpace(cmd[i][|cmd[i]| - 1]);
    }
    CommandPartsKeepClean(cmd);
  }

  /** How the promise `run` awaits stands. */
  datatype Settlement = Pending | Resolved | Rejected(error: string)

  /** The promise `run` awaits, settled through its `finish` callback. */
  class RunPromise {
    var settled: bool
    var outcome: Settlement

    predicate Valid()
      reads this
    {
      settled <==> !outcome.Pending?
    }

    constructor ()
      ensures Valid() && !settled && outcome == Pending
    {
      settled := false;
      outcome := Pending;
    }

    /** `finish(err)`: the first call settles the promise, later calls do nothing. */
    method Finish(err: Option<string>)
      requires Valid()
      modifies this
      ensures Valid() && settled
      ensures old(settled) ==> outcome == old(outcome)
      ensures !old(settled) ==> outcome == if err.Some? then Rejected(err.value) else Resolved
    {
      if settled {
        return;
      }
      settled := true;
      if err.Some? {
        outcome := Rejected(err.value);
      } else {
        outcome := Resolved;
      }
    }
  }

  /**
   * What reaches `finish`, in order: an error of the log stream, a spawn
   * error (after the log stream is closed), or the child closing with an
   * exit code (`None` is `null`), a signal (`None` is `null`) and whether
   * the output file exists by then.
   */
  datatype ProcessEvent =
    | LogStreamError(message: string)
    | SpawnError(message: string)
    | Closed(code: Option<int>, signal: Option<string>, outputExists: bool)

  function ExitMessage(name: string, code: Option<int>, signal: Option<string>): string {
    name + " agent exited with code " + (if code.Some? then IntToString(code.value) else "null")
    + (if signal.Some? && signal.value != "" then " (signal " + signal.value + ")" else "")
  }

  function NoOutputMessage(name: string, outputPath: string): string {
    name + " agent did not write output to " + outputPath
  }

  /** The error an event hands to `finish`, if any. */
  function EventError(name: string, outputPath: string, event: ProcessEvent): Option<string> {
    match event
    case LogStreamError(m) => Some(m)
    case SpawnError(m) => Some(m)
    case Closed(code, signal, outputExists) =>
      if code != Some(0) then Some(ExitMessage(name, code, signal))
      else if !outputExists then Some(NoOutputMessage(name, outputPath))
      else None
  }

  /**
   * A close succeeds exactly when the exit code is 0 and the output file
   * exists; a non-zero or missing exit code is reported before a missing
   * output file.
   */
  lemma CloseRule(name: string, outputPath: string, code: Option<int>, signal: Option<string>, outputExists: bool)
    ensures EventError(name, outputPath, Closed(code, signal, outputExists)).None? <==> code == Some(0) && outputExists
    ensures code != Some(0) ==> EventError(name, outputPath, Closed(code, signal, outputExists)) == Some(ExitMessage(name, code, signal))
    ensures code == Some(0) && !outputExists ==> EventError(name, outputPath, Closed(code, signal, outputExists)) == Some(NoOutputMessage(name, outputPath))
  {
  }

  /** The settlement an event makes when it comes first. */
  function SettlementOf(err: Option<string>): Settlement {
    if err.Some? then Rejected(err.value) else Resolved
  }

  /**
   * `run`'s promise after the events: each event calls `finish`, and only
   * the first settles it, so the outcome is what the first event decides
   * (pending when nothing happened).
   */
  method Settle(name: string, outputPath: string, events: seq<ProcessEvent>) returns (outcome: Settlement)
    ensures events == [] ==> outcome == Pending
    ensures events != [] ==> outcome == SettlementOf(EventError(name, outputPath, events[0]))
  {
    var promise := new RunPromise();
    var i := 0;
    while i < |events|
      invariant 0 <= i <= |events|
      invariant promise.Valid()
      invariant i == 0 ==> promise.outcome == Pending
      invariant i > 0 ==> promise.outcome == SettlementOf(EventError(name, outputPath, events[0]))
    {
      promise.Finish(EventError(name, outputPath, events[i]));
      i := i + 1;
    }
    return promise.outcome;
  }
}

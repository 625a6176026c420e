/**
 * The command line of src/cli.ts: the argument parser (a left-to-right walk
 * over argv from index 2), the command names, the allocation of the next
 * `TASK-<n>` id, the document `add-task` saves and the guards `run` applies
 * before it hands over to the orchestrator. Git, the configuration loader and
 * the tasks file are inputs (`Environment`); what `run` then does is an
 * `Outcome`.
 */
module Cli {
  import opened Types
  import opened Text
  import opened TaskTracker

  datatype Command = Resolve | AddTask

  function CommandName(c: Command): string {
    match c
    case Resolve => "resolve"
    case AddTask => "add-task"
  }

  /** `parseCommand`; `None` is the `UsageError` for any other word. */
  function ParseCommand(value: string): (r: Option<Command>)
    ensures r == Some(Resolve) <==> value == "resolve"
    ensures r == Some(AddTask) <==> value == "add-task"
  {
    if value == "resolve" then Some(Resolve)
    else if value == "add-task" then Some(AddTask)
    else None
  }

  /** The command names and `ParseCommand` are inverse. */
  lemma CommandNamesRoundTrip(c: Command, value: string)
    ensures ParseCommand(CommandName(c)) == Some(c)
    ensures ParseCommand(value).Some? ==> CommandName(ParseCommand(value).value) == value
  {
  }

  /** A command name is a positional word. */
  lemma CommandNameIsWord(c: Command)
    ensures !("-" <= CommandName(c)) && CommandName(c) != "--help" && CommandName(c) != "-h"
  {
    assert CommandName(c)[0] != '-';
  }

  /** `CLIOptions`: a flag that was never set is `false`. */
  datatype Options = Options(help: bool, all: bool, push: bool, agent: Option<string>, command: Option<Command>, taskDescription: Option<string>)

  const NoOptions := Options(false, false, false, None, None, None)

  /** How `parseArgs` ends: the options, a thrown `UsageError`, or a thrown plain `Error`. */
  datatype ArgsResult = Parsed(options: Options) | UsageError(msg: string) | Error(msg: string)

  const NoCommandMessage := "No command provided."
  const MissingAgentMessage := "Missing value for --agent"
  const AgentPrefix := "--agent="

  function UnexpectedArgumentMessage(arg: string): string {
    "Unexpected argument: " + arg
  }

  function UnknownArgumentMessage(arg: string): string {
    "Unknown argument: " + arg
  }

  function UnknownCommandMessage(value: string): string {
    "Unknown command \"" + value + "\"."
  }

  /**
   * `arg.split("=", 2)[1] ?? ""` for an argument that starts with `--agent=`:
   * the text after that `=` up to the next `=`, if any.
   */
  function AgentAssignment(arg: string): (r: string)
    requires AgentPrefix <= arg
    ensures AgentPrefix + r <= arg && '=' !in r
    ensures |AgentPrefix + r| == |arg| || arg[|AgentPrefix + r|] == '='
  {
    var rest := arg[|AgentPrefix|..];
    if '=' in rest then
      var r := rest[..IndexOf(rest, '=')];
      assert AgentPrefix + r == arg[..|AgentPrefix| + |r|];
      r
    else
      assert AgentPrefix + rest == arg;
      rest
  }

  /** One turn of the loop: the options after argument `i` and the index it continues at, or how the parse stops. */
  datatype Step = Next(options: Options, next: nat) | Stop(result: ArgsResult)

  function StepAt(argv: seq<string>, i: nat, o: Options): (r: Step)
    requires i < |argv|
    ensures r.Next? ==> i < r.next <= |argv|
  {
    var arg := argv[i];
    if arg == "--help" || arg == "-h" then Next(o.(help := true), i + 1)
    else if !("-" <= arg) then
      if o.command.Some? then
        if o.command.value == AddTask && o.taskDescription.None? then Next(o.(taskDescription := Some(arg)), i + 1)
        else Stop(UsageError(UnexpectedArgumentMessage(arg)))
      else if ParseCommand(arg).Some? then Next(o.(command := ParseCommand(arg)), i + 1)
      else Stop(UsageError(UnknownCommandMessage(arg)))
    else if arg == "--all" || arg == "-a" then Next(o.(all := true), i + 1)
    else if arg == "--agent" then
      if i + 1 == |argv| || argv[i + 1] == "" then Stop(Error(MissingAgentMessage))
      else Next(o.(agent := Some(argv[i + 1])), i + 2)
    else if AgentPrefix <= arg then Next(o.(agent := Some(AgentAssignment(arg))), i + 1)
    else if arg == "--push" then Next(o.(push := true), i + 1)
    else Stop(UsageError(UnknownArgumentMessage(arg)))
  }

  /** After the last argument: a command is required unless help was asked for. */
  function Finish(o: Options): ArgsResult {
    if !o.help && o.command.None? then UsageError(NoCommandMessage) else Parsed(o)
  }

  function ParseFrom(argv: seq<string>, i: nat, o: Options): ArgsResult
    decreases |argv| - i
  {
    if i >= |argv| then Finish(o)
    else
      match StepAt(argv, i, o)
      case Stop(r) => r
      case Next(o', j) => ParseFrom(argv, j, o')
  }

  /** `parseArgs(argv)`: the first two entries (the runtime and the script) are skipped. */
  function ParsedArgs(argv: seq<string>): ArgsResult {
    ParseFrom(argv, 2, NoOptions)
  }

  /** `parseArgs`, as the source writes it: a loop over argv that returns or throws. */
  method ParseArgs(argv: seq<string>) returns (r: ArgsResult)
    ensures r == ParsedArgs(argv)
  {
    var help, all, push := false, false, false;
    var agent: Option<string> := None;
    var command: Option<Command> := None;
    var taskDescription: Option<string> := None;
    var i := 2;
    while i < |argv|
      invariant 2 <= i
      invariant ParseFrom(argv, i, Options(help, all, push, agent, command, taskDescription)) == ParsedArgs(argv)
      decreases |argv| - i
    {
      var arg := argv[i];
      if arg == "--help" || arg == "-h" {
        help := true;
      } else if !("-" <= arg) {
        if command.Some? {
          if command.value == AddTask && taskDescription.None? {
            taskDescription := Some(arg);
          } else {
            return UsageError(UnexpectedArgumentMessage(arg));
          }
        } else {
          command := ParseCommand(arg);
          if command.None? {
            return UsageError(UnknownCommandMessage(arg));
          }
        }
      } else if arg == "--all" || arg == "-a" {
        all := true;
      } else if arg == "--agent" {
        if i + 1 == |argv| || argv[i + 1] == "" {
          return Error(MissingAgentMessage);
        }
        agent := Some(argv[i + 1]);
        i := i + 1;
      } else if AgentPrefix <= arg {
        agent := Some(AgentAssignment(arg));
      } else if arg == "--push" {
        push := true;
      } else {
        return UsageError(UnknownArgumentMessage(arg));
      }
      i := i + 1;
    }
    if !help && command.None? {
      return UsageError(NoCommandMessage);
    }
    return Parsed(Options(help, all, push, agent, command, taskDescription));
  }

  // ---------------------------------------------------------------------
  // Properties of the parser
  // ---------------------------------------------------------------------

  /** A task description is only ever recorded after `add-task`. */
  predicate Coherent(o: Options) {
    o.taskDescription.Some? ==> o.command == Some(AddTask)
  }

  /**
   * Parsed options always name a command or ask for help, and carry a task
   * description only for `add-task`.
   */
  lemma {:induction false} ParsedOptionsCoherent(argv: seq<string>, i: nat, o: Options)
    requires Coherent(o)
    ensures ParseFrom(argv, i, o).Parsed? ==>
      Coherent(ParseFrom(argv, i, o).options) &&
      (ParseFrom(argv, i, o).options.help || ParseFrom(argv, i, o).options.command.Some?)
    decreases |argv| - i
  {
    if i < |argv| {
      var step := StepAt(argv, i, o);
      if step.Next? {
        ParsedOptionsCoherent(argv, step.next, step.options);
      }
    }
  }

  /** An argument list with no positional word and no help flag is rejected, whatever the flags. */
  lemma {:induction false} NoCommandRejected(argv: seq<string>, i: nat, o: Options)
    requires !o.help && o.command.None?
    requires forall k :: i <= k < |argv| ==> "-" <= argv[k] && argv[k] != "--help" && argv[k] != "-h"
    ensures !ParseFrom(argv, i, o).Parsed?
    decreases |argv| - i
  {
    if i < |argv| {
      var step := StepAt(argv, i, o);
      if step.Next? {
        NoCommandRejected(argv, step.next, step.options);
      }
    }
  }

  /** With nothing after the runtime and the script, the parse fails with "No command provided.". */
  lemma EmptyArgvRejected(argv: seq<string>)
    requires |argv| <= 2
    ensures ParsedArgs(argv) == UsageError(NoCommandMessage)
  {
  }

  /** `--agent` as the last argument, or followed by an empty one, throws a plain error once reached. */
  lemma MissingAgentValue(argv: seq<string>, i: nat, o: Options)
    requires i < |argv| && argv[i] == "--agent"
    requires i + 1 == |argv| || argv[i + 1] == ""
    ensures ParseFrom(argv, i, o) == Error(MissingAgentMessage)
  {
  }

  /** The options an argument list can express. */
  predicate Expressible(o: Options) {
    Coherent(o) && (o.help || o.command.Some?) &&
    (o.agent.Some? ==> o.agent.value != "") &&
    (o.taskDescription.Some? ==> !("-" <= o.taskDescription.value))
  }

  /** The flags after the positional words. */
  function RenderFlags(o: Options): seq<string> {
    (if o.all then ["--all"] else []) +
    (if o.push then ["--push"] else []) +
    (if o.agent.Some? then ["--agent", o.agent.value] else []) +
    (if o.help then ["--help"] else [])
  }

  /** Where the flags of `o` sit when they start at index `i` and end the list. */
  predicate FlagsAt(argv: seq<string>, i: nat, o: Options) {
    var i1 := i + (if o.all then 1 else 0);
    var i2 := i1 + (if o.push then 1 else 0);
    var i3 := i2 + (if o.agent.Some? then 2 else 0);
    |argv| == i3 + (if o.help then 1 else 0) &&
    (o.all ==> argv[i] == "--all") &&
    (o.push ==> argv[i1] == "--push") &&
    (o.agent.Some? ==> argv[i2] == "--agent" && argv[i2 + 1] == o.agent.value) &&
    (o.help ==> argv[i3] == "--help")
  }

  lemma RenderFlagsAt(pre: seq<string>, o: Options)
    ensures FlagsAt(pre + RenderFlags(o), |pre|, o)
  {
  }

  /** Parsing the flags of `o` from options that agree with `o` on the positional words gives `o`. */
  lemma ParseFlags(argv: seq<string>, i: nat, o: Options)
    requires Expressible(o) && FlagsAt(argv, i, o)
    ensures ParseFrom(argv, i, o.(all := false, push := false, agent := None, help := false)) == Parsed(o)
  {
    var o0 := o.(all := false, push := false, agent := None, help := false);
    var o1 := o0.(all := o.all);
    var o2 := o1.(push := o.push);
    var o3 := o2.(agent := o.agent);
    var i1 := i + (if o.all then 1 else 0);
    var i2 := i1 + (if o.push then 1 else 0);
    var i3 := i2 + (if o.agent.Some? then 2 else 0);
    if o.all {
      assert StepAt(argv, i, o0) == Next(o1, i1);
    }
    assert ParseFrom(argv, i, o0) == ParseFrom(argv, i1, o1);
    if o.push {
      assert StepAt(argv, i1, o1) == Next(o2, i2);
    }
    assert ParseFrom(argv, i1, o1) == ParseFrom(argv, i2, o2);
    if o.agent.Some? {
      assert StepAt(argv, i2, o2) == Next(o3, i3);
    }
    assert ParseFrom(argv, i2, o2) == ParseFrom(argv, i3, o3);
    if o.help {
      assert StepAt(argv, i3, o3) == Next(o, i3 + 1);
    } else {
      assert o3 == o;
    }
    assert ParseFrom(argv, i3, o3) == Parsed(o);
  }

  /** The positional words of `o`. */
  function RenderWords(o: Options): seq<string> {
    (if o.command.Some? then [CommandName(o.command.value)] else []) +
    (if o.taskDescription.Some? then [o.taskDescription.value] else [])
  }

  /** Parsing the positional words of `o` records them and nothing else. */
  lemma ParseWords(argv: seq<string>, o: Options)
    requires Expressible(o) && |argv| >= 2 + |RenderWords(o)|
    requires o.command.Some? ==> argv[2] == CommandName(o.command.value)
    requires o.taskDescription.Some? ==> argv[3] == o.taskDescription.value
    ensures ParsedArgs(argv) == ParseFrom(argv, 2 + |RenderWords(o)|, o.(all := false, push := false, agent := None, help := false))
  {
    var o0 := o.(all := false, push := false, agent := None, help := false);
    var oc := NoOptions.(command := o.command);
    if o.command.Some? {
      CommandNamesRoundTrip(o.command.value, argv[2]);
      CommandNameIsWord(o.command.value);
      assert StepAt(argv, 2, NoOptions) == Next(oc, 3);
      if o.taskDescription.Some? {
        assert StepAt(argv, 3, oc) == Next(o0, 4);
        assert ParseFrom(argv, 3, oc) == ParseFrom(argv, 4, o0);
      } else {
        assert oc == o0;
      }
    } else {
      assert NoOptions == o0;
    }
  }

  /**
   * The parser reads back the canonical argument list of any options an
   * argument list can express, whatever the first two entries are.
   */
  lemma ParseRendered(runtime: string, script: string, o: Options)
    requires Expressible(o)
    ensures ParsedArgs([runtime, script] + RenderWords(o) + RenderFlags(o)) == Parsed(o)
  {
    var pre := [runtime, script] + RenderWords(o);
    var argv := pre + RenderFlags(o);
    RenderFlagsAt(pre, o);
    if o.command.Some? {
      assert argv[2] == pre[2] == CommandName(o.command.value);
    }
    if o.taskDescription.Some? {
      assert argv[3] == pre[3] == o.taskDescription.value;
    }
    ParseWords(argv, o);
    ParseFlags(argv, |pre|, o);
  }

  // ---------------------------------------------------------------------
  // Options that only `resolve` takes
  // ---------------------------------------------------------------------

  /**
   * As written, the flags are read whatever the command: `add-task` followed
   * by `--all`, `--push` or `--agent codex` parses, with the flag set.
   */
  lemma AddTaskAcceptsResolveFlags()
    ensures ParsedArgs(["node", "cli.js", "add-task", "--all", "Write docs"]) ==
      Parsed(NoOptions.(all := true, command := Some(AddTask), taskDescription := Some("Write docs")))
    ensures ParsedArgs(["node", "cli.js", "add-task", "--push", "Write docs"]) ==
      Parsed(NoOptions.(push := true, command := Some(AddTask), taskDescription := Some("Write docs")))
    ensures ParsedArgs(["node", "cli.js", "add-task", "--agent", "codex", "Write docs"]) ==
      Parsed(NoOptions.(agent := Some("codex"), command := Some(AddTask), taskDescription := Some("Write docs")))
  {
    var add := NoOptions.(command := Some(AddTask));
    var desc := Some("Write docs");
    assert "add-task"[0] != '-' && "Write docs"[0] != '-' && "codex"[0] != '-';
    var all := ["node", "cli.js", "add-task", "--all", "Write docs"];
    assert StepAt(all, 2, NoOptions) == Next(add, 3);
    assert StepAt(all, 3, add) == Next(add.(all := true), 4);
    assert StepAt(all, 4, add.(all := true)) == Next(add.(all := true, taskDescription := desc), 5);
    var push := ["node", "cli.js", "add-task", "--push", "Write docs"];
    assert StepAt(push, 2, NoOptions) == Next(add, 3);
    assert StepAt(push, 3, add) == Next(add.(push := true), 4);
    assert StepAt(push, 4, add.(push := true)) == Next(add.(push := true, taskDescription := desc), 5);
    var agent := ["node", "cli.js", "add-task", "--agent", "codex", "Write docs"];
    assert StepAt(agent, 2, NoOptions) == Next(add, 3);
    assert StepAt(agent, 3, add) == Next(add.(agent := Some("codex")), 5);
    assert StepAt(agent, 5, add.(agent := Some("codex"))) == Next(add.(agent := Some("codex"), taskDescription := desc), 6);
  }

  const ResolveOnlyMessage := "--all, --push and --agent can only be used with resolve."

  /** Options that only `resolve` acts on, given with `add-task`. */
  predicate ResolveOnlyWithAddTask(o: Options) {
    o.command == Some(AddTask) && (o.all || o.push || o.agent.Some?)
  }

  /**
   * The parse the command line's tests expect: `parseArgs`, then a
   * `UsageError` naming `resolve` when `add-task` was given an option that
   * only `resolve` takes.
   */
  function ParsedArgsResolveOnly(argv: seq<string>): (r: ArgsResult)
    ensures r.Parsed? ==> r == ParsedArgs(argv) && !ResolveOnlyWithAddTask(r.options)
  {
    var p := ParsedArgs(argv);
    if p.Parsed? && ResolveOnlyWithAddTask(p.options) then UsageError(ResolveOnlyMessage) else p
  }

  /**
   * The rejection changes the outcome exactly for an `add-task` parsed with a
   * resolve-only option, so every rendering of options without that
   * combination still parses back to them.
   */
  lemma ResolveOnlyOptionsRejected(argv: seq<string>, o: Options)
    ensures ParsedArgsResolveOnly(argv) != ParsedArgs(argv) <==> ParsedArgs(argv).Parsed? && ResolveOnlyWithAddTask(ParsedArgs(argv).options)
    ensures Expressible(o) && !ResolveOnlyWithAddTask(o) ==>
      ParsedArgsResolveOnly(["node", "cli.js"] + RenderWords(o) + RenderFlags(o)) == Parsed(o)
  {
    if Expressible(o) {
      ParseRendered("node", "cli.js", o);
    }
  }

  /** The three argument lists of the tests are rejected with the message naming `resolve`. */
  lemma AddTaskResolveFlagsRejected()
    ensures ParsedArgsResolveOnly(["node", "cli.js", "add-task", "--all", "Write docs"]) == UsageError(ResolveOnlyMessage)
    ensures ParsedArgsResolveOnly(["node", "cli.js", "add-task", "--push", "Write docs"]) == UsageError(ResolveOnlyMessage)
    ensures ParsedArgsResolveOnly(["node", "cli.js", "add-task", "--agent", "codex", "Write docs"]) == UsageError(ResolveOnlyMessage)
  {
    AddTaskAcceptsResolveFlags();
  }

  // ---------------------------------------------------------------------
  // The next task id
  // ---------------------------------------------------------------------

  const TaskIdPrefix := "TASK-"

  /** `/^TASK-(\d+)$/i` on the trimmed id, read with `parseInt`: the number the id carries, if any. */
  function TaskNumber(id: string): Option<nat> {
    var t := Trim(id);
    if |t| > 5 && ToLower(t[..5]) == "task-" && AllDigits(t[5..]) then Some(DigitsValue(t[5..])) else None
  }

  /** `TASK-${n}`. */
  function TaskIdFor(n: nat): string {
    TaskIdPrefix + NatToString(n)
  }

  /** The id made for `n` carries `n`. */
  lemma TaskNumberOfTaskId(n: nat)
    ensures TaskNumber(TaskIdFor(n)) == Some(n)
  {
    var s := TaskIdFor(n);
    var digits := NatToString(n);
    assert !IsSpace(s[0]) && !IsSpace(s[|s| - 1]) by {
      assert s[|s| - 1] == digits[|digits| - 1];
    }
    TrimTrimmed(s);
    assert s[..5] == TaskIdPrefix && s[5..] == digits;
    DigitsValueOfNatToString(n);
  }

  /** The number of the last task, scanning backwards, whose id carries one; 0 when none does. */
  function LastTaskNumber(tasks: seq<Task>): nat {
    if tasks == [] then 0
    else if TaskNumber(tasks[|tasks| - 1].id).Some? then TaskNumber(tasks[|tasks| - 1].id).value
    else LastTaskNumber(tasks[..|tasks| - 1])
  }

  /** `getNextTaskId`, as the source writes it: one more than the last numbered id. */
  method GetNextTaskId(tasks: seq<Task>) returns (id: string)
    ensures id == TaskIdFor(LastTaskNumber(tasks) + 1)
  {
    var lastNumber := 0;
    var i := |tasks| - 1;
    assert tasks[..i + 1] == tasks;
    while i >= 0
      invariant -1 <= i < |tasks|
      invariant LastTaskNumber(tasks[..i + 1]) == LastTaskNumber(tasks)
    {
      var number := TaskNumber(tasks[i].id);
      if number.Some? {
        assert tasks[..i + 1][i] == tasks[i];
        lastNumber := number.value;
        break;
      }
      assert tasks[..i + 1][..i] == tasks[..i];
      i := i - 1;
    }
    if i < 0 {
      assert tasks[..i + 1] == [];
    }
    id := TaskIdFor(lastNumber + 1);
  }

  /** A list whose last numbered id is lower than an earlier one (`TASK-2`, then `TASK-1`): the id `getNextTaskId` makes is taken. */
  lemma LastNumberedIdReused()
    ensures var tasks := [Task(TaskIdFor(2), "Second", "", Done), Task(TaskIdFor(1), "First", "", Open)];
      TaskIdFor(LastTaskNumber(tasks) + 1) == TaskIdFor(2) && HasTaskId(tasks, TaskIdFor(2)) &&
      !DistinctIds(tasks + [Task(TaskIdFor(LastTaskNumber(tasks) + 1), "Third", "", Open)])
  {
    var tasks := [Task(TaskIdFor(2), "Second", "", Done), Task(TaskIdFor(1), "First", "", Open)];
    TaskNumberOfTaskId(1);
    assert LastTaskNumber(tasks) == 1;
    var next := tasks + [Task(TaskIdFor(2), "Third", "", Open)];
    assert next[0].id == next[2].id;
  }

  /** The highest number any id carries; 0 when none does. */
  function MaxTaskNumber(tasks: seq<Task>): nat {
    if tasks == [] then 0
    else
      var rest := MaxTaskNumber(tasks[..|tasks| - 1]);
      var n := TaskNumber(tasks[|tasks| - 1].id);
      if n.Some? && n.value > rest then n.value else rest
  }

  lemma {:induction false} MaxTaskNumberIsMax(tasks: seq<Task>)
    ensures forall k :: 0 <= k < |tasks| && TaskNumber(tasks[k].id).Some? ==> TaskNumber(tasks[k].id).value <= MaxTaskNumber(tasks)
  {
    if tasks != [] {
      var init := tasks[..|tasks| - 1];
      MaxTaskNumberIsMax(init);
      assert forall k :: 0 <= k < |init| ==> tasks[k] == init[k];
    }
  }

  /** The id one past the highest number: no task has it. */
  function FreshTaskId(tasks: seq<Task>): (id: string)
    ensures !HasTaskId(tasks, id)
  {
    var id := TaskIdFor(MaxTaskNumber(tasks) + 1);
    MaxTaskNumberIsMax(tasks);
    TaskNumberOfTaskId(MaxTaskNumber(tasks) + 1);
    id
  }

  /** The allocation as intended: one more than the highest numbered id, scanning every task. */
  method GetFreshTaskId(tasks: seq<Task>) returns (id: string)
    ensures id == FreshTaskId(tasks) && !HasTaskId(tasks, id)
  {
    var highest := 0;
    var i := 0;
    while i < |tasks|
      invariant i <= |tasks|
      invariant highest == MaxTaskNumber(tasks[..i])
    {
      assert tasks[..i + 1][..i] == tasks[..i];
      var number := TaskNumber(tasks[i].id);
      if number.Some? && number.value > highest {
        highest := number.value;
      }
      i := i + 1;
    }
    assert tasks[..i] == tasks;
    id := TaskIdFor(highest + 1);
  }

  // ---------------------------------------------------------------------
  // add-task and the guards of `run`
  // ---------------------------------------------------------------------

  const DescriptionRequiredMessage := "Task description is required for add-task."
  const BlockedTasksMessage := "Blocked tasks present. Resolve blocked tasks before starting new work."
  const NoOpenTasksMessage := "No open tasks found. Nothing to run."
  const GitRequiredPrefix := "Git is required to run bman-dev-agent: "

  function UnsupportedAgentMessage(agent: string): string {
    "Unsupported agent \"" + agent + "\". Only \"codex\" is supported."
  }

  /** What `run` gets from its collaborators: each is `Err`/`Some` when the call throws. */
  datatype Environment = Environment(
    branch: Result<string>,     // git.getCurrentBranchName()
    config: Option<string>,     // configLoader.load(branch) followed by validate
    tasksFileExists: bool,      // whether the configured tasks file exists
    file: Result<Document>)     // taskTracker.loadDocument()

  /** How `run` ends. */
  datatype Outcome =
    | ShowUsage                           // --help
    | Thrown(usage: bool, msg: string)    // an error escapes; `usage` for a UsageError
    | ExitCode(code: int, msg: string)    // reported on stderr, process.exitCode set
    | Quiet                               // an empty branch name: nothing happens
    | SavedDocument(doc: Document)        // add-task saved the tasks file
    | NothingToRun                        // reported on stderr, exit code untouched
    | Orchestrate(all: bool, push: bool)  // runAll or runOnce on a new orchestrator

  /** The document `add-task` saves: the old one plus one open task. */
  function AddedDocument(doc: Document, title: string): Document {
    Document(doc.preludeText, doc.tasks + [Task(FreshTaskId(doc.tasks), title, "", Open)])
  }

  /** `addTask`: a description is required; a missing tasks file starts an empty document. */
  function AddTaskOutcome(taskDescription: Option<string>, env: Environment): Outcome {
    var description := if taskDescription.Some? then Trim(taskDescription.value) else "";
    if description == "" then Thrown(true, DescriptionRequiredMessage)
    else if env.config.Some? then Thrown(false, env.config.value)
    else if !env.tasksFileExists then SavedDocument(AddedDocument(Document("", []), description))
    else if env.file.Err? then Thrown(false, env.file.msg)
    else SavedDocument(AddedDocument(env.file.value, description))
  }

  predicate HasBlockedTask(tasks: seq<Task>) {
    exists k :: 0 <= k < |tasks| && tasks[k].status == Blocked
  }

  /** `(options.agent ?? "codex").toLowerCase()`. */
  function AgentName(o: Options): string {
    if o.agent.Some? then ToLower(o.agent.value) else "codex"
  }

  /** `DefaultCLI.run`, up to the hand-over to the orchestrator. */
  function Run(o: Options, env: Environment): Outcome {
    if o.help then ShowUsage
    else if o.command.None? then Thrown(true, NoCommandMessage)
    else if env.branch.Err? then ExitCode(1, GitRequiredPrefix + env.branch.msg)
    else if env.branch.value == "" then Quiet
    else if o.command.value == AddTask then AddTaskOutcome(o.taskDescription, env)
    else if AgentName(o) != "codex" then Thrown(true, UnsupportedAgentMessage(o.agent.value))
    else if env.config.Some? then Thrown(false, env.config.value)
    else if env.file.Err? then Thrown(false, env.file.msg)
    else if HasBlockedTask(env.file.value.tasks) then ExitCode(1, BlockedTasksMessage)
    else if PickNextTask(env.file.value.tasks).None? then NothingToRun
    else Orchestrate(o.all, o.push)
  }

  /** `run` reaches `resolve`'s own checks. */
  predicate ResolveReached(o: Options, env: Environment) {
    !o.help && o.command == Some(Resolve) && env.branch.Ok? && env.branch.value != ""
  }

  /** The orchestrator runs exactly when the agent is codex (in any case), the file loads, no task is blocked and one is open. */
  lemma OrchestrateIff(o: Options, env: Environment)
    ensures Run(o, env).Orchestrate? <==>
      ResolveReached(o, env) && AgentName(o) == "codex" && env.config.None? && env.file.Ok? &&
      !HasBlockedTask(env.file.value.tasks) &&
      exists k :: 0 <= k < |env.file.value.tasks| && env.file.value.tasks[k].status == Open
    ensures Run(o, env).Orchestrate? ==> Run(o, env) == Orchestrate(o.all, o.push)
  {
  }

  /** Any agent other than codex, compared without case, is refused before the tasks file is read. */
  lemma OnlyCodex(o: Options, env: Environment)
    requires ResolveReached(o, env) && o.agent.Some? && ToLower(o.agent.value) != "codex"
    ensures Run(o, env) == Thrown(true, UnsupportedAgentMessage(o.agent.value))
  {
  }

  /** A blocked task sets exit code 1 and nothing runs, whether or not a task is open. */
  lemma BlockedTasksStopResolve(o: Options, env: Environment)
    requires ResolveReached(o, env) && AgentName(o) == "codex" && env.config.None? && env.file.Ok?
    requires HasBlockedTask(env.file.value.tasks)
    ensures Run(o, env) == ExitCode(1, BlockedTasksMessage)
  {
  }

  /** A blank description is refused before the configuration is loaded. */
  lemma BlankDescriptionRejected(o: Options, env: Environment)
    requires !o.help && o.command == Some(AddTask) && env.branch.Ok? && env.branch.value != ""
    requires o.taskDescription.None? || IsBlank(o.taskDescription.value)
    ensures Run(o, env) == Thrown(true, DescriptionRequiredMessage)
  {
    if o.taskDescription.Some? {
      TrimShape(o.taskDescription.value);
    }
  }

  /**
   * `add-task` keeps the prelude and every task and appends exactly one
   * open task, titled with the trimmed description, with an empty
   * description and an id no other task has; distinct ids stay distinct.
   */
  lemma AddTaskAppendsOne(doc: Document, description: string)
    requires !IsBlank(description)
    ensures var added := AddedDocument(doc, Trim(description));
      added.preludeText == doc.preludeText &&
      |added.tasks| == |doc.tasks| + 1 && added.tasks[..|doc.tasks|] == doc.tasks &&
      added.tasks[|doc.tasks|].title == Trim(description) && Trim(description) != "" &&
      added.tasks[|doc.tasks|].description == "" && added.tasks[|doc.tasks|].status == Open &&
      !HasTaskId(doc.tasks, added.tasks[|doc.tasks|].id) &&
      (DistinctIds(doc.tasks) ==> DistinctIds(added.tasks))
  {
    TrimShape(description);
    var added := AddedDocument(doc, Trim(description));
    assert added.tasks[..|doc.tasks|] == doc.tasks;
  }
}

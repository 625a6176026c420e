/**
 * The orchestrator of src/orchestrator.ts: one run loads and validates the
 * configuration, loads the tasks file, picks the first open task, checks that
 * the working tree is clean, creates the run context (always attempt 1),
 * builds the prompt and then, inside a try block, runs the agent, reads and
 * validates its result, checks the task id, records the new status, saves the
 * file, commits and pushes, and stops with an error when the agent did not
 * report success. When something fails before the commit, the catch block
 * marks the task blocked in the list as it was loaded and saves that (a
 * failure to do so is swallowed); the original error always propagates.
 *
 * The collaborators (configuration, git, the agent process, the result file)
 * are not modelled: a `Script` says what each call does in one run, and each
 * call leaves an `Event` in the run's trace. The tasks file is the value
 * `file`: loading reads it, a successful save replaces it.
 */
module Orchestrator {
  import opened Types
  import opened Json
  import opened TaskTracker
  import opened ResultValidator
  import PromptStrategy
  import CommitMessage

  /** What the run-context factory hands back. */
  datatype RunContext = RunContext(runId: string, taskId: string, attempt: int, outputPath: string)

  /** One call the orchestrator makes to a collaborator, in the order made. */
  datatype Event =
    | ConfigLoaded                                  // configLoader.load and validate
    | DocumentLoaded                                // taskTracker.loadDocument
    | CleanTreeChecked                              // git.ensureCleanWorkingTree
    | ContextCreated(taskId: string, attempt: int)  // runContextFactory.create
    | AgentRan(prompt: string)                      // agent.run
    | ResultRead(path: string)                      // resultReader.read
    | MarkedDone(taskId: string, sha: string)
    | MarkedBlocked(taskId: string, reason: string, commitSha: Option<string>)
    | Saved(doc: Document)                          // taskTracker.saveDocument
    | Committed(title: string, body: string)        // git.commit
    | Pushed                                        // git.push

  /**
   * What each collaborator does in one run: `None` returns normally and
   * `Some(e)` throws `e`; a `Result` returns its value or throws. The path
   * shown to the agent is the context's output path made relative to the
   * working directory, which the prompt takes as given.
   */
  datatype Script = Script(
    config: Option<string>,
    cleanTree: Option<string>,
    context: Result<RunContext>,
    displayPath: string,
    agent: Option<string>,
    read: Result<Json>,
    save: Option<string>,
    commit: Result<string>,
    push: Option<string>,
    recoverySave: Option<string>)

  /**
   * The components the orchestrator is built with: the output contract, the
   * prompt strategy, the result validator and the commit formatter, whose
   * two calls return a text or throw (`Err`).
   */
  datatype Components = Components(
    contract: OutputContract,
    build: PromptStrategy.PromptInput -> string,
    validate: (Json, OutputContract) -> Result<AgentOutput>,
    formatTitle: (Task, AgentOutput) -> Result<string>,
    formatBody: (Task, AgentOutput) -> Result<string>)

  /** How a run ends: nothing to do, done, or an error thrown to the caller. */
  datatype RunResult = NoOpenTask | Completed | Threw(error: string)

  /** A run's outcome, the calls it made and the tasks file afterwards. */
  datatype Run = Run(result: RunResult, trace: seq<Event>, file: Result<Document>)

  function MismatchMessage(outputId: string, taskId: string): string {
    "AgentOutput.taskId (" + outputId + ") does not match current task (" + taskId + ")."
  }

  function StoppedMessage(taskId: string, status: AgentStatus): string {
    "Task " + taskId + " ended with status \"" + AgentStatusName(status) + "\". Stopping."
  }

  // ---------------------------------------------------------------------
  // Specification of one run
  // ---------------------------------------------------------------------

  /** The status `updateTasks` records. */
  function UpdatedStatus(status: AgentStatus): TaskStatus {
    if status == Success then Done else Blocked
  }

  /** The tracker call `updateTasks` makes. */
  function UpdateEvent(task: Task, output: AgentOutput, commitSha: Option<string>): Event {
    if output.status == Success then MarkedDone(task.id, if commitSha.Some? then commitSha.value else "")
    else MarkedBlocked(task.id, CommitMessage.DeriveHumanMessage(task, output.status, output.commitMessage), commitSha)
  }

  /** The commit title and body, or the error the formatter throws: the title is formatted first. */
  function Formatted(deps: Components, task: Task, output: AgentOutput): Result<(string, string)> {
    match deps.formatTitle(task, output)
    case Err(e) => Err(e)
    case Ok(title) =>
      match deps.formatBody(task, output)
      case Err(e) => Err(e)
      case Ok(body) => Ok((title, body))
  }

  /** The state the try block leaves: the error it threw, if any, and the locals the catch block reads. */
  datatype Attempt = Attempt(error: Option<string>, events: seq<Event>, file: Document, tasksUpdated: bool, commitSha: Option<string>)

  /** The try block, on the document loaded at the start of the run. */
  function TryBlock(doc: Document, task: Task, ctx: RunContext, prompt: string, s: Script, deps: Components): Attempt {
    var ran := [AgentRan(prompt)];
    if s.agent.Some? then Attempt(s.agent, ran, doc, false, None)
    else
      var read := ran + [ResultRead(ctx.outputPath)];
      if s.read.Err? then Attempt(Some(s.read.msg), read, doc, false, None)
      else
        var validated := deps.validate(s.read.value, deps.contract);
        if validated.Err? then Attempt(Some(validated.msg), read, doc, false, None)
        else
          var output := validated.value;
          if output.taskId != task.id then Attempt(Some(MismatchMessage(output.taskId, task.id)), read, doc, false, None)
          else
            var updated := Document(doc.preludeText, WithStatus(doc.tasks, task.id, UpdatedStatus(output.status)));
            var saving := read + [UpdateEvent(task, output, None), Saved(updated)];
            if s.save.Some? then Attempt(s.save, saving, doc, false, None)
            else
              var formatted := Formatted(deps, task, output);
              if formatted.Err? then Attempt(Some(formatted.msg), saving, updated, true, None)
              else
                var committing := saving + [Committed(formatted.value.0, formatted.value.1)];
                if s.commit.Err? then Attempt(Some(s.commit.msg), committing, updated, true, None)
                else
                  var pushing := committing + [Pushed];
                  var sha := Some(s.commit.value);
                  if s.push.Some? then Attempt(s.push, pushing, updated, true, sha)
                  else if output.status != Success then Attempt(Some(StoppedMessage(task.id, output.status)), pushing, updated, true, sha)
                  else Attempt(None, pushing, updated, true, sha)
  }

  /** The catch block blocks the task unless the list was saved and a non-empty commit sha exists. */
  predicate NeedsRecovery(a: Attempt) {
    !a.tasksUpdated || a.commitSha.None? || a.commitSha.value == ""
  }

  /** The loaded document with `task` blocked: what the catch block saves. */
  function BlockedDocument(doc: Document, task: Task): Document {
    Document(doc.preludeText, WithStatus(doc.tasks, task.id, Blocked))
  }

  /** The calls the catch block makes after the try block threw. */
  function RecoveryEvents(doc: Document, task: Task, a: Attempt): seq<Event>
    requires a.error.Some?
  {
    if NeedsRecovery(a) then [MarkedBlocked(task.id, a.error.value, a.commitSha), Saved(BlockedDocument(doc, task))] else []
  }

  /** The tasks file after the catch block. */
  function RecoveredFile(doc: Document, task: Task, a: Attempt, s: Script): Document {
    if NeedsRecovery(a) && s.recoverySave.None? then BlockedDocument(doc, task) else a.file
  }

  /** The four calls before the try block when an open task is found. */
  function Preamble(task: Task): seq<Event> {
    [ConfigLoaded, DocumentLoaded, CleanTreeChecked, ContextCreated(task.id, 1)]
  }

  /** `runOnce`, as a function of the tasks file, the collaborators and the components. */
  function RunOnceSpec(file: Result<Document>, s: Script, deps: Components): Run {
    if s.config.Some? then Run(Threw(s.config.value), [ConfigLoaded], file)
    else if file.Err? then Run(Threw(file.msg), [ConfigLoaded, DocumentLoaded], file)
    else
      var doc := file.value;
      var picked := PickNextTask(doc.tasks);
      if picked.None? then Run(NoOpenTask, [ConfigLoaded, DocumentLoaded], file)
      else
        var task := picked.value;
        if s.cleanTree.Some? then Run(Threw(s.cleanTree.value), [ConfigLoaded, DocumentLoaded, CleanTreeChecked], file)
        else if s.context.Err? then Run(Threw(s.context.msg), Preamble(task), file)
        else
          var prompt := deps.build(PromptStrategy.PromptInput(task, s.displayPath, deps.contract, doc));
          var a := TryBlock(doc, task, s.context.value, prompt, s, deps);
          if a.error.None? then Run(Completed, Preamble(task) + a.events, Ok(a.file))
          else Run(Threw(a.error.value), Preamble(task) + a.events + RecoveryEvents(doc, task, a), Ok(RecoveredFile(doc, task, a, s)))
  }

  // ---------------------------------------------------------------------
  // The run, step by step
  // ---------------------------------------------------------------------

  /** The picked task is in the list it was picked from. */
  lemma PickedIsListed(tasks: seq<Task>)
    requires PickNextTask(tasks).Some?
    ensures HasTaskId(tasks, PickNextTask(tasks).value.id)
  {
    var k :| FirstOpenAt(tasks, k) && tasks[k] == PickNextTask(tasks).value;
  }

  /** `updateTasks`: done on success, otherwise blocked with the reason derived from the output. */
  method UpdateTasks(doc: Document, task: Task, output: AgentOutput, commitSha: Option<string>) returns (r: Result<seq<Task>>, call: Event)
    ensures call == UpdateEvent(task, output, commitSha)
    ensures r.Ok? <==> HasTaskId(doc.tasks, task.id)
    ensures r.Ok? ==> r.value == WithStatus(doc.tasks, task.id, UpdatedStatus(output.status))
  {
    if output.status == Success {
      var sha := if commitSha.Some? then commitSha.value else "";
      r := MarkDone(doc.tasks, task.id, sha);
      call := MarkedDone(task.id, sha);
      return;
    }
    var reason := CommitMessage.DeriveHumanMessage(task, output.status, output.commitMessage);
    r := MarkBlocked(doc.tasks, task.id, reason, commitSha);
    call := MarkedBlocked(task.id, reason, commitSha);
  }

  /**
   * The try block of `runOnce`: `failure` plays the exception thrown in it,
   * and the task comes from `doc`.
   */
  method Try(doc: Document, task: Task, ctx: RunContext, prompt: string, s: Script, deps: Components) returns (a: Attempt)
    requires HasTaskId(doc.tasks, task.id)
    ensures a == TryBlock(doc, task, ctx, prompt, s, deps)
  {
    var saved := doc;
    var commitSha: Option<string> := None;
    var tasksUpdated := false;
    var events := [AgentRan(prompt)];
    var failure := s.agent;
    var output: AgentOutput := AgentOutput("", Success, "", "");
    if failure.None? {
      events := events + [ResultRead(ctx.outputPath)];
      if s.read.Err? {
        failure := Some(s.read.msg);
      } else {
        var validated := deps.validate(s.read.value, deps.contract);
        if validated.Err? {
          failure := Some(validated.msg);
        } else {
          output := validated.value;
          if output.taskId != task.id {
            failure := Some(MismatchMessage(output.taskId, task.id));
          }
        }
      }
    }
    if failure.None? {
      var updatedTasks, call := UpdateTasks(doc, task, output, commitSha);
      var updated := Document(doc.preludeText, updatedTasks.value);
      events := events + [call, Saved(updated)];
      failure := s.save;
      if failure.None? {
        saved := updated;
        tasksUpdated := true;
        var title := deps.formatTitle(task, output);
        if title.Err? {
          failure := Some(title.msg);
        } else {
          var body := deps.formatBody(task, output);
          if body.Err? {
            failure := Some(body.msg);
          } else {
            events := events + [Committed(title.value, body.value)];
            if s.commit.Err? {
              failure := Some(s.commit.msg);
            } else {
              commitSha := Some(s.commit.value);
              events := events + [Pushed];
              failure := s.push;
              if failure.None? && output.status != Success {
                failure := Some(StoppedMessage(task.id, output.status));
              }
            }
          }
        }
      }
    }
    return Attempt(failure, events, saved, tasksUpdated, commitSha);
  }

  /** `runOnce`. */
  method RunOnce(file: Result<Document>, s: Script, deps: Components) returns (run: Run)
    ensures run == RunOnceSpec(file, s, deps)
  {
    var trace := [ConfigLoaded];
    if s.config.Some? {
      return Run(Threw(s.config.value), trace, file);
    }
    trace := [ConfigLoaded, DocumentLoaded];
    if file.Err? {
      return Run(Threw(file.msg), trace, file);
    }
    var trackerDocument := file.value;
    var picked := PickNextTask(trackerDocument.tasks);
    if picked.None? {
      return Run(NoOpenTask, trace, file);
    }
    var task := picked.value;
    PickedIsListed(trackerDocument.tasks);
    trace := [ConfigLoaded, DocumentLoaded, CleanTreeChecked];
    if s.cleanTree.Some? {
      return Run(Threw(s.cleanTree.value), trace, file);
    }
    var attempt := 1;
    trace := [ConfigLoaded, DocumentLoaded, CleanTreeChecked, ContextCreated(task.id, attempt)];
    if s.context.Err? {
      return Run(Threw(s.context.msg), trace, file);
    }
    var ctx := s.context.value;
    var prompt := deps.build(PromptStrategy.PromptInput(task, s.displayPath, deps.contract, trackerDocument));

    var a := Try(trackerDocument, task, ctx, prompt, s, deps);
    trace := trace + a.events;
    var saved := a.file;
    if a.error.Some? {
      var reason := a.error.value;
      var recovery: seq<Event> := [];
      if !a.tasksUpdated || a.commitSha.None? || a.commitSha.value == "" {
        var blocked := MarkBlocked(trackerDocument.tasks, task.id, reason, a.commitSha);
        recovery := [MarkedBlocked(task.id, reason, a.commitSha)];
        if blocked.Ok? {
          var recovered := Document(trackerDocument.preludeText, blocked.value);
          recovery := recovery + [Saved(recovered)];
          if s.recoverySave.None? {
            saved := recovered;
          }
        }
      }
      assert recovery == RecoveryEvents(trackerDocument, task, a);
      trace := trace + recovery;
      assert saved == RecoveredFile(trackerDocument, task, a, s);
      return Run(Threw(reason), trace, Ok(saved));
    }
    return Run(Completed, trace, Ok(saved));
  }

  // ---------------------------------------------------------------------
  // Properties of one run
  // ---------------------------------------------------------------------

  /** The run gets as far as the try block. */
  predicate Ready(file: Result<Document>, s: Script) {
    s.config.None? && file.Ok? && PickNextTask(file.value.tasks).Some? && s.cleanTree.None? && s.context.Ok?
  }

  function Picked(file: Result<Document>, s: Script): Task
    requires Ready(file, s)
  {
    PickNextTask(file.value.tasks).value
  }

  function PromptFor(file: Result<Document>, s: Script, deps: Components): string
    requires Ready(file, s)
  {
    deps.build(PromptStrategy.PromptInput(Picked(file, s), s.displayPath, deps.contract, file.value))
  }

  function AttemptOf(file: Result<Document>, s: Script, deps: Components): Attempt
    requires Ready(file, s)
  {
    TryBlock(file.value, Picked(file, s), s.context.value, PromptFor(file, s, deps), s, deps)
  }

  /** A run that reaches the try block is the preamble, the attempt and, when it threw, the catch block. */
  lemma ReadyRun(file: Result<Document>, s: Script, deps: Components)
    requires Ready(file, s)
    ensures var a := AttemptOf(file, s, deps);
      var task := Picked(file, s);
      RunOnceSpec(file, s, deps) ==
        if a.error.None? then Run(Completed, Preamble(task) + a.events, Ok(a.file))
        else Run(Threw(a.error.value), Preamble(task) + a.events + RecoveryEvents(file.value, task, a), Ok(RecoveredFile(file.value, task, a, s)))
  {
  }

  /** The agent's validated output, or the first error on the way to it. */
  function AgentResult(s: Script, deps: Components): Result<AgentOutput> {
    if s.agent.Some? then Err(s.agent.value)
    else if s.read.Err? then Err(s.read.msg)
    else deps.validate(s.read.value, deps.contract)
  }

  /** The formatter's outcome for the picked task and the agent's output. */
  function FormattedFor(file: Result<Document>, s: Script, deps: Components): Result<(string, string)>
    requires Ready(file, s) && AgentResult(s, deps).Ok?
  {
    Formatted(deps, Picked(file, s), AgentResult(s, deps).value)
  }

  /** With no open task the run loads the configuration and the file, and stops there; it says so only then. */
  lemma NoOpenTaskDoesNothing(file: Result<Document>, s: Script, deps: Components)
    ensures RunOnceSpec(file, s, deps).result == NoOpenTask <==>
      s.config.None? && file.Ok? && forall k :: 0 <= k < |file.value.tasks| ==> file.value.tasks[k].status != Open
    ensures RunOnceSpec(file, s, deps).result == NoOpenTask ==>
      RunOnceSpec(file, s, deps).trace == [ConfigLoaded, DocumentLoaded] && RunOnceSpec(file, s, deps).file == file
  {
  }

  /** A failure before the try block propagates as it is; no task is marked and nothing is saved. */
  lemma PreflightFailures(file: Result<Document>, s: Script, deps: Components)
    ensures s.config.Some? ==> RunOnceSpec(file, s, deps) == Run(Threw(s.config.value), [ConfigLoaded], file)
    ensures s.config.None? && file.Err? ==> RunOnceSpec(file, s, deps) == Run(Threw(file.msg), [ConfigLoaded, DocumentLoaded], file)
    ensures s.config.None? && file.Ok? && PickNextTask(file.value.tasks).Some? && s.cleanTree.Some? ==>
      RunOnceSpec(file, s, deps) == Run(Threw(s.cleanTree.value), [ConfigLoaded, DocumentLoaded, CleanTreeChecked], file)
    ensures s.config.None? && file.Ok? && PickNextTask(file.value.tasks).Some? && s.cleanTree.None? && s.context.Err? ==>
      RunOnceSpec(file, s, deps) == Run(Threw(s.context.msg), Preamble(PickNextTask(file.value.tasks).value), file)
  {
  }

  /** No run context is created among `events`. */
  predicate NoContext(events: seq<Event>) {
    forall k :: 0 <= k < |events| ==> !events[k].ContextCreated?
  }

  /** The try block creates no run context: the agent gets one attempt. */
  lemma TryBlockNoContext(doc: Document, task: Task, ctx: RunContext, prompt: string, s: Script, deps: Components)
    ensures NoContext(TryBlock(doc, task, ctx, prompt, s, deps).events)
  {
  }

  /** Every run that creates a context does so once, for the picked task, as attempt 1, before the agent runs. */
  lemma SingleAttempt(file: Result<Document>, s: Script, deps: Components)
    requires Ready(file, s)
    ensures Preamble(Picked(file, s)) <= RunOnceSpec(file, s, deps).trace
    ensures forall k :: 0 <= k < |RunOnceSpec(file, s, deps).trace| && RunOnceSpec(file, s, deps).trace[k].ContextCreated? ==>
      k == 3 && RunOnceSpec(file, s, deps).trace[k] == ContextCreated(Picked(file, s).id, 1)
  {
    var a := AttemptOf(file, s, deps);
    var task := Picked(file, s);
    ReadyRun(file, s, deps);
    TryBlockNoContext(file.value, task, s.context.value, PromptFor(file, s, deps), s, deps);
    if a.error.None? {
      OnlyPreambleCreatesContext(task, a.events, []);
      assert Preamble(task) + a.events + [] == Preamble(task) + a.events;
    } else {
      OnlyPreambleCreatesContext(task, a.events, RecoveryEvents(file.value, task, a));
    }
  }

  /** After the preamble, events that create no context leave its one context creation the only one. */
  lemma OnlyPreambleCreatesContext(task: Task, events: seq<Event>, extra: seq<Event>)
    requires NoContext(events) && NoContext(extra)
    ensures var t := Preamble(task) + events + extra;
      Preamble(task) <= t && forall k :: 0 <= k < |t| && t[k].ContextCreated? ==> k == 3 && t[k] == ContextCreated(task.id, 1)
  {
    var t := Preamble(task) + events + extra;
    forall k | 0 <= k < |t| && t[k].ContextCreated?
      ensures k == 3 && t[k] == ContextCreated(task.id, 1)
    {
      if 4 <= k {
        assert false;
      }
    }
  }

  /** Every run context among `events` is a first attempt. */
  predicate FirstAttemptsOnly(events: seq<Event>) {
    forall k :: 0 <= k < |events| && events[k].ContextCreated? ==> events[k].attempt == 1
  }

  lemma FirstAttemptsAppend(a: seq<Event>, b: seq<Event>)
    requires FirstAttemptsOnly(a) && FirstAttemptsOnly(b)
    ensures FirstAttemptsOnly(a + b)
  {
    assert forall k :: |a| <= k < |a + b| ==> (a + b)[k] == b[k - |a|];
  }

  /** Whatever happens, a run never makes a second attempt. */
  lemma RunIsFirstAttempt(file: Result<Document>, s: Script, deps: Components)
    ensures FirstAttemptsOnly(RunOnceSpec(file, s, deps).trace)
  {
    if Ready(file, s) {
      SingleAttempt(file, s, deps);
    } else {
      PreflightFailures(file, s, deps);
      NoOpenTaskDoesNothing(file, s, deps);
    }
  }

  /**
   * A run completes exactly when every collaborator succeeds, the output
   * names the picked task and reports success; it then marks the task done,
   * saves, commits and pushes, in that order, once each.
   */
  lemma CompletedRun(file: Result<Document>, s: Script, deps: Components)
    ensures RunOnceSpec(file, s, deps).result == Completed <==>
      Ready(file, s) && AgentResult(s, deps).Ok? &&
      AgentResult(s, deps).value.taskId == Picked(file, s).id && AgentResult(s, deps).value.status == Success &&
      s.save.None? && FormattedFor(file, s, deps).Ok? && s.commit.Ok? && s.push.None?
    ensures RunOnceSpec(file, s, deps).result == Completed ==>
      var doc := file.value;
      var task := Picked(file, s);
      var output := AgentResult(s, deps).value;
      var done := Document(doc.preludeText, WithStatus(doc.tasks, task.id, Done));
      RunOnceSpec(file, s, deps).trace == Preamble(task) + [
        AgentRan(PromptFor(file, s, deps)), ResultRead(s.context.value.outputPath),
        MarkedDone(task.id, ""), Saved(done),
        Committed(FormattedFor(file, s, deps).value.0, FormattedFor(file, s, deps).value.1), Pushed] &&
      RunOnceSpec(file, s, deps).file == Ok(done)
  {
  }

  /** A task id other than the picked task's is an error: nothing is committed and the task is never marked done. */
  lemma MismatchNeverCommits(file: Result<Document>, s: Script, deps: Components)
    requires Ready(file, s) && AgentResult(s, deps).Ok?
    requires AgentResult(s, deps).value.taskId != Picked(file, s).id
    ensures var run := RunOnceSpec(file, s, deps);
      run.result == Threw(MismatchMessage(AgentResult(s, deps).value.taskId, Picked(file, s).id)) &&
      forall k :: 0 <= k < |run.trace| ==> !run.trace[k].Committed? && !run.trace[k].MarkedDone?
  {
    var task := Picked(file, s);
    ReadyRun(file, s, deps);
    MismatchAttempt(file.value, task, s.context.value, PromptFor(file, s, deps), s, deps);
    var a := AttemptOf(file, s, deps);
    var trace := [ConfigLoaded, DocumentLoaded, CleanTreeChecked, ContextCreated(task.id, 1),
      AgentRan(PromptFor(file, s, deps)), ResultRead(s.context.value.outputPath),
      MarkedBlocked(task.id, a.error.value, None), Saved(BlockedDocument(file.value, task))];
    assert RunOnceSpec(file, s, deps).trace == trace;
    forall k | 0 <= k < |trace|
      ensures !trace[k].Committed? && !trace[k].MarkedDone?
    {
    }
  }

  /** The try block stops at the id check, before anything is saved. */
  lemma MismatchAttempt(doc: Document, task: Task, ctx: RunContext, prompt: string, s: Script, deps: Components)
    requires AgentResult(s, deps).Ok? && AgentResult(s, deps).value.taskId != task.id
    ensures var a := TryBlock(doc, task, ctx, prompt, s, deps);
      a.events == [AgentRan(prompt), ResultRead(ctx.outputPath)] && !a.tasksUpdated &&
      a.error == Some(MismatchMessage(AgentResult(s, deps).value.taskId, task.id))
  {
  }

  /** The try block runs to the end for an output that does not report success, and then throws. */
  lemma StoppedAttempt(doc: Document, task: Task, ctx: RunContext, prompt: string, s: Script, deps: Components)
    requires AgentResult(s, deps).Ok? && AgentResult(s, deps).value.taskId == task.id && AgentResult(s, deps).value.status != Success
    requires s.save.None? && Formatted(deps, task, AgentResult(s, deps).value).Ok? && s.commit.Ok? && s.push.None?
    ensures var output := AgentResult(s, deps).value;
      var formatted := Formatted(deps, task, output).value;
      TryBlock(doc, task, ctx, prompt, s, deps) == Attempt(Some(StoppedMessage(task.id, output.status)), [
        AgentRan(prompt), ResultRead(ctx.outputPath),
        MarkedBlocked(task.id, CommitMessage.DeriveHumanMessage(task, output.status, output.commitMessage), None),
        Saved(BlockedDocument(doc, task)),
        Committed(formatted.0, formatted.1), Pushed], BlockedDocument(doc, task), true, Some(s.commit.value))
  {
  }

  /**
   * An output that does not report success, once saved, committed and
   * pushed with a non-empty sha, stops the run with an error; the task is
   * marked blocked exactly once, with the reason derived from the output.
   */
  lemma NonSuccessStops(file: Result<Document>, s: Script, deps: Components)
    requires Ready(file, s) && AgentResult(s, deps).Ok?
    requires AgentResult(s, deps).value.taskId == Picked(file, s).id && AgentResult(s, deps).value.status != Success
    requires s.save.None? && FormattedFor(file, s, deps).Ok? && s.commit.Ok? && s.commit.value != "" && s.push.None?
    ensures var doc := file.value;
      var task := Picked(file, s);
      var output := AgentResult(s, deps).value;
      var run := RunOnceSpec(file, s, deps);
      run.result == Threw(StoppedMessage(task.id, output.status)) &&
      run.trace == Preamble(task) + [
        AgentRan(PromptFor(file, s, deps)), ResultRead(s.context.value.outputPath),
        MarkedBlocked(task.id, CommitMessage.DeriveHumanMessage(task, output.status, output.commitMessage), None),
        Saved(BlockedDocument(doc, task)),
        Committed(FormattedFor(file, s, deps).value.0, FormattedFor(file, s, deps).value.1), Pushed] &&
      run.file == Ok(BlockedDocument(doc, task))
  {
    var a := AttemptOf(file, s, deps);
    ReadyRun(file, s, deps);
    StoppedAttempt(file.value, Picked(file, s), s.context.value, PromptFor(file, s, deps), s, deps);
    assert !NeedsRecovery(a);
    assert Preamble(Picked(file, s)) + a.events + [] == Preamble(Picked(file, s)) + a.events;
  }

  /** The try block stops at the formatter, after the list with the new status was saved. */
  lemma FormatterFailureAttempt(doc: Document, task: Task, ctx: RunContext, prompt: string, s: Script, deps: Components)
    requires AgentResult(s, deps).Ok? && AgentResult(s, deps).value.taskId == task.id
    requires s.save.None? && Formatted(deps, task, AgentResult(s, deps).value).Err?
    ensures var output := AgentResult(s, deps).value;
      var updated := Document(doc.preludeText, WithStatus(doc.tasks, task.id, UpdatedStatus(output.status)));
      TryBlock(doc, task, ctx, prompt, s, deps) == Attempt(Some(Formatted(deps, task, output).msg),
        [AgentRan(prompt), ResultRead(ctx.outputPath), UpdateEvent(task, output, None), Saved(updated)], updated, true, None)
  {
  }

  /**
   * A formatter that throws once the list with the new status is saved:
   * no commit is attempted, the error is rethrown, and the task is marked
   * blocked in the list as loaded and that list saved over the first. Only
   * when that second save fails does the file keep the new status.
   */
  lemma FormatterFailureBlocks(file: Result<Document>, s: Script, deps: Components)
    requires Ready(file, s) && AgentResult(s, deps).Ok? && AgentResult(s, deps).value.taskId == Picked(file, s).id
    requires s.save.None? && FormattedFor(file, s, deps).Err?
    ensures var doc := file.value;
      var task := Picked(file, s);
      var output := AgentResult(s, deps).value;
      var error := FormattedFor(file, s, deps).msg;
      var updated := Document(doc.preludeText, WithStatus(doc.tasks, task.id, UpdatedStatus(output.status)));
      var run := RunOnceSpec(file, s, deps);
      run.result == Threw(error) &&
      run.trace == Preamble(task) + [
        AgentRan(PromptFor(file, s, deps)), ResultRead(s.context.value.outputPath),
        UpdateEvent(task, output, None), Saved(updated),
        MarkedBlocked(task.id, error, None), Saved(BlockedDocument(doc, task))] &&
      run.file == Ok(if s.recoverySave.None? then BlockedDocument(doc, task) else updated) &&
      forall k :: 0 <= k < |run.trace| ==> !run.trace[k].Committed?
  {
    var doc := file.value;
    var task := Picked(file, s);
    var output := AgentResult(s, deps).value;
    var updated := Document(doc.preludeText, WithStatus(doc.tasks, task.id, UpdatedStatus(output.status)));
    ReadyRun(file, s, deps);
    FormatterFailureAttempt(doc, task, s.context.value, PromptFor(file, s, deps), s, deps);
    UncommittedRecovery(task, PromptFor(file, s, deps), s.context.value.outputPath, output, updated,
      FormattedFor(file, s, deps).msg, BlockedDocument(doc, task));
  }

  /** The trace of a try block that stopped after its save, with the catch block's two calls, holds no commit. */
  lemma UncommittedRecovery(task: Task, prompt: string, outputPath: string, output: AgentOutput, updated: Document, error: string, blocked: Document)
    ensures var trace := Preamble(task) + [
        AgentRan(prompt), ResultRead(outputPath), UpdateEvent(task, output, None), Saved(updated),
        MarkedBlocked(task.id, error, None), Saved(blocked)];
      forall k :: 0 <= k < |trace| ==> !trace[k].Committed?
  {
    var trace := Preamble(task) + [
      AgentRan(prompt), ResultRead(outputPath), UpdateEvent(task, output, None), Saved(updated),
      MarkedBlocked(task.id, error, None), Saved(blocked)];
    assert trace == [ConfigLoaded, DocumentLoaded, CleanTreeChecked, ContextCreated(task.id, 1),
      AgentRan(prompt), ResultRead(outputPath), UpdateEvent(task, output, None), Saved(updated),
      MarkedBlocked(task.id, error, None), Saved(blocked)];
  }

  /** Something fails in the try block before a commit exists. */
  predicate FailsBeforeCommit(file: Result<Document>, s: Script, deps: Components)
    requires Ready(file, s)
  {
    AgentResult(s, deps).Err? || AgentResult(s, deps).value.taskId != Picked(file, s).id ||
    s.save.Some? || FormattedFor(file, s, deps).Err? || s.commit.Err?
  }

  /** The error that failure is. */
  function FirstFailure(file: Result<Document>, s: Script, deps: Components): string
    requires Ready(file, s) && FailsBeforeCommit(file, s, deps)
  {
    if AgentResult(s, deps).Err? then AgentResult(s, deps).msg
    else if AgentResult(s, deps).value.taskId != Picked(file, s).id then MismatchMessage(AgentResult(s, deps).value.taskId, Picked(file, s).id)
    else if s.save.Some? then s.save.value
    else if FormattedFor(file, s, deps).Err? then FormattedFor(file, s, deps).msg
    else s.commit.msg
  }

  /**
   * A failure before the commit is rethrown unchanged, after the task is
   * marked blocked (with that error as the reason and no sha) in the list as
   * loaded and that list saved; the file holds it unless that save failed.
   */
  lemma FailureBeforeCommitBlocks(file: Result<Document>, s: Script, deps: Components)
    requires Ready(file, s) && FailsBeforeCommit(file, s, deps)
    ensures var run := RunOnceSpec(file, s, deps);
      var a := AttemptOf(file, s, deps);
      var doc := file.value;
      var task := Picked(file, s);
      run.result == Threw(FirstFailure(file, s, deps)) &&
      run.trace == Preamble(task) + a.events + [MarkedBlocked(task.id, FirstFailure(file, s, deps), None), Saved(BlockedDocument(doc, task))] &&
      run.file == Ok(if s.recoverySave.None? then BlockedDocument(doc, task) else a.file)
  {
  }

  /**
   * With this model's result validator, a result that is not a JSON object
   * stops the run with the validator's message and leaves the task blocked.
   */
  lemma NonObjectResultBlocks(file: Result<Document>, s: Script, deps: Components)
    requires Ready(file, s) && s.agent.None? && s.read.Ok? && !s.read.value.JObject?
    requires deps.validate == Validate && s.recoverySave.None?
    ensures RunOnceSpec(file, s, deps).result == Threw(NotAnObjectMessage)
    ensures RunOnceSpec(file, s, deps).file == Ok(BlockedDocument(file.value, Picked(file, s)))
  {
    FailureBeforeCommitBlocks(file, s, deps);
  }

  /** The catch block never changes what is thrown or what is attempted: the recovery save's outcome only decides the file. */
  lemma RecoveryNeverMasks(file: Result<Document>, s: Script, deps: Components, recoverySave: Option<string>)
    ensures RunOnceSpec(file, s, deps).result == RunOnceSpec(file, s.(recoverySave := recoverySave), deps).result
    ensures RunOnceSpec(file, s, deps).trace == RunOnceSpec(file, s.(recoverySave := recoverySave), deps).trace
  {
    var s' := s.(recoverySave := recoverySave);
    if Ready(file, s) {
      assert Ready(file, s') && Picked(file, s') == Picked(file, s) && PromptFor(file, s', deps) == PromptFor(file, s, deps);
      TryBlockIgnoresRecoverySave(file.value, Picked(file, s), s.context.value, PromptFor(file, s, deps), s, deps, recoverySave);
      ReadyRun(file, s, deps);
      ReadyRun(file, s', deps);
    }
  }

  /** The try block does not look at the recovery save. */
  lemma TryBlockIgnoresRecoverySave(doc: Document, task: Task, ctx: RunContext, prompt: string, s: Script, deps: Components, recoverySave: Option<string>)
    ensures TryBlock(doc, task, ctx, prompt, s, deps) == TryBlock(doc, task, ctx, prompt, s.(recoverySave := recoverySave), deps)
  {
  }

  /** A run that completes has marked done the task it picked, which was open, and nothing else. */
  lemma CompletedMarksPickedDone(file: Result<Document>, s: Script, deps: Components)
    requires RunOnceSpec(file, s, deps).result == Completed
    ensures file.Ok? && PickNextTask(file.value.tasks).Some?
    ensures RunOnceSpec(file, s, deps).file ==
      Ok(Document(file.value.preludeText, WithStatus(file.value.tasks, PickNextTask(file.value.tasks).value.id, Done)))
  {
    CompletedRun(file, s, deps);
  }

  // ---------------------------------------------------------------------
  // Running every open task
  // ---------------------------------------------------------------------

  /** The number of open tasks. */
  function OpenCount(tasks: seq<Task>): nat {
    if tasks == [] then 0 else (if tasks[0].status == Open then 1 else 0) + OpenCount(tasks[1..])
  }

  /** Marking done the id of an open task leaves fewer open tasks. */
  lemma {:induction false} MarkingOpenTaskDoneShrinks(tasks: seq<Task>, id: string)
    requires exists k :: 0 <= k < |tasks| && tasks[k].id == id && tasks[k].status == Open
    ensures OpenCount(WithStatus(tasks, id, Done)) < OpenCount(tasks)
  {
    var r := WithStatus(tasks, id, Done);
    assert r[1..] == WithStatus(tasks[1..], id, Done);
    if tasks[0].id == id && tasks[0].status == Open {
      NoMoreOpen(tasks[1..], id);
    } else {
      var k :| 0 <= k < |tasks| && tasks[k].id == id && tasks[k].status == Open;
      assert k != 0;
      assert tasks[1..][k - 1] == tasks[k];
      MarkingOpenTaskDoneShrinks(tasks[1..], id);
    }
  }

  /** Marking an id done never opens a task. */
  lemma {:induction false} NoMoreOpen(tasks: seq<Task>, id: string)
    ensures OpenCount(WithStatus(tasks, id, Done)) <= OpenCount(tasks)
  {
    if tasks != [] {
      assert WithStatus(tasks, id, Done)[1..] == WithStatus(tasks[1..], id, Done);
      NoMoreOpen(tasks[1..], id);
    }
  }

  /** `OpenCount` is zero exactly when no task is open. */
  lemma {:induction false} NoOpenCount(tasks: seq<Task>)
    ensures OpenCount(tasks) == 0 <==> forall k :: 0 <= k < |tasks| ==> tasks[k].status != Open
  {
    if tasks != [] {
      NoOpenCount(tasks[1..]);
      assert forall k :: 1 <= k < |tasks| ==> tasks[k] == tasks[1..][k - 1];
    }
  }

  /**
   * `runAll`: load the file, stop when no task is open, otherwise run once;
   * the first error ends the loop. `scripts(n)` is what the collaborators do
   * in run `n`. Each run completes one open task, so the loop ends, and when
   * it ends without an error no task is left open.
   */
  method RunAll(file: Result<Document>, scripts: nat -> Script, deps: Components)
    returns (error: Option<string>, trace: seq<Event>, final: Result<Document>, runs: nat)
    ensures error.None? ==> final.Ok? && forall k :: 0 <= k < |final.value.tasks| ==> final.value.tasks[k].status != Open
    ensures error.None? ==> file.Ok? && runs <= OpenCount(file.value.tasks)
    ensures FirstAttemptsOnly(trace)
  {
    final := file;
    trace := [];
    runs := 0;
    while true
      invariant final.Ok? ==> file.Ok? && runs + OpenCount(final.value.tasks) <= OpenCount(file.value.tasks)
      invariant runs > 0 ==> final.Ok?
      invariant FirstAttemptsOnly(trace)
      decreases if final.Ok? then OpenCount(final.value.tasks) else 0
    {
      FirstAttemptsAppend(trace, [DocumentLoaded]);
      trace := trace + [DocumentLoaded];
      if final.Err? {
        return Some(final.msg), trace, final, runs;
      }
      if PickNextTask(final.value.tasks).None? {
        NoOpenCount(final.value.tasks);
        return None, trace, final, runs;
      }
      var run := RunOnce(final, scripts(runs), deps);
      RunIsFirstAttempt(final, scripts(runs), deps);
      FirstAttemptsAppend(trace, run.trace);
      trace := trace + run.trace;
      if run.result.Threw? {
        return Some(run.result.error), trace, run.file, runs + 1;
      }
      NoOpenTaskDoesNothing(final, scripts(runs), deps);
      CompletedMarksPickedDone(final, scripts(runs), deps);
      ghost var tasks := final.value.tasks;
      ghost var k :| FirstOpenAt(tasks, k) && tasks[k] == PickNextTask(tasks).value;
      MarkingOpenTaskDoneShrinks(tasks, tasks[k].id);
      final := run.file;
      runs := runs + 1;
    }
  }
}

# bman-dev-agent task-resolution engine, modelled in Dafny

bman-dev-agent works through a checkbox task list kept in a Markdown tasks file, one task at a time. For each open task it:

- builds a prompt;
- runs a pluggable command-line code agent (codex, gemini, claude, or a configured command);
- validates the JSON object the agent writes against an output contract;
- records the outcome in the tasks file, as done or blocked;
- commits and pushes.

This project models the engine's sequential core and proves properties of the model:

- **Task document** (`task_line.dfy`, `task_tracker.dfy`, `task_tracker_roundtrip.dfy`):
  - the line parser, including the task-line regular expression as a small stage machine;
  - the serializer, and a round-trip theorem for canonical documents;
  - the first-open-task rule;
  - the done/blocked status transitions.
- **Output validation** (`schema_validator.dfy`, `agent_output_schema.dfy`, `result_validator.dfy`, `output_contract.dfy`):
  - the generic field-schema validator and its schema instance;
  - the contract-driven validator and the default contract.
  - These work over a JSON value datatype (`json.dfy`). Parsing JSON text is an abstract step that fails or yields a value.
- **Text rendering** (`commit_message.dfy`, `prompt_strategy.dfy`): the commit title and body with their fallbacks, and the six prompt sections.
- **Orchestrator** (`orchestrator.dfy`):
  - `runOnce` is an imperative method over scripted collaborator outcomes. It records the trace of collaborator calls and the tasks file it leaves.
  - It is proved equal to a specification function, and its ordering and failure-recovery properties are lemmas about that function.
  - `runAll` is the loop around it.
- **Configuration and agent resolution** (`agent_registry.dfy`, `config_loader.dfy`, `code_agent.dfy`):
  - the registry overlay and validation rules;
  - agent-name and command resolution;
  - the rule that decides whether a finished agent process succeeded, with the "first settlement wins" promise as a class.
- **Command line** (`cli.dfy`): the `parseArgs` loop, the decision guards of `run`, and `add-task`'s document construction.
- **Branch folder** (`tasks_file.dfy`):
  - The tracker folder name percent-encodes the branch name as `encodeURIComponent` does: the unreserved set of section 2.3 of RFC 3986 plus `!*'()`, with UTF-8 for the rest.
  - It then escapes `*`.

Shared pieces:

- `text.dfy`:
  - JavaScript whitespace, `trim`, `split(/\r?\n/)` and `join`;
  - ASCII `toLowerCase`;
  - decimal rendering and parsing.
- `types.dfy`: the data shapes of `src/types.ts`.

A thrown `Error` is modelled as `Err(message)`.

## Model

| member | source | states |
|---|---|---|
| Text.LineCountIsNewlinesPlusOne | src/schemaValidator.ts:118 | Splitting on `\r?\n` gives one more piece than there are line feeds. |
| Text.SplitJoin | src/taskTracker.ts:65 | Splitting the `"\n"`-join of lines that hold no line feed and do not end in CR gives those lines back. |
| Text.JoinSplit | src/taskTracker.ts:97 | Joining the pieces of a CRLF-free text with `"\n"` gives the text back. |
| Text.TrimShape | src/taskTracker.ts:103-105 | A trimmed string has no edge whitespace, is no longer than the input, and is empty exactly when the input is blank. |
| Text.TrimIdempotent | src/commitMessageFormatter.ts:37 | Trimming twice is trimming once. |
| Text.ToLowerFacts | src/configLoader.ts:116-118 | Lower-casing keeps a trimmed string trimmed, keeps blankness both ways, and is idempotent. |
| Text.DigitsValueOfNatToString | src/cli.ts:210-215 | `parseInt` of the decimal rendering of `n` is `n`. |
| Json.Get | src/schemaValidator.ts:60-67 | A property read is defined exactly when the key is present, and yields that member's value. |
| TaskLinePattern.MatchShape | src/taskTracker.ts:62 | A matching line captures a symbol that is empty, `x`, `X` or `!`, and a non-empty id without whitespace. |
| TaskLinePattern.FindColonIsLast | src/taskTracker.ts:62 | The id ends at the last colon that can end the greedy `(\S+):` run, as backtracking finds it. |
| TaskLinePattern.CheckboxParses | src/taskTracker.ts:62 | `- [box] ` with a blank, `x`, `X` or `!` box is consumed and leaves the id for the id stage. |
| TaskLinePattern.MatchIdParses | src/taskTracker.ts:62 | `id: title` after the checkbox captures the id and the title with its leading whitespace dropped. |
| TaskLinePattern.TaskLineParses | src/taskTracker.ts:102-107 | A rendered `- [box] id: title` line is a task line with exactly those captures. |
| TaskTracker.SymbolStatus | src/taskTracker.ts:51-56 | A status exists exactly for the symbols space, empty, `x` and `!`. |
| TaskTracker.KnownSymbolHasStatus | src/taskTracker.ts:79-85 | Every symbol the pattern can capture has a status once lower-cased. |
| TaskTracker.MatchedSymbolIsKnown | src/taskTracker.ts:79-85 | The status of a matched task line is always known, so the unknown-symbol error cannot be raised. |
| TaskTracker.NextTaskLine | src/taskTracker.ts:68-71 | The index is the first task line at or after `i`; no line before it is a task line. |
| TaskTracker.TrimmedEmptyLinesShape | src/taskTracker.ts:109-119 | The removed leading and trailing lines are blank; the kept slice is empty or starts and ends with a non-blank line. |
| TaskTracker.TrimEmptyLines | src/taskTracker.ts:109-119 | The two index loops compute that slice. |
| TaskTracker.TrimAll | src/taskTracker.ts:123 | Each description line is trimmed; the count and order are kept. |
| TaskTracker.ParseTasksStep | src/taskTracker.ts:73-95 | One task line either raises the unknown-symbol or duplicate-id error, or appends the task with trimmed id and title and the normalised description, continuing at the next task line. |
| TaskTracker.CollectNonTaskLines | src/taskTracker.ts:88-91 | The loop collects exactly the lines up to the next task line. |
| TaskTracker.ReadTask | src/taskTracker.ts:79-94 | Reading one task agrees with the step of the specification function. |
| TaskTracker.ParseTaskLines | src/taskTracker.ts:73-95 | The task loop computes the specification function from the first task line. |
| TaskTracker.ParseDocument | src/taskTracker.ts:64-100 | Parsing yields the lines before the first task line joined with `"\n"` as prelude, then the tasks; any error is the one raised. |
| TaskTracker.DuplicateIdsRejected | src/taskTracker.ts:126-130 | Two task lines with the same trimmed id make parsing fail with the duplicate-id error, whatever their statuses. |
| TaskTracker.ParsedDocumentIdsDistinct | src/taskTracker.ts:93 | A parsed document never holds two tasks with the same id. |
| TaskTracker.SerializedTaskLines | src/taskTracker.ts:147-149 | The serialized task lines are never empty and always end with an empty line. |
| TaskTracker.VisitTask | src/taskTracker.ts:134-146 | One task emits its `- [sym] id: title` line, its description lines when the description is not blank, and a separator unless it is last. |
| TaskTracker.SerializeTasksToLines | src/taskTracker.ts:132-151 | The loop emits the task blocks separated by blank lines, then the closing empty line. |
| TaskTracker.SerializeDocument | src/taskTracker.ts:161-171 | The prelude lines, then a blank line if they do not end with one, then the task lines, all joined with `"\n"`. |
| TaskTracker.SerializedDocumentEndsWithEmptyLine | src/taskTracker.ts:161-171 | A serialized document always ends with an empty line. |
| TaskTracker.PickNextTask | src/taskTracker.ts:14-16 | The result is absent exactly when no task is open; otherwise it is the first open task in list order. |
| TaskTracker.WithStatus | src/taskTracker.ts:34-40 | Same length and order; only tasks with the given id change, and only in their status. |
| TaskTracker.UpdateStatus | src/taskTracker.ts:32-45 | Succeeds exactly when the id occurs, with that status update; otherwise fails with the not-found message. |
| TaskTracker.MarkDone | src/taskTracker.ts:18-20 | The same, with status done. |
| TaskTracker.MarkBlocked | src/taskTracker.ts:22-24 | The same, with status blocked. |
| TaskTrackerRoundTrip.TaskLineRoundTrip | src/taskTracker.ts:139 | The task line of a task with a whitespace-free id and a trimmed one-line title parses back to its status, id and title. |
| TaskTrackerRoundTrip.DescriptionRoundTrip | src/taskTracker.ts:121-124 | Normalising the emitted description lines plus the separator gives a canonical description back. |
| TaskTrackerRoundTrip.PreludeRoundTrip | src/taskTracker.ts:163-168 | Emitted prelude lines are not task lines and join to the prelude, gaining a final line feed if it had none. |
| TaskTrackerRoundTrip.ParseBlocks | src/taskTracker.ts:73-95 | Parsing the separated blocks of canonical tasks with distinct ids gives those tasks back. |
| TaskTrackerRoundTrip.DocumentLines | src/taskTracker.ts:65-71 | A serialized document splits back into its lines, and its prelude ends at the first task line. |
| TaskTrackerRoundTrip.SerializeThenParse | src/taskTracker.ts:161-171 | Parsing a serialized document (canonical prelude, one or more canonical tasks, distinct ids) returns the same tasks, and the prelude with a final line feed. |
| SchemaValidator.FormatEnumOptionsShape | src/schemaValidator.ts:128-134 | Several options read `"a", "b", or "c"` in their original order. |
| SchemaValidator.MaxLinesCountsLineFeeds | src/schemaValidator.ts:114-122 | A limit is exceeded exactly when it is set, is not 0, and the line feeds reach it. |
| SchemaValidator.FieldErrorNoneIff | src/schemaValidator.ts:58-94 | A field passes exactly when a required field is present and not null, and a present value has the declared type with no coercion, is in the enumeration and keeps to the line limit. |
| SchemaValidator.RequiredFieldMissing | src/schemaValidator.ts:59-73 | A required field that is absent or null raises "Missing required field". |
| SchemaValidator.OptionalFieldSkipped | src/schemaValidator.ts:59-73 | An optional field that is absent or null passes. |
| SchemaValidator.EnumCheckedBeforeLines | src/schemaValidator.ts:76-83 | A string outside the enumeration raises the enumeration error, whatever its length. |
| SchemaValidator.FirstFieldErrorIsFirst | src/schemaValidator.ts:43-45 | No error exactly when every field passes; otherwise the error of the first failing field in schema order. |
| SchemaValidator.Parse | src/schemaValidator.ts:32-48 | The loop over the schema computes the specification function. |
| SchemaValidator.ParsedOkIff | src/schemaValidator.ts:32-56 | Parsing succeeds exactly for a string that parses to an object whose fields all pass; the object is returned unchanged, extra keys included. |
| SchemaValidator.ParsedReportsFirstFailingField | src/schemaValidator.ts:43-45 | A failure on a parsed object reports the first failing field's error. |
| AgentOutputSchema.AllFieldsRequiredStrings | src/agentOutputSchema.ts:3-44 | Every field is a string field and none is optional. |
| AgentOutputSchema.SchemaFields | src/agentOutputSchema.ts:3-44 | Eight fields in order: status has the three-name enumeration, commitMessage 10 lines, the five thought fields 20 lines each, and taskId neither. |
| AgentOutputSchema.RequiredStringField | src/schemaValidator.ts:58-84 | A required string field passes exactly when it holds a string within its enumeration and limit. |
| AgentOutputSchema.AgentOutputAccepted | src/agentOutputSchema.ts:3-44 | An object passes the schema exactly when all eight fields are such strings. |
| ResultValidator.MissingField | src/resultValidator.ts:25-31 | No error exactly when every contract field is a key; otherwise the first missing field in contract order. |
| ResultValidator.FirstMissingIndex | src/resultValidator.ts:25-31 | The reported field is at the first index whose name is missing. |
| ResultValidator.StatusNamesRoundTrip | src/resultValidator.ts:40-45 | The three status names and the statuses are inverse. |
| ResultValidator.FindField | src/resultValidator.ts:48 | The field found has the name and is in the contract; none is found exactly when no field has the name. |
| ResultValidator.ValidateOkIff | src/resultValidator.ts:4-22 | Validation succeeds exactly for an object with every contract key, string `taskId`, `commitMessage` and `aiThoughts`, a known status, and both texts within their contract limits. |
| ResultValidator.ValidateCopies | src/resultValidator.ts:13-21 | The result holds exactly the four values copied from the input. |
| ResultValidator.MissingKeysFirst | src/resultValidator.ts:11 | A missing key is reported before any type check. |
| ResultValidator.NullTaskIdFailsStringCheck | src/resultValidator.ts:25-38 | A present `taskId` holding null passes presence and fails the string check. |
| ResultValidator.NoLimitWithoutContractLimit | src/resultValidator.ts:47-55 | Without a contract field carrying a limit, any length passes. |
| ResultValidator.ValidateIgnoresOtherKeys | src/resultValidator.ts:9-21 | Keys the validator does not read do not change its result. |
| OutputContract.CommitMessageLimit | src/outputContract.ts:14-19 | The commit message is limited to 10 lines. |
| OutputContract.AiThoughtsLimit | src/outputContract.ts:20-25 | The thoughts are limited to 100 lines. |
| OutputContract.IdAndStatusUnlimited | src/outputContract.ts:6-13 | `taskId` and `status` carry no limit. |
| OutputContract.ContractKeysPresent | src/outputContract.ts:4-27 | An object that has the default contract's string fields has all four of its keys: taskId, status, commitMessage and aiThoughts. |
| OutputContract.DefaultContractAccepts | src/outputContract.ts:4-27 | Under the default contract an object is accepted exactly when the four fields are strings, the status is known, and the texts have at most 10 and 100 lines. |
| OutputContract.LongCommitMessageRejected | src/outputContract.ts:14-19 | A commit message with more than 10 lines is rejected with the exceeds-maxLines error. |
| CommitMessage.DeriveHumanMessage | src/commitMessageFormatter.ts:19-30 | The trimmed commit message when it is not blank (then non-empty and trimmed); else the task title on success; else the status sentence. |
| CommitMessage.StatusLabel | src/commitMessageFormatter.ts:49-51 | The label is `completed` exactly on success and `blocked` exactly otherwise. |
| CommitMessage.CollapseSpacesFacts | src/commitMessageFormatter.ts:33 | Replacing whitespace runs leaves single plain spaces and the same non-whitespace characters. |
| CommitMessage.NormalizeSingleLineFacts | src/commitMessageFormatter.ts:32-34 | The result is trimmed, single-spaced, has no line feed, and keeps every non-whitespace character in order. |
| CommitMessage.NormalizeSingleLineIdempotent | src/commitMessageFormatter.ts:32-34 | Normalising twice is normalising once. |
| CommitMessage.ParsedPartsTrimmed | src/commitMessageFormatter.ts:36-47 | Title and body are trimmed, and the title is one line. |
| CommitMessage.ParsedTitleEmptyIffBlank | src/commitMessageFormatter.ts:36-47 | The title is empty exactly when the message is blank; a blank message gives empty title and body. |
| CommitMessage.SingleLineMessage | src/commitMessageFormatter.ts:36-47 | A one-line message is all title and no body. |
| CommitMessage.ParseSubjectAndBody | src/commitMessageFormatter.ts:36-47 | `subject` and a blank line, then `body`, parse back to that subject and body. |
| CommitMessage.TitleMessageFallback | src/commitMessageFormatter.ts:63-66 | The title uses the agent's subject line when the message is not blank; else the normalised task title or status sentence; always trimmed and one line. |
| CommitMessage.TitleFormat | src/commitMessageFormatter.ts:63-69 | About `CommitMessage.FormatTitle`: the title is `<id> [<label>]: <message>`, or just the head when the message is empty. |
| CommitMessage.TitleIsOneLine | src/commitMessageFormatter.ts:63-69 | The title never contains a line feed. |
| CommitMessage.HeaderUnderlined | src/commitMessageFormatter.ts:99 | The header is its heading underlined with as many dashes as it has characters. |
| CommitMessage.ThoughtsSectionShape | src/commitMessageFormatter.ts:98-116 | The section is the header, then the five entries, separated by blank lines; each entry starts with its underlined label. |
| CommitMessage.EntryLines | src/commitMessageFormatter.ts:109-113 | An entry's lines are the label, a rule of equal length, then the trimmed content only when it is not blank. |
| CommitMessage.WarningNotEmpty | src/commitMessageFormatter.ts:53-60 | The warning block is never filtered out. |
| CommitMessage.NonEmpty | src/commitMessageFormatter.ts:82 | The filtered sections are all non-empty. |
| CommitMessage.BodyLayout | src/commitMessageFormatter.ts:71-85 | About `CommitMessage.FormatBody`: the body is the trimmed human message (dropped when empty), `---`, the thoughts section and the warning, separated by blank lines. It always ends with the warning. |
| CommitMessage.BodyMessageCases | src/commitMessageFormatter.ts:72-73 | The human message is the agent's body if any; empty when there is a title only; else the derived message. |
| CommitMessage.SubjectOnlyMessage | src/commitMessageFormatter.ts:71-85 | A one-line commit message becomes the title, and the body starts at the rule. |
| CommitMessage.SubjectAndBodyMessage | src/commitMessageFormatter.ts:71-85 | A subject plus body message puts the subject in the title and the body first in the body. |
| PromptStrategy.SectionLines | src/promptStrategy.ts:3-5 | A section is its title and a colon on one line, then the lines of its trimmed body. |
| PromptStrategy.TaskLines | src/promptStrategy.ts:7-10 | The task is `id - title` alone exactly when the description is empty; otherwise the description follows on the next line. |
| PromptStrategy.LimitSuffixIff | src/promptStrategy.ts:15 | The limit suffix is omitted exactly when `maxLines` is absent or 0. |
| PromptStrategy.ContractLineUnbroken | src/promptStrategy.ts:16 | A contract line holds no line break. |
| PromptStrategy.ContractOneLinePerField | src/promptStrategy.ts:12-19 | The rendered contract splits into exactly the lines `- name (max N lines): description`, one per field, in field order. |
| PromptStrategy.CompletedTasks | src/promptStrategy.ts:22 | The listed tasks are exactly the done tasks other than the current one. |
| PromptStrategy.CompletedTasksAppend | src/promptStrategy.ts:22 | Filtering keeps document order. |
| PromptStrategy.CompletedSection | src/promptStrategy.ts:21-29 | `None.` when nothing is listed; otherwise its lines are `id [done] - title`, one per listed task, in document order. |
| PromptStrategy.InstructionsShape | src/promptStrategy.ts:34-39 | The instructions are trimmed and end with a full stop. |
| PromptStrategy.BuildIsJoinedSections | src/promptStrategy.ts:31-49 | About `PromptStrategy.Build`: the right trim removes nothing: the prompt is the sections joined by blank lines, ending with the instructions. |
| PromptStrategy.BuildStartsWithPrelude | src/promptStrategy.ts:41 | The prompt starts with the prelude section. |
| PromptStrategy.PreludeSection | src/promptStrategy.ts:41 | An empty prelude renders as `None.`, any other as its trim. |
| Orchestrator.PickedIsListed | src/orchestrator.ts:34-35 | The picked task's id is in the loaded list. |
| Orchestrator.UpdateTasks | src/orchestrator.ts:121-134 | Success marks the task done; any other status marks it blocked with the derived reason; the tracker call made is recorded. |
| Orchestrator.Try | src/orchestrator.ts:61-90 | The try block's steps compute the specification's attempt: agent, read, validate, id check, update and save, format title then body (either may throw), commit, push, stop on non-success. |
| Orchestrator.RunOnce | src/orchestrator.ts:17-106 | The run computes the specification function: its result, its call trace and the tasks file it leaves. |
| Orchestrator.NoOpenTaskDoesNothing | src/orchestrator.ts:34-39 | A run reports nothing to do exactly when configuration and file load and no task is open; then it only loaded them and changed nothing. |
| Orchestrator.PreflightFailures | src/orchestrator.ts:31-46 | Configuration, load, clean-tree and context failures are thrown with no mark-blocked and no save. |
| Orchestrator.TryBlockNoContext | src/orchestrator.ts:61-90 | The try block creates no run context. |
| Orchestrator.SingleAttempt | src/orchestrator.ts:45-46 | A run creates exactly one context, for attempt 1 of the picked task. |
| Orchestrator.RunIsFirstAttempt | src/orchestrator.ts:45-46 | Every context a run creates is for attempt 1. |
| Orchestrator.CompletedRun | src/orchestrator.ts:61-90 | A run completes exactly when the agent's valid output names the picked task with success and save, formatting, commit and push succeed; it marks done and saves before the commit, and pushes once after it. |
| Orchestrator.MismatchNeverCommits | src/orchestrator.ts:67-71 | A mismatched task id throws the mismatch error with no commit and no mark-done. |
| Orchestrator.NonSuccessStops | src/orchestrator.ts:73-104 | A non-success status marks blocked with the derived reason, saves, commits, pushes and throws the stopping error, with no second mark-blocked. |
| Orchestrator.FailureBeforeCommitBlocks | src/orchestrator.ts:91-104 | A failure before a commit sha exists (agent, read, validation, id check, save, formatter or commit) throws it after one mark-blocked of the original list with the error as reason, then a save. |
| Orchestrator.FormatterFailureAttempt | src/orchestrator.ts:73-78 | A formatter that throws after the save ends the try block with that error, the new status saved and no commit sha. |
| Orchestrator.FormatterFailureBlocks | src/orchestrator.ts:73-104 | A formatter that throws after the save is rethrown with no commit in the trace; the task is marked blocked in the list as loaded and that list saved, and the file keeps the new status only when that second save fails. |
| Orchestrator.NonObjectResultBlocks | src/orchestrator.ts:64-65 | A non-object agent result blocks the task and throws the not-an-object error. |
| Orchestrator.RecoveryNeverMasks | src/orchestrator.ts:96-104 | Whether the recovery save fails never changes the error thrown or the calls made. |
| Orchestrator.CompletedMarksPickedDone | src/orchestrator.ts:73-75 | A completed run leaves the picked task done and all else as loaded. |
| Orchestrator.MarkingOpenTaskDoneShrinks | src/orchestrator.ts:108-119 | Marking an open task done lowers the number of open tasks. |
| Orchestrator.RunAll | src/orchestrator.ts:108-119 | The loop stops at the first error. Without one it ends with no open task, after at most as many runs as there were open tasks, every attempt being 1. |
| Cli.ParseCommand | src/cli.ts:279-287 | `resolve` and `add-task` are accepted, each exactly for its own word. |
| Cli.CommandNamesRoundTrip | src/cli.ts:279-287 | Command names and `parseCommand` are inverse. |
| Cli.AgentAssignment | src/cli.ts:258-261 | `--agent=v` yields the text after `=` up to the next `=`. |
| Cli.StepAt | src/cli.ts:224-268 | Each step consumes at least the current argument. |
| Cli.ParseArgs | src/cli.ts:219-277 | The loop over argv from index 2 computes the specification function. |
| Cli.ParsedOptionsCoherent | src/cli.ts:231-241 | Parsed options name a command or ask for help, and carry a description only for `add-task`. |
| Cli.NoCommandRejected | src/cli.ts:271-273 | Without `--help`, an argv with no positional word never parses. |
| Cli.EmptyArgvRejected | src/cli.ts:271-273 | No arguments raises "No command provided.". |
| Cli.MissingAgentValue | src/cli.ts:248-252 | `--agent` with no or an empty following value throws "Missing value for --agent". |
| Cli.ParseFlags | src/cli.ts:243-266 | The flags `--all`, `--push`, `--agent v` and `--help` set exactly their options. |
| Cli.ParseWords | src/cli.ts:231-241 | The first positional word is the command; for `add-task` the second is the description. |
| Cli.ParseRendered | src/cli.ts:219-277 | Every expressible set of options, rendered as argv, parses back to itself. |
| Cli.AddTaskAcceptsResolveFlags | src/cli.ts:219-277 | As written, `add-task` followed by `--all`, `--push` or `--agent codex` and a description parses, with that option set. |
| Cli.ParsedArgsResolveOnly | tests/cli.test.ts:94-104 | The parse the tests expect: whatever it accepts is what `parseArgs` accepts, and never an `add-task` with `--all`, `--push` or `--agent`. |
| Cli.ResolveOnlyOptionsRejected | tests/cli.test.ts:94-104 | That parse differs from `parseArgs` exactly for an `add-task` parsed with a resolve-only option, so all other rendered options still parse back to themselves. |
| Cli.AddTaskResolveFlagsRejected | tests/cli.test.ts:94-104 | The three argument lists of the test are rejected with a usage error naming `resolve`. |
| Cli.TaskNumberOfTaskId | src/cli.ts:208-215 | The id `TASK-n` carries the number `n` for the id pattern. |
| Cli.GetNextTaskId | src/cli.ts:205-216 | As written: `TASK-` one more than the last numbered id in list order. |
| Cli.LastNumberedIdReused | src/cli.ts:205-216 | As written, tasks `TASK-2`, `TASK-1` get `TASK-2` again, an id already taken. |
| Cli.MaxTaskNumberIsMax | src/cli.ts:205-216 | The corrected scan finds the highest number among the matching ids. |
| Cli.FreshTaskId | src/cli.ts:205-216 | The corrected next id is never an id already in the list. |
| Cli.GetFreshTaskId | src/cli.ts:205-216 | The corrected forward scan over every task computes that fresh id. |
| Cli.OrchestrateIff | src/cli.ts:50-105 | About `Cli.Run`: `resolve` hands over to the orchestrator exactly when the agent is codex in any case, configuration and file load, no task is blocked and one is open. |
| Cli.OnlyCodex | src/cli.ts:75-78 | Any other agent name is rejected with the unsupported-agent usage error. |
| Cli.BlockedTasksStopResolve | src/cli.ts:82-93 | A blocked task sets exit code 1 before the open-task check. |
| Cli.BlankDescriptionRejected | src/cli.ts:153-157 | `add-task` with a missing or blank description raises a usage error. |
| Cli.AddTaskAppendsOne | src/cli.ts:153-178 | `add-task` appends exactly one open task with the trimmed title, an empty description and a fresh id, keeping the prelude and the tasks. |
| AgentRegistry.Lookup | src/codeAgent.ts:124 | A read finds an entry exactly when the key is present, and it is that key's entry. |
| AgentRegistry.Put | src/configLoader.ts:99 | Assigning an existing key keeps the key order; a new key goes last. |
| AgentRegistry.PutReadsEntry | src/configLoader.ts:99 | After the assignment the key reads the new entry. |
| AgentRegistry.PutKeepsOthers | src/configLoader.ts:99 | The assignment leaves every other key's entry alone. |
| AgentRegistry.PutKeepsDistinct | src/configLoader.ts:99 | The assignment keeps the keys distinct. |
| AgentRegistry.OverlayLookup | src/codeAgent.ts:164 | After the spread, the second object's keys read its entries and the others read the first's. |
| AgentRegistry.OverlayDistinct | src/codeAgent.ts:164 | The spread keeps the keys distinct. |
| AgentRegistry.BuiltinKeys | src/configLoader.ts:75-85 | The built-in registry holds codex, gemini and claude, in that order, once each. |
| ConfigLoader.NormalizedAgentName | src/configLoader.ts:108-114 | A non-blank string is trimmed and lower-cased; anything else gives `codex`; the result is always a trimmed, lower-case, non-blank name. |
| ConfigLoader.NormalizeAgentNameIdempotent | src/configLoader.ts:108-114 | Normalising a normalised name changes nothing. |
| ConfigLoader.TrimItems | src/configLoader.ts:132 | Strings are trimmed and non-strings become `""`, item by item. |
| ConfigLoader.NormalizeCmdIff | src/configLoader.ts:128-137 | A command is kept exactly when it is a non-empty array of non-blank strings, and then with every item trimmed. |
| ConfigLoader.BuildRegistry | src/configLoader.ts:87-102 | The loop over the user entries computes the built-ins overlaid by each normalised, non-empty key. |
| ConfigLoader.OverlayUntouched | src/configLoader.ts:92-100 | A key no user entry normalises to keeps its entry. |
| ConfigLoader.OverlayLastWins | src/configLoader.ts:92-100 | A key reads the last user entry that normalises to it. |
| ConfigLoader.OverlayDistinct | src/configLoader.ts:92-100 | Assigning the user entries keeps the keys distinct. |
| ConfigLoader.OverlayHasKey | src/configLoader.ts:92-100 | A key is present exactly when it was before or a user entry normalises to it. |
| ConfigLoader.BuiltRegistryIsOverlay | src/configLoader.ts:87-91 | A registry that is not a plain object contributes no entries. |
| ConfigLoader.BuiltRegistryKeys | src/configLoader.ts:75-102 | The built registry has distinct keys, always holds codex, gemini and claude, never the empty key, and holds exactly the built-in and stored keys. |
| ConfigLoader.BuiltRegistryUntouched | src/configLoader.ts:75-102 | A built-in agent no user key overrides keeps its built-in command. |
| ConfigLoader.BuiltRegistryLastWins | src/configLoader.ts:92-100 | An overridden key reads the last user entry for it. |
| ConfigLoader.LoadOutcome | src/configLoader.ts:9-34 | About `ConfigLoader.Load`: loading fails exactly on a read failure, a null file, no truthy tasks file with a blank branch name, or a kept tasks file or output directory that is not a string (resolving it raises, src/configLoader.ts:139-145). Otherwise both paths are strings: configured ones kept as they are, defaults filling nullish ones, the tasks file under the branch's tracker folder. |
| ConfigLoader.LoadWithoutFile | src/configLoader.ts:15-24 | With no file and a branch name, the default agent, the built-ins and both default paths are used. |
| ConfigLoader.FirstInvalidEntry | src/configLoader.ts:161-169 | No error exactly when every entry is valid; otherwise the message names the first invalid key. |
| ConfigLoader.ValidateRegistryEntries | src/configLoader.ts:161-169 | The loop over the keys computes that error. |
| ConfigLoader.ValidateOkIff | src/configLoader.ts:36-48 | A configuration is valid exactly when the default is a non-blank registry key, both paths are non-blank strings, and every entry has a non-empty command of non-blank strings. |
| ConfigLoader.ValidationOrder | src/configLoader.ts:36-48 | The agent configuration is checked first, then the tasks file, the output directory and the entries. |
| ConfigLoader.EmptyCommandInvalid | src/configLoader.ts:161-169 | An entry stored with an empty command fails validation. |
| ConfigLoader.UnusableUserCommandInvalid | src/configLoader.ts:97-99 | A user entry whose command is unusable makes the loaded configuration invalid. |
| ConfigLoader.LoadedDefaultAgentNotBlank | src/configLoader.ts:147-159 | A loaded default agent fails the agent check exactly when it is not a registry key. |
| ConfigLoader.DefaultConfigValid | src/configLoader.ts:75-85 | The default agent with the built-in registry and non-blank paths is valid. |
| ConfigLoader.BuiltinCommandsValid | src/configLoader.ts:75-85 | Every built-in command is a non-empty array of non-blank strings. |
| CodeAgent.SortStringsSorted | src/codeAgent.ts:39 | The sort orders the keys and is a permutation of them. |
| CodeAgent.MergeRegistryLookup | src/codeAgent.ts:158-165 | The merged registry is the built-ins when nothing or an empty registry is configured; otherwise configured keys read the configured entries and the rest the built-ins. |
| CodeAgent.ResolvedNameRegistered | src/codeAgent.ts:30-43 | A resolved name is a non-empty key of the merged registry. |
| CodeAgent.ExplicitOptionWins | src/codeAgent.ts:143-156 | A given option resolves to its trimmed lower-case form when registered, and raises the unsupported-agent error listing the keys otherwise. |
| CodeAgent.DefaultAgentFallback | src/codeAgent.ts:37-42 | Without an option the normalised default is used when the merged registry has it, and the undefined-default error naming the registered agents is raised otherwise. |
| CodeAgent.NoConfigurationResolvesCodex | src/codeAgent.ts:37-42 | With no option and no configuration the agent is `codex`. |
| CodeAgent.CommandPartsClean | src/codeAgent.ts:125 | Every command part is non-empty and trimmed. |
| CodeAgent.CommandPartsKeepClean | src/codeAgent.ts:125 | Parts that are already non-empty and trimmed are all kept. |
| CodeAgent.CommandPartsEmpty | src/codeAgent.ts:125 | No parts remain exactly when every part is blank. |
| CodeAgent.ExplicitCommandArgs | src/codeAgent.ts:114-121 | An explicit command uses the given args, else the default args, else the codex args for `codex`, else none. |
| CodeAgent.RegistryCommandMissing | src/codeAgent.ts:123-131 | Without an explicit command, resolution fails with "missing a command" exactly when the entry is absent or all blank. |
| CodeAgent.RegistryCommandParts | src/codeAgent.ts:123-132 | Otherwise the first clean part is the command and the rest the args. |
| CodeAgent.DefaultCommandLine | src/codeAgent.ts:113-133 | With no options the agent runs `codex exec --sandbox workspace-write --skip-git-repo-check -`. |
| CodeAgent.RunPromise.constructor | src/codeAgent.ts:70 | A new promise is unsettled and pending. |
| CodeAgent.RunPromise.Finish | src/codeAgent.ts:71-82 | The first call settles with the error, or with success; later calls change nothing. |
| CodeAgent.CloseRule | src/codeAgent.ts:96-107 | A close succeeds exactly on exit code 0 with an output file. A non-zero or missing code is reported, with any signal, before a missing output file. |
| CodeAgent.Settle | src/codeAgent.ts:69-107 | The outcome is what the first event decides; pending when nothing happened. |
| TasksFile.Utf8 | src/tasksFile.ts:15 | Each character encodes to one to four bytes; an ASCII character to itself. |
| TasksFile.FolderNameDefined | src/tasksFile.ts:8-16 | About `TasksFile.TrackerFolderName`: it fails with "Branch name is required" exactly for a blank name; otherwise encodes the trimmed name. |
| TasksFile.EncodedWellEncoded | src/tasksFile.ts:15 | The encoding is unreserved characters other than `*` and `%XX` triplets with upper-case hex. |
| TasksFile.WellEncodedHasNoSeparator | src/tasksFile.ts:15 | Such text holds no `/`, `\` or `*`. |
| TasksFile.FolderNameSafe | src/tasksFile.ts:14-15 | A folder name is such text, with no `/`, `\` or `*`. |
| TasksFile.ReservedAsciiEscaped | src/tasksFile.ts:15 | A reserved ASCII character becomes `%` and its two upper-case hex digits. |
| TasksFile.SpecialCharactersEscaped | src/tasksFile.ts:14-15 | `/`, space and `*` become `%2F`, `%20` and `%2A`. |
| TasksFile.AlphanumericKept | src/tasksFile.ts:15 | Letters and digits are left as they are. |
| TasksFile.AlphanumericNameUnchanged | src/tasksFile.ts:8-16 | A name of letters and digits is its own folder name. |
| TasksFile.DecodeEncoded | src/tasksFile.ts:15 | Percent-decoding the encoding of ASCII text gives it back. |
| TasksFile.FolderNameInjective | src/tasksFile.ts:8-16 | Two ASCII branch names share a folder only when their trims are equal. |

## Left out

- File and process I/O:
  - reading and writing the tasks file and the configuration file, and `JSON.parse`;
  - creating directories, spawning the agent, piping its output and writing its log;
  - reading the agent's result file, the git operations and console output.
  - Each becomes a parameter or a scripted outcome: the file contents, a `Result` from the read, the agent's process events, the collaborator outcomes in `Orchestrator.Script`.
  - Orchestrator.RunAll: each `loadDocument` of the loop is taken to read back the tasks file exactly as the previous run left it; no other writer and no failing re-read are modelled.
- The run-context factory (clock, randomness and directories) and the relative display path of the output file: both are inputs.
- The default tasks-file path and the default output directory (Node `path` and the working directory): `ConfigLoader.Load` takes them as parameters. `getDefaultTasksFilePath` is not part of this model beyond the folder name.
- `createOrchestrator`, `main`, `printUsage`, `CLIAgent.defaultRegistry` and the `env` option of the agent: wiring, text and environment only.
- The orchestrator's collaborators are taken as given. The prompt builder, the validator and the commit formatter are passed in as `Orchestrator.Components`, because the formatter reads five thought fields that the validated output type does not have. Its two calls are functions that return the text or the error they throw.
- ConfigLoader.Load: the TypeError Node raises for a path that is not a string is modelled by its first sentence, `ConfigLoader.PathArgumentMessage`; the "Received …" description of the value that follows it is not modelled.
- Text.ToLower: lower-cases A–Z only; non-ASCII case mapping is not modelled.
- CodeAgent.SortStringsSorted: compares characters by code point. JavaScript's sort compares UTF-16 code units, which orders characters above U+FFFF differently.
- TasksFile.DecodeEncoded: the round trip is proved for ASCII names only. Other characters are encoded as UTF-8, but lone surrogates (which raise `URIError`) cannot occur in a Dafny string.
- Registries and JSON objects are modelled as ordered lists of distinct keys in insertion order:
  - JavaScript lists integer-like keys first, which is not modelled;
  - a JSON text with a repeated key is taken as already reduced by the parser;
  - prototype properties such as `constructor`, seen by `in` and by `registry[key]`, are not modelled.
- The checks the types make unreachable are not modelled: `agent.registry must be an object`, a falsy registry entry, `Unsupported field type`, `Unknown command`, and `Unknown task status` in the serializer.
- Unknown status symbols: the repository's description of the format calls an unknown checkbox symbol a parse error. The code's pattern only admits `x`, `X`, `!` or nothing, so other lines never match and stay plain text. The model follows the code, and `TaskTracker.MatchedSymbolIsKnown` shows that the error cannot be raised.
- TaskTrackerRoundTrip.SerializeThenParse: requires at least one task. With no tasks the serializer's separator lines are read back into the prelude.
- Cli.TaskNumber: reads the digits as an unbounded natural number; `parseInt`'s loss of precision above 2^53 is not modelled.
- TasksFile.FolderNameInjective: the injectivity of folder names is proved for ASCII names only, for the same reason as `TasksFile.DecodeEncoded`.
- Cli.AddTaskAppendsOne: `add-task` in `Cli.Run` uses the corrected `Cli.FreshTaskId` (see Findings), so this states the intended behaviour, not the as-written one.
- Cli.ParsedArgsResolveOnly: the wording of the rejection is not in the code. The model's message only has to name `resolve`, as tests/cli.test.ts:94-104 asks. `Cli.Run` takes the options as parsed by `Cli.ParsedArgs`, as written.
- tests/cli.test.ts also describes behaviour that src/cli.ts does not have: `add-task` handed to the tracker, and the agent taken from a registry. The model follows src/cli.ts.
- The source is not consistent with itself, and the model takes each part as written:
  - the orchestrator calls `configLoader.load()` with no argument, while `DefaultConfigLoader.load` takes a branch name (src/types.ts, src/configLoader.ts);
  - src/cli.ts imports `CodexAgent`, which src/codeAgent.ts does not export;
  - the commit formatter reads thought fields that `AgentOutput` and `DefaultResultValidator` never supply, so with the real wiring a successful agent run takes the path `Orchestrator.FormatterFailureBlocks` describes.

## Findings

| source | as written | input that shows it | evidently intended | confidence | as-written member | corrected member |
|---|---|---|---|---|---|---|
| src/cli.ts:205-216 | The next id is one more than the number of the last `TASK-<n>` id in list order. | Tasks `TASK-2`, then `TASK-1`: the new task gets `TASK-2`, an id already taken, so the next load of the file fails with "Duplicate task id". | One more than the highest number among the `TASK-<n>` ids, so the new id is always fresh. | high, not executed | Cli.LastNumberedIdReused | Cli.FreshTaskId |
| src/cli.ts:219-277 | Flags are read whatever the command, so `add-task` accepts `--all`, `--push` and `--agent`. | `node cli.js add-task --all "Write docs"` parses with `all` set; tests/cli.test.ts:94-104 expects a usage error naming `resolve`. | Options that only `resolve` acts on are rejected with `add-task`. | medium, not executed | Cli.AddTaskAcceptsResolveFlags | Cli.ParsedArgsResolveOnly |

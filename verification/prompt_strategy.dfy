/**
 * The prompt builder (src/promptStrategy.ts): six titled sections, in a
 * fixed order, separated by blank lines. The output file path arrives
 * already made relative to the working directory.
 */
module PromptStrategy {
  import opened Types
  import opened Text

  /** What `build` reads from its `PromptInput`. */
  datatype PromptInput = PromptInput(task: Task, outputPath: string, contract: OutputContract, document: Document)

  const NoneText := "None."

  /** `section`: the title, a colon, a line break and the trimmed body. */
  function Section(title: string, body: string): string {
    title + ":" + "\n" + Trim(body)
  }

  /** Read line by line, a section is its title with a colon, then the lines of its trimmed body. */
  lemma SectionLines(title: string, body: string)
    requires '\n' !in title
    ensures SplitLines(Section(title, body)) == [title + ":"] + SplitLines(Trim(body))
  {
    var head := title + ":";
    assert head[|head| - 1] == ':' && '\n' !in head;
    SplitLinesCons(head, Trim(body));
  }

  // ---------------------------------------------------------------------------
  // formatTask

  function Headline(task: Task): string {
    task.id + " - " + task.title
  }

  /** `formatTask`: `<id> - <title>`, then the description on the following lines when there is one. */
  function FormatTask(task: Task): string {
    if task.description != "" then Headline(task) + "\n" + task.description else Headline(task)
  }

  /** The task is its headline alone exactly when it has no description; otherwise the description follows on the next line. */
  lemma TaskLines(task: Task)
    requires Unbroken(Headline(task))
    ensures FormatTask(task) == Headline(task) <==> task.description == ""
    ensures SplitLines(FormatTask(task)) ==
      [Headline(task)] + (if task.description == "" then [] else SplitLines(task.description))
  {
    if task.description == "" {
      assert SplitLines(Headline(task)) == [Headline(task)];
    } else {
      SplitLinesCons(Headline(task), task.description);
      assert |FormatTask(task)| > |Headline(task)|;
    }
  }

  // ---------------------------------------------------------------------------
  // formatContract

  /** ` (max N lines)` when the field has a (non-zero) limit. */
  function LimitSuffix(maxLines: Option<int>): string {
    if HasLimit(maxLines) then " (max " + IntToString(maxLines.value) + " lines)" else ""
  }

  /** The suffix is left out exactly when `maxLines` is absent or 0. */
  lemma LimitSuffixIff(maxLines: Option<int>)
    ensures LimitSuffix(maxLines) == "" <==> !HasLimit(maxLines)
  {
    if HasLimit(maxLines) {
      assert |LimitSuffix(maxLines)| > 0;
    }
  }

  /** One line of the contract: `- <name><suffix>: <description>`. */
  function ContractLine(field: ContractField): string {
    "- " + field.name + LimitSuffix(field.maxLines) + ": " + field.descriptionOfContent
  }

  function ContractLines(fields: seq<ContractField>): (r: seq<string>)
    ensures |r| == |fields| && forall k :: 0 <= k < |r| ==> r[k] == ContractLine(fields[k])
  {
    seq(|fields|, k requires 0 <= k < |fields| => ContractLine(fields[k]))
  }

  /** `formatContract`: the field lines joined by line breaks. */
  function FormatContract(contract: OutputContract): string {
    Join(ContractLines(contract.fields), "\n")
  }

  lemma NoLineFeedInNumber(i: int)
    ensures '\n' !in IntToString(i)
  {
    var s := if i < 0 then NatToString(-i) else NatToString(i);
    assert forall k :: 0 <= k < |s| ==> IsDigit(s[k]);
    assert '\n' !in s;
    if i < 0 {
      assert IntToString(i) == "-" + s;
    }
  }

  lemma ContractLineUnbroken(field: ContractField)
    requires '\n' !in field.name && Unbroken(field.descriptionOfContent)
    ensures Unbroken(ContractLine(field))
  {
    var suffix := LimitSuffix(field.maxLines);
    if HasLimit(field.maxLines) {
      NoLineFeedInNumber(field.maxLines.value);
    }
    assert '\n' !in suffix;
    var head := "- " + field.name + suffix + ": ";
    assert '\n' !in head && head[|head| - 1] == ' ';
    var line := ContractLine(field);
    assert line == head + field.descriptionOfContent;
    var d := field.descriptionOfContent;
    if d != [] {
      assert line[|line| - 1] == d[|d| - 1];
    }
  }

  /** A contract of one-line names and descriptions renders as exactly one line per field, in field order. */
  lemma ContractOneLinePerField(contract: OutputContract)
    requires |contract.fields| >= 1
    requires forall k :: 0 <= k < |contract.fields| ==>
      '\n' !in contract.fields[k].name && Unbroken(contract.fields[k].descriptionOfContent)
    ensures SplitLines(FormatContract(contract)) == ContractLines(contract.fields)
  {
    var ls := ContractLines(contract.fields);
    forall k | 0 <= k < |ls|
      ensures Unbroken(ls[k])
    {
      ContractLineUnbroken(contract.fields[k]);
    }
    SplitJoin(ls);
  }

  // ---------------------------------------------------------------------------
  // formatCompletedTasks

  /** The filter of `formatCompletedTasks`: done, and not the task being run. */
  predicate CompletedOther(task: Task, currentId: string) {
    task.id != currentId && task.status == Done
  }

  /** The tasks the completed-tasks section lists, in document order. */
  function CompletedTasks(tasks: seq<Task>, currentId: string): (r: seq<Task>)
    ensures |r| <= |tasks|
    ensures forall t :: t in r <==> t in tasks && CompletedOther(t, currentId)
  {
    if tasks == [] then []
    else
      var rest := CompletedTasks(tasks[1..], currentId);
      assert forall t :: t in tasks <==> t == tasks[0] || t in tasks[1..];
      if CompletedOther(tasks[0], currentId) then [tasks[0]] + rest else rest
  }

  /** The filter keeps document order: filtering a concatenation concatenates the filtered parts. */
  lemma {:induction false} CompletedTasksAppend(a: seq<Task>, b: seq<Task>, currentId: string)
    ensures CompletedTasks(a + b, currentId) == CompletedTasks(a, currentId) + CompletedTasks(b, currentId)
    decreases |a|
  {
    if a != [] {
      assert (a + b)[0] == a[0] && (a + b)[1..] == a[1..] + b;
      CompletedTasksAppend(a[1..], b, currentId);
    } else {
      assert a + b == b;
    }
  }

  /** `<id> [<status>] - <title>`. */
  function CompletedLine(task: Task): string {
    task.id + " [" + TaskStatusName(task.status) + "] - " + task.title
  }

  function CompletedLines(tasks: seq<Task>): (r: seq<string>)
    ensures |r| == |tasks| && forall k :: 0 <= k < |r| ==> r[k] == CompletedLine(tasks[k])
  {
    seq(|tasks|, k requires 0 <= k < |tasks| => CompletedLine(tasks[k]))
  }

  /** `formatCompletedTasks`. */
  function FormatCompletedTasks(tasks: seq<Task>, currentId: string): string {
    var completed := CompletedTasks(tasks, currentId);
    if |completed| == 0 then NoneText else Join(CompletedLines(completed), "\n")
  }

  lemma CompletedLineUnbroken(task: Task)
    requires task.status == Done && '\n' !in task.id && Unbroken(task.title)
    ensures Unbroken(CompletedLine(task))
  {
    var head := task.id + " [" + TaskStatusName(task.status) + "] - ";
    assert '\n' !in head && head[|head| - 1] == ' ';
    var line := CompletedLine(task);
    assert line == head + task.title;
    if task.title != [] {
      assert line[|line| - 1] == task.title[|task.title| - 1];
    }
  }

  /**
   * With no other task done the section says `None.`; otherwise it has one
   * line per such task, in document order.
   */
  lemma CompletedSection(tasks: seq<Task>, currentId: string)
    requires forall k :: 0 <= k < |tasks| ==> '\n' !in tasks[k].id && Unbroken(tasks[k].title)
    ensures (forall t :: t in tasks ==> !CompletedOther(t, currentId)) ==> FormatCompletedTasks(tasks, currentId) == NoneText
    ensures (exists t :: t in tasks && CompletedOther(t, currentId)) ==>
      SplitLines(FormatCompletedTasks(tasks, currentId)) == CompletedLines(CompletedTasks(tasks, currentId))
  {
    var c := CompletedTasks(tasks, currentId);
    if c != [] {
      var ls := CompletedLines(c);
      forall k | 0 <= k < |ls|
        ensures Unbroken(ls[k])
      {
        assert c[k] in c;
        var i :| 0 <= i < |tasks| && tasks[i] == c[k];
        CompletedLineUnbroken(c[k]);
      }
      SplitJoin(ls);
    } else {
      assert forall t :: t in tasks ==> t !in c;
    }
  }

  // ---------------------------------------------------------------------------
  // build

  /** The fixed instructions, line by line. */
  const InstructionLines: seq<string> := [
    "You are executing exactly one task.",
    "Write a single JSON object to the output file path provided below.",
    "Do not print the JSON; do not write anywhere else.",
    "Do not describe execution flow or git operations."
  ]

  const Instructions := Join(InstructionLines, "\n")

  /** The section titles, in prompt order. */
  const SectionTitles: seq<string> := ["Tasks file prelude", "Completed tasks", "Task", "Output file", "Output contract", "Instructions"]

  /** `trackerDocument.preludeText || "None."`: only the empty prelude falls back. */
  function PreludeBody(prelude: string): string {
    if prelude != "" then prelude else NoneText
  }

  /** The six section bodies, in prompt order. */
  function SectionBodies(input: PromptInput): (r: seq<string>)
    ensures |r| == |SectionTitles|
  {
    [ PreludeBody(input.document.preludeText),
      FormatCompletedTasks(input.document.tasks, input.task.id),
      FormatTask(input.task),
      input.outputPath,
      FormatContract(input.contract),
      Instructions ]
  }

  function PromptSections(input: PromptInput): (r: seq<string>)
    ensures |r| == |SectionTitles|
    ensures forall k :: 0 <= k < |r| ==> r[k] == Section(SectionTitles[k], SectionBodies(input)[k])
  {
    var bodies := SectionBodies(input);
    seq(|SectionTitles|, k requires 0 <= k < |SectionTitles| => Section(SectionTitles[k], bodies[k]))
  }

  /** `DefaultPromptStrategy.build`: the sections joined by blank lines, right-trimmed. */
  function Build(input: PromptInput): string {
    TrimEnd(Join(PromptSections(input), "\n\n"))
  }

  lemma InstructionsShape()
    ensures Instructions != "" && Instructions[|Instructions| - 1] == '.' && IsTrimmed(Instructions)
  {
    var ls := InstructionLines;
    JoinEndsWithLast(ls, "\n");
    var last := ls[3];
    assert last[|last| - 1] == '.';
    assert Instructions[|Instructions| - 1] == last[|last| - 1];
    assert Instructions == ls[0] + "\n" + Join(ls[1..], "\n");
    assert Instructions[0] == 'Y';
  }

  /** The instructions section ends with a full stop. */
  lemma InstructionsSectionShape()
    ensures var s := Section("Instructions", Instructions); s != "" && s[|s| - 1] == '.'
  {
    InstructionsShape();
    TrimTrimmed(Instructions);
  }

  /** A join whose last part ends with a character other than whitespace is left alone by a right-trim. */
  lemma JoinTrimEnd(parts: seq<string>, sep: string)
    requires |parts| >= 1 && parts[|parts| - 1] != ""
    requires !IsSpace(parts[|parts| - 1][|parts[|parts| - 1]| - 1])
    ensures TrimEnd(Join(parts, sep)) == Join(parts, sep)
    ensures EndsWith(Join(parts, sep), parts[|parts| - 1])
  {
    JoinEndsWithLast(parts, sep);
    var j := Join(parts, sep);
    var last := parts[|parts| - 1];
    assert j[|j| - 1] == last[|last| - 1];
  }

  /**
   * The final right-trim removes nothing, because the prompt ends with the
   * instructions, whose last character is a full stop: the prompt is the six
   * sections joined by blank lines, the instructions last.
   */
  lemma BuildIsJoinedSections(input: PromptInput)
    ensures Build(input) == Join(PromptSections(input), "\n\n")
    ensures EndsWith(Build(input), Section("Instructions", Instructions))
  {
    var ps := PromptSections(input);
    assert ps[5] == Section("Instructions", Instructions) by {
      assert SectionTitles[5] == "Instructions";
      assert SectionBodies(input)[5] == Instructions;
    }
    InstructionsSectionShape();
    JoinTrimEnd(ps, "\n\n");
  }

  /** The prompt begins with the prelude section. */
  lemma BuildStartsWithPrelude(input: PromptInput)
    ensures Section("Tasks file prelude", PreludeBody(input.document.preludeText)) <= Build(input)
  {
    BuildIsJoinedSections(input);
    var ps := PromptSections(input);
    assert ps[0] == Section("Tasks file prelude", PreludeBody(input.document.preludeText)) by {
      assert SectionTitles[0] == "Tasks file prelude";
      assert SectionBodies(input)[0] == PreludeBody(input.document.preludeText);
    }
    JoinStartsWithFirst(ps, "\n\n");
  }

  lemma JoinStartsWithFirst(parts: seq<string>, sep: string)
    requires |parts| >= 1
    ensures parts[0] <= Join(parts, sep)
  {
    if |parts| > 1 {
      JoinCons(parts[0], parts[1..], sep);
      assert [parts[0]] + parts[1..] == parts;
    }
  }

  /**
   * An empty prelude renders as `None.`; a prelude of whitespace only is not
   * empty, so it renders as an empty section body; any other prelude renders
   * trimmed.
   */
  lemma PreludeSection(prelude: string)
    ensures prelude == "" ==> Section("Tasks file prelude", PreludeBody(prelude)) == Section("Tasks file prelude", NoneText)
    ensures prelude != "" && IsBlank(prelude) ==> Section("Tasks file prelude", PreludeBody(prelude)) == "Tasks file prelude" + ":" + "\n"
    ensures prelude != "" ==> Section("Tasks file prelude", PreludeBody(prelude)) == "Tasks file prelude" + ":" + "\n" + Trim(prelude)
  {
    TrimShape(prelude);
  }
}

/**
 * The task document (src/taskTracker.ts): a line-oriented parser and
 * serializer for a Markdown checkbox list that follows a free-text prelude,
 * the first-open-task rule and the status transitions.
 *
 * The parser and the serializers work by pushing onto arrays while an index
 * walks the lines; they are methods proved equal to the specification
 * functions `ParsedDocument`, `TrimmedEmptyLines`, `SerializedTaskLines`
 * and `SerializedDocument`, about which the properties are proved (here
 * and in module TaskTrackerRoundTrip).
 */
module TaskTracker {
  import opened Types
  import opened Text
  import opened TaskLinePattern

  /** STATUS_TO_SYMBOL. */
  function StatusSymbol(s: TaskStatus): char {
    match s
    case Open => ' '
    case Done => 'x'
    case Blocked => '!'
  }

  /** STATUS_SYMBOL_TO_STATUS, read with the lower-cased captured symbol. */
  function SymbolStatus(sym: string): (r: Option<TaskStatus>)
    ensures r.Some? <==> sym in {" ", "", "x", "!"}
  {
    if sym == " " || sym == "" then Some(Open)
    else if sym == "x" then Some(Done)
    else if sym == "!" then Some(Blocked)
    else None
  }

  /** Every symbol the pattern can capture is a key of the status table. */
  lemma KnownSymbolHasStatus(sym: string)
    requires KnownSymbol(sym)
    ensures SymbolStatus(ToLower(sym)).Some?
  {
    if sym != "" {
      assert ToLower(sym) == [LowerChar(sym[0])];
    }
  }

  lemma MatchedSymbolIsKnown(line: string)
    requires IsTaskLine(line)
    ensures SymbolStatus(ToLower(MatchTaskLine(line).value.symbol)).Some?
  {
    MatchShape(line);
    KnownSymbolHasStatus(MatchTaskLine(line).value.symbol);
  }

  // ---------------------------------------------------------------------
  // Parsing
  // ---------------------------------------------------------------------

  /** The first task line at or after `i`, or `|lines|`. */
  function NextTaskLine(lines: seq<string>, i: nat): (j: nat)
    requires i <= |lines|
    ensures i <= j <= |lines|
    ensures forall k {:trigger IsTaskLine(lines[k])} :: i <= k < j ==> !IsTaskLine(lines[k])
    ensures j < |lines| ==> IsTaskLine(lines[j])
    decreases |lines| - i
  {
    if i == |lines| || IsTaskLine(lines[i]) then i else NextTaskLine(lines, i + 1)
  }

  lemma NextTaskLineIs(lines: seq<string>, i: nat, j: nat)
    requires i <= j <= |lines|
    requires forall k {:trigger IsTaskLine(lines[k])} :: i <= k < j ==> !IsTaskLine(lines[k])
    requires j < |lines| ==> IsTaskLine(lines[j])
    ensures NextTaskLine(lines, i) == j
  {
  }

  predicate HasTaskId(tasks: seq<Task>, id: string) {
    exists k :: 0 <= k < |tasks| && tasks[k].id == id
  }

  const DuplicateIdPrefix := "Duplicate task id detected: "

  function DuplicateIdMessage(id: string): string {
    DuplicateIdPrefix + id
  }

  /** `trimEmptyLines`' result: the lines between the leading and the trailing blank ones. */
  function FirstNonBlank(lines: seq<string>, i: nat): (j: nat)
    requires i <= |lines|
    ensures i <= j <= |lines|
    ensures forall k :: i <= k < j ==> IsBlank(lines[k])
    ensures j < |lines| ==> !IsBlank(lines[j])
    decreases |lines| - i
  {
    if i < |lines| && IsBlank(lines[i]) then FirstNonBlank(lines, i + 1) else i
  }

  function EndNonBlank(lines: seq<string>, start: nat, end: nat): (j: nat)
    requires start <= end <= |lines|
    ensures start <= j <= end
    ensures forall k :: j <= k < end ==> IsBlank(lines[k])
    ensures j > start ==> !IsBlank(lines[j - 1])
    decreases end
  {
    if end > start && IsBlank(lines[end - 1]) then EndNonBlank(lines, start, end - 1) else end
  }

  /**
   * The lines of a description with its leading and trailing blank lines
   * removed (a line is blank when its trim is empty, see `Text.TrimShape`).
   */
  function TrimmedEmptyLines(lines: seq<string>): seq<string> {
    var s := FirstNonBlank(lines, 0);
    lines[s..EndNonBlank(lines, s, |lines|)]
  }

  /** What `TrimmedEmptyLines` removes is blank, and what it keeps starts and ends with a line that is not. */
  lemma TrimmedEmptyLinesShape(lines: seq<string>)
    ensures var r := TrimmedEmptyLines(lines);
      && (r == [] || (!IsBlank(r[0]) && !IsBlank(r[|r| - 1])))
      && var s := FirstNonBlank(lines, 0);
      && s + |r| <= |lines| && r == lines[s..s + |r|]
      && (forall k :: 0 <= k < s ==> IsBlank(lines[k]))
      && (forall k :: s + |r| <= k < |lines| ==> IsBlank(lines[k]))
  {
  }

  /** `trimEmptyLines`, moving `start` forward and `end` back. */
  method TrimEmptyLines(lines: seq<string>) returns (r: seq<string>)
    ensures r == TrimmedEmptyLines(lines)
  {
    var start := 0;
    var end := |lines|;
    while start < end && IsBlank(lines[start])
      invariant start <= end == |lines|
      invariant forall k :: 0 <= k < start ==> IsBlank(lines[k])
    {
      start := start + 1;
    }
    assert start == FirstNonBlank(lines, 0);
    while end > start && IsBlank(lines[end - 1])
      invariant start <= end <= |lines|
      invariant forall k :: end <= k < |lines| ==> IsBlank(lines[k])
    {
      end := end - 1;
    }
    assert end == EndNonBlank(lines, start, |lines|);
    r := lines[start..end];
  }

  function TrimAll(lines: seq<string>): (r: seq<string>)
    ensures |r| == |lines| && forall k :: 0 <= k < |lines| ==> r[k] == Trim(lines[k])
  {
    if lines == [] then [] else [Trim(lines[0])] + TrimAll(lines[1..])
  }

  /** `normalizeDescription`. */
  function NormalizeDescription(lines: seq<string>): string {
    Join(TrimAll(TrimmedEmptyLines(lines)), "\n")
  }

  /**
   * The tasks read from `lines[i..]`, appended to the already `parsed` ones:
   * the second loop of `parseDocument`.
   */
  function ParseTasksFrom(lines: seq<string>, i: nat, parsed: seq<Task>): Result<seq<Task>>
    requires i <= |lines|
    decreases |lines| - i
  {
    if i == |lines| then Ok(parsed)
    else if !IsTaskLine(lines[i]) then ParseTasksFrom(lines, i + 1, parsed)
    else
      var symbol := ToLower(MatchTaskLine(lines[i]).value.symbol);
      match SymbolStatus(symbol)
      case None => Err("Unknown task status symbol: " + symbol)
      case Some(status) =>
        var t := TaskAt(lines, i, status);
        if HasTaskId(parsed, t.id) then Err(DuplicateIdMessage(t.id))
        else ParseTasksFrom(lines, NextTaskLine(lines, i + 1), parsed + [t])
  }

  /** One task line's step of `ParseTasksFrom`, in the terms the loop of `ParseDocument` computes. */
  lemma ParseTasksStep(lines: seq<string>, i: nat, parsed: seq<Task>, next: nat, description: string)
    requires i < |lines| && IsTaskLine(lines[i])
    requires next == NextTaskLine(lines, i + 1)
    requires description == NormalizeDescription(lines[i + 1..next])
    ensures var m := MatchTaskLine(lines[i]).value;
      var symbol := ToLower(m.symbol);
      var status := SymbolStatus(symbol);
      ParseTasksFrom(lines, i, parsed) ==
        if status.None? then Err("Unknown task status symbol: " + symbol)
        else if HasTaskId(parsed, Trim(m.id)) then Err(DuplicateIdMessage(Trim(m.id)))
        else ParseTasksFrom(lines, next, parsed + [Task(Trim(m.id), Trim(m.rest), description, status.value)])
  {
  }

  /** The step of `ParseTasksFrom` over a task line with a known status and a new id. */
  lemma ParseTasksKnownStep(lines: seq<string>, i: nat, parsed: seq<Task>, status: TaskStatus, task: Task, next: nat)
    requires i < |lines| && IsTaskLine(lines[i])
    requires SymbolStatus(ToLower(MatchTaskLine(lines[i]).value.symbol)) == Some(status)
    requires TaskAt(lines, i, status) == task && !HasTaskId(parsed, task.id)
    requires NextTaskLine(lines, i + 1) == next
    ensures ParseTasksFrom(lines, i, parsed) == ParseTasksFrom(lines, next, parsed + [task])
  {
  }

  /** The task read from the task line `lines[i]` and the description lines that follow it. */
  function TaskAt(lines: seq<string>, i: nat, status: TaskStatus): Task
    requires i < |lines| && IsTaskLine(lines[i])
  {
    var m := MatchTaskLine(lines[i]).value;
    Task(Trim(m.id), Trim(m.rest), NormalizeDescription(lines[i + 1..NextTaskLine(lines, i + 1)]), status)
  }

  /** `parseDocument`: the prelude is every line before the first task line. */
  function ParsedDocument(content: string): Result<Document> {
    var lines := SplitLines(content);
    var p := NextTaskLine(lines, 0);
    match ParseTasksFrom(lines, p, [])
    case Err(msg) => Err(msg)
    case Ok(tasks) => Ok(Document(Join(lines[..p], "\n"), tasks))
  }

  /** The `while (i < lines.length && !matchTaskLine(lines[i]))` loops: collects lines up to the next task line. */
  method CollectNonTaskLines(lines: seq<string>, start: nat) returns (collected: seq<string>, i: nat)
    requires start <= |lines|
    ensures i == NextTaskLine(lines, start) && collected == lines[start..i]
  {
    collected := [];
    i := start;
    while i < |lines| && !IsTaskLine(lines[i])
      invariant start <= i <= |lines| && collected == lines[start..i]
      invariant forall k {:trigger IsTaskLine(lines[k])} :: start <= k < i ==> !IsTaskLine(lines[k])
    {
      collected := collected + [lines[i]];
      i := i + 1;
    }
    NextTaskLineIs(lines, start, i);
  }

  /**
   * The body of `parseDocument`'s second loop for the task line `lines[i]`
   * and its match `m`: the status lookup, the description lines up to the
   * next task line, and the duplicate-id check.
   */
  method ReadTask(lines: seq<string>, i: nat, m: TaskLineMatch, tasks: seq<Task>) returns (r: Result<Task>, next: nat)
    requires i < |lines| && MatchTaskLine(lines[i]) == Some(m)
    ensures r.Err? ==> ParseTasksFrom(lines, i, tasks) == Err(r.msg)
    ensures r.Ok? ==> i < next <= |lines| && ParseTasksFrom(lines, i, tasks) == ParseTasksFrom(lines, next, tasks + [r.value])
  {
    var statusSymbol := ToLower(m.symbol);
    var status := SymbolStatus(statusSymbol);
    var id := Trim(m.id);
    var title := Trim(m.rest);
    if status.None? {
      ParseTasksStep(lines, i, tasks, NextTaskLine(lines, i + 1), NormalizeDescription(lines[i + 1..NextTaskLine(lines, i + 1)]));
      return Err("Unknown task status symbol: " + statusSymbol), i + 1;
    }
    var descriptionLines;
    descriptionLines, next := CollectNonTaskLines(lines, i + 1);
    var description := NormalizeDescription(descriptionLines);
    ParseTasksStep(lines, i, tasks, next, description);
    if HasTaskId(tasks, id) {
      return Err(DuplicateIdMessage(id)), next;
    }
    r := Ok(Task(id, title, description, status.value));
  }

  /** `parseDocument`'s second loop: reads the task blocks from the first task line `start` on. */
  method ParseTaskLines(lines: seq<string>, start: nat) returns (r: Result<seq<Task>>)
    requires start <= |lines|
    ensures r == ParseTasksFrom(lines, start, [])
  {
    var i := start;
    var tasks: seq<Task> := [];
    while i < |lines|
      invariant start <= i <= |lines|
      invariant ParseTasksFrom(lines, i, tasks) == ParseTasksFrom(lines, start, [])
    {
      var m := MatchTaskLine(lines[i]);
      if m.None? {
        i := i + 1;
        continue;
      }
      var task;
      task, i := ReadTask(lines, i, m.value, tasks);
      if task.Err? {
        return Err(task.msg);
      }
      tasks := tasks + [task.value];
    }
    r := Ok(tasks);
  }

  method ParseDocument(content: string) returns (r: Result<Document>)
    ensures r == ParsedDocument(content)
  {
    var lines := SplitLines(content);
    var preludeLines, i := CollectNonTaskLines(lines, 0);
    var tasks := ParseTaskLines(lines, i);
    if tasks.Err? {
      return Err(tasks.msg);
    }
    r := Ok(Document(Join(preludeLines, "\n"), tasks.value));
  }

  /** Within one document, task ids are distinct. */
  predicate DistinctIds(tasks: seq<Task>) {
    forall i, j :: 0 <= i < j < |tasks| ==> tasks[i].id != tasks[j].id
  }

  /** The trimmed id of a task line. */
  function LineId(line: string): string
    requires IsTaskLine(line)
  {
    Trim(MatchTaskLine(line).value.id)
  }

  /** Once an id has been taken, a later task line with that id makes parsing fail. */
  lemma {:induction false} TakenIdRejected(lines: seq<string>, i: nat, parsed: seq<Task>, k: nat)
    requires i <= k < |lines| && IsTaskLine(lines[k])
    requires HasTaskId(parsed, LineId(lines[k]))
    ensures var r := ParseTasksFrom(lines, i, parsed); r.Err? && DuplicateIdPrefix <= r.msg
    decreases |lines| - i
  {
    if !IsTaskLine(lines[i]) {
      TakenIdRejected(lines, i + 1, parsed, k);
    } else {
      MatchedSymbolIsKnown(lines[i]);
      var m := MatchTaskLine(lines[i]).value;
      var j := NextTaskLine(lines, i + 1);
      var t := TaskAt(lines, i, SymbolStatus(ToLower(m.symbol)).value);
      if !HasTaskId(parsed, t.id) {
        assert k >= j;
        assert parsed <= parsed + [t];
        assert HasTaskId(parsed + [t], LineId(lines[k])) by {
          var w :| 0 <= w < |parsed| && parsed[w].id == LineId(lines[k]);
          assert (parsed + [t])[w] == parsed[w];
        }
        TakenIdRejected(lines, j, parsed + [t], k);
      }
    }
  }

  /** Two task lines with the same id make parsing fail, whatever their statuses. */
  lemma {:induction false} RepeatedIdRejected(lines: seq<string>, i: nat, parsed: seq<Task>, k1: nat, k2: nat)
    requires i <= k1 < k2 < |lines| && IsTaskLine(lines[k1]) && IsTaskLine(lines[k2])
    requires LineId(lines[k1]) == LineId(lines[k2])
    ensures var r := ParseTasksFrom(lines, i, parsed); r.Err? && DuplicateIdPrefix <= r.msg
    decreases |lines| - i
  {
    if !IsTaskLine(lines[i]) {
      RepeatedIdRejected(lines, i + 1, parsed, k1, k2);
    } else {
      MatchedSymbolIsKnown(lines[i]);
      var m := MatchTaskLine(lines[i]).value;
      var j := NextTaskLine(lines, i + 1);
      var t := TaskAt(lines, i, SymbolStatus(ToLower(m.symbol)).value);
      if !HasTaskId(parsed, t.id) {
        assert k2 >= j;
        if k1 == i {
          assert HasTaskId(parsed + [t], LineId(lines[k2])) by {
            assert (parsed + [t])[|parsed|] == t;
          }
          TakenIdRejected(lines, j, parsed + [t], k2);
        } else {
          RepeatedIdRejected(lines, j, parsed + [t], k1, k2);
        }
      }
    }
  }

  /** A document in which two task lines share an id does not parse. */
  lemma DuplicateIdsRejected(content: string, k1: nat, k2: nat)
    requires var lines := SplitLines(content);
      && k1 < k2 < |lines| && IsTaskLine(lines[k1]) && IsTaskLine(lines[k2])
      && LineId(lines[k1]) == LineId(lines[k2])
    ensures var r := ParsedDocument(content); r.Err? && DuplicateIdPrefix <= r.msg
  {
    var lines := SplitLines(content);
    RepeatedIdRejected(lines, NextTaskLine(lines, 0), [], k1, k2);
  }

  /** A successful parse yields tasks with distinct ids, extending those already parsed. */
  lemma {:induction false} ParsedIdsDistinct(lines: seq<string>, i: nat, parsed: seq<Task>)
    requires i <= |lines| && DistinctIds(parsed)
    requires ParseTasksFrom(lines, i, parsed).Ok?
    ensures var ts := ParseTasksFrom(lines, i, parsed).value; DistinctIds(ts) && parsed <= ts
    decreases |lines| - i
  {
    if i < |lines| {
      if !IsTaskLine(lines[i]) {
        ParsedIdsDistinct(lines, i + 1, parsed);
      } else {
        MatchedSymbolIsKnown(lines[i]);
        var m := MatchTaskLine(lines[i]).value;
        var j := NextTaskLine(lines, i + 1);
        var t := TaskAt(lines, i, SymbolStatus(ToLower(m.symbol)).value);
        var next := parsed + [t];
        assert DistinctIds(next) by {
          forall a, b | 0 <= a < b < |next|
            ensures next[a].id != next[b].id
          {
            if b == |parsed| {
              assert next[a] == parsed[a];
            }
          }
        }
        ParsedIdsDistinct(lines, j, next);
      }
    }
  }

  /** Every successfully parsed document has distinct task ids. */
  lemma ParsedDocumentIdsDistinct(content: string)
    requires ParsedDocument(content).Ok?
    ensures DistinctIds(ParsedDocument(content).value.tasks)
  {
    var lines := SplitLines(content);
    ParsedIdsDistinct(lines, NextTaskLine(lines, 0), []);
  }

  // ---------------------------------------------------------------------
  // Serializing
  // ---------------------------------------------------------------------

  /** `- [sym] id: title`. */
  function TaskLine(t: Task): string {
    "- [" + [StatusSymbol(t.status)] + "] " + t.id + ": " + t.title
  }

  /** The description's lines are emitted only when its trim is non-empty. */
  function DescriptionLines(t: Task): seq<string> {
    if IsBlank(t.description) then [] else SplitLines(t.description)
  }

  function TaskBlock(t: Task): seq<string> {
    [TaskLine(t)] + DescriptionLines(t)
  }

  /** The lines of every task, in order. */
  function TaskBlocks(tasks: seq<Task>): (r: seq<seq<string>>)
    ensures |r| == |tasks| && forall k :: 0 <= k < |tasks| ==> r[k] == TaskBlock(tasks[k])
  {
    seq(|tasks|, k requires 0 <= k < |tasks| => TaskBlock(tasks[k]))
  }

  /** Blocks of lines, one empty line between consecutive blocks. */
  function Separated(blocks: seq<seq<string>>): seq<string>
    decreases |blocks|
  {
    if |blocks| == 0 then []
    else if |blocks| == 1 then blocks[0]
    else Separated(blocks[..|blocks| - 1]) + [""] + blocks[|blocks| - 1]
  }

  /** The lines `serializeTasksToLines` has pushed after visiting the first `n` of `blocks`. */
  function Emitted(blocks: seq<seq<string>>, n: nat): seq<string>
    requires n <= |blocks|
  {
    Separated(blocks[..n]) + (if 0 < n < |blocks| then [""] else [])
  }

  /** Visiting a task pushes its block, then a separator unless it is the last task. */
  lemma EmittedStep(blocks: seq<seq<string>>, n: nat)
    requires n < |blocks|
    ensures Emitted(blocks, n + 1) == Emitted(blocks, n) + blocks[n] + (if n != |blocks| - 1 then [""] else [])
  {
    assert blocks[..n + 1][..n] == blocks[..n];
    if n == 0 {
      assert blocks[..0] == [];
    }
  }

  lemma EmittedAll(blocks: seq<seq<string>>)
    ensures Emitted(blocks, |blocks|) == Separated(blocks)
  {
    assert blocks[..|blocks|] == blocks;
  }

  /** `serializeTasksToLines`: the blocks, ending in exactly one added empty line unless one is already there. */
  function SerializedTaskLines(tasks: seq<Task>): (r: seq<string>)
    ensures r != [] && r[|r| - 1] == ""
  {
    var b := Separated(TaskBlocks(tasks));
    if b == [] || b[|b| - 1] != "" then b + [""] else b
  }

  /** The body of the `forEach` callback: the lines pushed for one task. */
  method VisitTask(task: Task, separated: bool) returns (block: seq<string>)
    ensures block == TaskBlock(task) + (if separated then [""] else [])
  {
    block := [TaskLine(task)];
    if !IsBlank(task.description) {
      block := block + SplitLines(task.description);
    }
    if separated {
      block := block + [""];
    }
  }

  method SerializeTasksToLines(tasks: seq<Task>) returns (lines: seq<string>)
    ensures lines == SerializedTaskLines(tasks)
  {
    lines := [];
    var index := 0;
    ghost var blocks := TaskBlocks(tasks);
    while index < |tasks|
      invariant index <= |tasks|
      invariant lines == Emitted(blocks, index)
    {
      var task := tasks[index];
      var block := VisitTask(task, index != |tasks| - 1);
      EmittedStep(blocks, index);
      lines := lines + block;
      index := index + 1;
    }
    EmittedAll(blocks);
    if |lines| == 0 || lines[|lines| - 1] != "" {
      lines := lines + [""];
    }
  }

  /** The prelude's lines, followed by an empty separator line unless the last one is already empty. */
  function PreludeLines(prelude: string): seq<string> {
    if prelude == "" then []
    else
      var ls := SplitLines(prelude);
      if ls[|ls| - 1] != "" then ls + [""] else ls
  }

  /** `serializeDocument`. */
  function SerializedDocument(doc: Document): string {
    Join(PreludeLines(doc.preludeText) + SerializedTaskLines(doc.tasks), "\n")
  }

  method SerializeDocument(doc: Document) returns (r: string)
    ensures r == SerializedDocument(doc)
  {
    var lines: seq<string> := [];
    if doc.preludeText != "" {
      lines := SplitLines(doc.preludeText);
      if |lines| > 0 && lines[|lines| - 1] != "" {
        lines := lines + [""];
      }
    }
    assert lines == PreludeLines(doc.preludeText);
    var taskLines := SerializeTasksToLines(doc.tasks);
    lines := lines + taskLines;
    r := Join(lines, "\n");
  }

  /** The serialized text ends with a line feed and so parses back with its last line empty. */
  lemma SerializedDocumentEndsWithEmptyLine(doc: Document)
    ensures var ls := PreludeLines(doc.preludeText) + SerializedTaskLines(doc.tasks);
      ls[|ls| - 1] == ""
  {
  }

  // ---------------------------------------------------------------------
  // Selection and status transitions
  // ---------------------------------------------------------------------

  /** `tasks[k]` is the first open task. */
  predicate FirstOpenAt(tasks: seq<Task>, k: int) {
    0 <= k < |tasks| && tasks[k].status == Open && forall j :: 0 <= j < k ==> tasks[j].status != Open
  }

  /** `pickNextTask`: the first open task in list order, if any. */
  function PickNextTask(tasks: seq<Task>): (r: Option<Task>)
    ensures r.None? <==> forall k :: 0 <= k < |tasks| ==> tasks[k].status != Open
    ensures r.Some? ==> exists k :: FirstOpenAt(tasks, k) && tasks[k] == r.value
  {
    if tasks == [] then None
    else if tasks[0].status == Open then Some(tasks[0])
    else
      var r := PickNextTask(tasks[1..]);
      assert forall k :: 1 <= k < |tasks| ==> tasks[k] == tasks[1..][k - 1];
      r
  }

  /** The list after every task with id `id` has been given `status`. */
  function WithStatus(tasks: seq<Task>, id: string, status: TaskStatus): (r: seq<Task>)
    ensures |r| == |tasks|
    ensures forall k :: 0 <= k < |tasks| ==>
      && r[k].id == tasks[k].id && r[k].title == tasks[k].title && r[k].description == tasks[k].description
      && r[k].status == (if tasks[k].id == id then status else tasks[k].status)
  {
    seq(|tasks|, k requires 0 <= k < |tasks| => if tasks[k].id == id then tasks[k].(status := status) else tasks[k])
  }

  function NotFoundMessage(id: string): string {
    "Task with id \"" + id + "\" not found."
  }

  /** `updateStatus`: maps over the tasks, recording in `found` whether the id occurred. */
  method UpdateStatus(tasks: seq<Task>, taskId: string, status: TaskStatus) returns (r: Result<seq<Task>>)
    ensures r.Ok? <==> HasTaskId(tasks, taskId)
    ensures r.Ok? ==> r.value == WithStatus(tasks, taskId, status)
    ensures r.Err? ==> r.msg == NotFoundMessage(taskId)
  {
    var found := false;
    var updated: seq<Task> := [];
    var i := 0;
    while i < |tasks|
      invariant i <= |tasks| && |updated| == i
      invariant forall k :: 0 <= k < i ==> updated[k] == WithStatus(tasks, taskId, status)[k]
      invariant found <==> exists k :: 0 <= k < i && tasks[k].id == taskId
    {
      var task := tasks[i];
      if task.id != taskId {
        updated := updated + [task];
      } else {
        found := true;
        updated := updated + [task.(status := status)];
      }
      i := i + 1;
    }
    if !found {
      return Err(NotFoundMessage(taskId));
    }
    return Ok(updated);
  }

  /** `markDone`; the commit sha is not used. */
  method MarkDone(tasks: seq<Task>, taskId: string, commitSha: string) returns (r: Result<seq<Task>>)
    ensures r.Ok? <==> HasTaskId(tasks, taskId)
    ensures r.Ok? ==> r.value == WithStatus(tasks, taskId, Done)
    ensures r.Err? ==> r.msg == NotFoundMessage(taskId)
  {
    r := UpdateStatus(tasks, taskId, Done);
  }

  /** `markBlocked`; the reason and the commit sha are not used. */
  method MarkBlocked(tasks: seq<Task>, taskId: string, reason: string, commitSha: Option<string>) returns (r: Result<seq<Task>>)
    ensures r.Ok? <==> HasTaskId(tasks, taskId)
    ensures r.Ok? ==> r.value == WithStatus(tasks, taskId, Blocked)
    ensures r.Err? ==> r.msg == NotFoundMessage(taskId)
  {
    r := UpdateStatus(tasks, taskId, Blocked);
  }
}

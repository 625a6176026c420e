/**
 * The near round trip of the task document (src/taskTracker.ts): for a
 * non-empty list of canonical tasks with distinct ids after a canonical
 * prelude, parsing the serialized document gives the same tasks back, and the
 * prelude back with a final line feed added when it lacked one.
 *
 * Canonical means what the serializer writes out and the parser reads back
 * unchanged: ids without whitespace, trimmed single-line titles, and
 * descriptions whose lines are trimmed, do not look like task lines, and do
 * not start or end with an empty line.
 */
module TaskTrackerRoundTrip {
  import opened Types
  import opened Text
  import opened TaskLinePattern
  import opened TaskTracker

  predicate CanonicalId(id: string) {
    id != [] && HasNoSpace(id)
  }

  predicate CanonicalTitle(title: string) {
    IsTrimmed(title) && SingleLine(title)
  }

  predicate CanonicalDescription(d: string) {
    d == "" ||
    (NoCrLf(d) &&
     var ls := SplitLines(d);
     ls[0] != "" && ls[|ls| - 1] != "" &&
     forall k :: 0 <= k < |ls| ==> IsTrimmed(ls[k]) && !IsTaskLine(ls[k]))
  }

  predicate CanonicalTask(t: Task) {
    CanonicalId(t.id) && CanonicalTitle(t.title) && CanonicalDescription(t.description)
  }

  /** A prelude whose lines are not task lines and that splits back into the same lines. */
  predicate CanonicalPrelude(p: string) {
    NoCrLf(p) && (p == [] || p[|p| - 1] != '\r') &&
    forall k :: 0 <= k < |SplitLines(p)| ==> !IsTaskLine(SplitLines(p)[k])
  }

  /** The prelude as it comes back: with a final line feed unless it is empty or has one. */
  function RoundTripPrelude(p: string): string {
    if p == [] || p[|p| - 1] == '\n' then p else p + "\n"
  }

  /** Every line in `lines` is one the split gives back unchanged, and none is a task line. */
  predicate PlainLines(lines: seq<string>) {
    forall k :: 0 <= k < |lines| ==> Unbroken(lines[k]) && !IsTaskLine(lines[k])
  }

  // ---------------------------------------------------------------------
  // One task line
  // ---------------------------------------------------------------------

  /** The task line of a canonical task parses back to its status, id and title. */
  lemma TaskLineRoundTrip(t: Task)
    requires CanonicalId(t.id) && CanonicalTitle(t.title)
    ensures IsTaskLine(TaskLine(t))
    ensures var m := MatchTaskLine(TaskLine(t)).value;
      SymbolStatus(ToLower(m.symbol)) == Some(t.status) && Trim(m.id) == t.id && Trim(m.rest) == t.title
  {
    var box := [StatusSymbol(t.status)];
    assert IsCheckbox(box);
    TaskLineParses(box, t.id, t.title);
    var m := MatchTaskLine(TaskLine(t)).value;
    assert m.symbol == CheckboxSymbol(box);
    match t.status
    case Open =>
    case Done =>
      assert ToLower("x") == "x";
    case Blocked =>
      assert ToLower("!") == "!";
    TrimTrimmed(t.id);
    TrimAfterTrimStart(t.title);
    TrimTrimmed(t.title);
  }

  /** The task line survives a split unchanged. */
  lemma TaskLineUnbroken(t: Task)
    requires CanonicalId(t.id) && CanonicalTitle(t.title)
    ensures Unbroken(TaskLine(t)) && TaskLine(t) != ""
  {
    var l := TaskLine(t);
    forall k | 0 <= k < |l|
      ensures l[k] != '\n'
    {
      var head := "- [" + [StatusSymbol(t.status)] + "] ";
      if k >= |head| + |t.id| + 2 {
        assert l[k] == t.title[k - |head| - |t.id| - 2];
      } else if k >= |head| {
        assert k < |head| + |t.id| ==> l[k] == t.id[k - |head|];
      }
    }
    if t.title != [] {
      assert l[|l| - 1] == t.title[|t.title| - 1];
    }
  }

  // ---------------------------------------------------------------------
  // One description
  // ---------------------------------------------------------------------

  /** A canonical description that is not empty is not blank. */
  lemma DescriptionNotBlank(d: string)
    requires CanonicalDescription(d) && d != ""
    ensures !IsBlank(d) && DescriptionLines(Task("", "", d, Open)) == SplitLines(d)
  {
    var first := SplitLines(d)[0];
    SplitLinesFirst(d);
    assert !IsSpace(first[0]) && first[0] == d[0];
  }

  /** The description lines, followed by the separating empty line, are plain lines. */
  lemma DescriptionLinesPlain(t: Task)
    requires CanonicalDescription(t.description)
    ensures PlainLines(DescriptionLines(t) + [""])
  {
    var d := t.description;
    var ls := DescriptionLines(t) + [""];
    if d != "" {
      DescriptionNotBlank(d);
      SplitLinesHaveNoLineFeed(d);
      var D := SplitLines(d);
      forall k | 0 <= k < |D|
        ensures Unbroken(D[k])
      {
        assert IsTrimmed(D[k]);
      }
    }
    forall k | 0 <= k < |ls|
      ensures Unbroken(ls[k]) && !IsTaskLine(ls[k])
    {
      if k == |ls| - 1 {
        assert ls[k] == "";
      }
    }
  }

  /** Lines that neither start nor end blank lose only the blank line after them in `trimEmptyLines`. */
  lemma TrimmedEmptyLinesDropsLast(D: seq<string>)
    requires D != [] && !IsBlank(D[0]) && !IsBlank(D[|D| - 1])
    ensures TrimmedEmptyLines(D + [""]) == D
  {
    var ls := D + [""];
    var last := |D| - 1;
    assert ls[0] == D[0] && ls[last] == D[last] && ls[|D|] == "";
    assert FirstNonBlank(ls, 0) == 0;
    assert EndNonBlank(ls, 0, |D|) == |D|;
    assert EndNonBlank(ls, 0, |ls|) == |D|;
    assert ls[0..|D|] == D;
  }

  /** Trimming trimmed lines changes nothing. */
  lemma TrimAllTrimmed(D: seq<string>)
    requires forall k :: 0 <= k < |D| ==> IsTrimmed(D[k])
    ensures TrimAll(D) == D
  {
    forall k | 0 <= k < |D|
      ensures TrimAll(D)[k] == D[k]
    {
      TrimTrimmed(D[k]);
    }
  }

  /** Trimmed lines that neither start nor end with an empty line come back from `normalizeDescription` when an empty line follows them. */
  lemma NormalizeTrimmedLines(D: seq<string>)
    requires D != [] && D[0] != "" && D[|D| - 1] != ""
    requires forall k :: 0 <= k < |D| ==> IsTrimmed(D[k])
    ensures NormalizeDescription(D + [""]) == Join(D, "\n")
  {
    TrimmedNotBlank(D[0]);
    TrimmedNotBlank(D[|D| - 1]);
    TrimmedEmptyLinesDropsLast(D);
    TrimAllTrimmed(D);
  }

  /** `normalizeDescription` gives a canonical description back from its lines and the empty line after them. */
  lemma DescriptionRoundTrip(t: Task)
    requires CanonicalDescription(t.description)
    ensures NormalizeDescription(DescriptionLines(t) + [""]) == t.description
  {
    var d := t.description;
    if d == "" {
      assert TrimmedEmptyLines([""]) == [];
    } else {
      DescriptionNotBlank(d);
      NormalizeTrimmedLines(SplitLines(d));
      JoinSplit(d);
    }
  }

  // ---------------------------------------------------------------------
  // The task blocks
  // ---------------------------------------------------------------------

  /** Every line survives a split unchanged. */
  predicate AllUnbroken(ls: seq<string>) {
    forall k :: 0 <= k < |ls| ==> Unbroken(ls[k])
  }

  /** Separated blocks, read from the front. */
  lemma {:induction false} SeparatedCons(b: seq<string>, bs: seq<seq<string>>)
    requires |bs| >= 1
    ensures Separated([b] + bs) == b + [""] + Separated(bs)
    decreases |bs|
  {
    var all := [b] + bs;
    if |bs| == 1 {
      assert all[..1] == [b];
    } else {
      var init := bs[..|bs| - 1];
      assert all[..|all| - 1] == [b] + init;
      SeparatedCons(b, init);
    }
  }

  /** The first separated line is the first line of the first block. */
  lemma {:induction false} SeparatedFirst(bs: seq<seq<string>>)
    requires |bs| >= 1 && bs[0] != []
    ensures Separated(bs) != [] && Separated(bs)[0] == bs[0][0]
    decreases |bs|
  {
    if |bs| > 1 {
      SeparatedFirst(bs[..|bs| - 1]);
    }
  }

  /** Blocks whose lines survive a split give separated lines that do too. */
  lemma {:induction false} SeparatedUnbroken(bs: seq<seq<string>>)
    requires forall j :: 0 <= j < |bs| ==> AllUnbroken(bs[j])
    ensures AllUnbroken(Separated(bs))
    decreases |bs|
  {
    if |bs| > 1 {
      var init := Separated(bs[..|bs| - 1]);
      SeparatedUnbroken(bs[..|bs| - 1]);
      var last := bs[|bs| - 1];
      assert AllUnbroken(last);
      var r := init + [""] + last;
      forall k | 0 <= k < |r|
        ensures Unbroken(r[k])
      {
        if k < |init| {
          assert r[k] == init[k];
        } else if k > |init| {
          assert r[k] == last[k - |init| - 1];
        }
      }
    }
  }

  /** The blocks of the tasks after the first. */
  lemma TaskBlocksTail(ts: seq<Task>)
    requires |ts| >= 1
    ensures TaskBlocks(ts) == [TaskBlock(ts[0])] + TaskBlocks(ts[1..])
  {
  }

  /** A canonical task's block starts with its task line, does not end in an empty line, and survives a split. */
  lemma TaskBlockShape(t: Task)
    requires CanonicalTask(t)
    ensures var b := TaskBlock(t); b[0] == TaskLine(t) && b[|b| - 1] != "" && AllUnbroken(b)
  {
    TaskLineUnbroken(t);
    DescriptionLinesPlain(t);
    var b := TaskBlock(t);
    var after := DescriptionLines(t) + [""];
    if t.description != "" {
      DescriptionNotBlank(t.description);
    }
    forall k | 0 <= k < |b|
      ensures Unbroken(b[k])
    {
      if k > 0 {
        assert b[k] == after[k - 1];
      }
    }
  }

  /** The separated blocks of canonical tasks from the `n`th on start with that task's line, do not end in an empty line, and survive a split. */
  lemma SeparatedTaskBlocks(ts: seq<Task>, n: nat)
    requires n < |ts| && forall k :: 0 <= k < |ts| ==> CanonicalTask(ts[k])
    ensures var b := Separated(TaskBlocks(ts)[n..]);
      |b| >= 1 && b[0] == TaskLine(ts[n]) && b[|b| - 1] != "" && AllUnbroken(b)
  {
    var bs := TaskBlocks(ts)[n..];
    forall j | 0 <= j < |bs|
      ensures AllUnbroken(bs[j]) && bs[j] != [] && bs[j][|bs[j]| - 1] != ""
    {
      TaskBlockShape(ts[n + j]);
    }
    SeparatedFirst(bs);
    SeparatedUnbroken(bs);
    TaskBlockShape(ts[n]);
  }

  /** A suffix made of a head line, a run of lines and a rest: where the run and the rest sit. */
  lemma HeadThenRest(lines: seq<string>, i: nat, head: string, run: seq<string>, rest: seq<string>)
    requires i <= |lines| && lines[i..] == [head] + run + rest
    ensures i + 1 + |run| <= |lines|
    ensures lines[i + 1..i + 1 + |run|] == run && lines[i + 1 + |run|..] == rest
  {
    assert |lines| - i == 1 + |run| + |rest|;
    forall k | 0 <= k < |run|
      ensures lines[i + 1..i + 1 + |run|][k] == run[k]
    {
      assert lines[i + 1 + k] == lines[i..][1 + k];
    }
    forall k | 0 <= k < |rest|
      ensures lines[i + 1 + |run|..][k] == rest[k]
    {
      assert lines[i + 1 + |run| + k] == lines[i..][1 + |run| + k];
    }
  }

  /** After the line of task `t` come its description lines and an empty line, then the next task line or the end. */
  lemma BlockEnd(lines: seq<string>, i: nat, t: Task, rest: seq<string>)
    requires CanonicalTask(t)
    requires i <= |lines| && lines[i..] == TaskBlock(t) + [""] + rest
    requires rest == [] || IsTaskLine(rest[0])
    ensures i + |TaskBlock(t)| + 1 <= |lines|
    ensures NextTaskLine(lines, i + 1) == i + |TaskBlock(t)| + 1
    ensures lines[i + 1..NextTaskLine(lines, i + 1)] == DescriptionLines(t) + [""]
    ensures lines[i + |TaskBlock(t)| + 1..] == rest
  {
    var after := DescriptionLines(t) + [""];
    var j := i + |TaskBlock(t)| + 1;
    assert TaskBlock(t) + [""] + rest == [TaskLine(t)] + after + rest;
    HeadThenRest(lines, i, TaskLine(t), after, rest);
    DescriptionLinesPlain(t);
    forall k {:trigger IsTaskLine(lines[k])} | i + 1 <= k < j
      ensures !IsTaskLine(lines[k])
    {
      assert lines[k] == after[k - i - 1];
    }
    if j < |lines| {
      assert lines[j] == rest[0];
    }
    NextTaskLineIs(lines, i + 1, j);
  }

  /** One task block parses back to its task. */
  lemma ParseBlock(lines: seq<string>, i: nat, acc: seq<Task>, t: Task, next: nat)
    requires CanonicalTask(t) && !HasTaskId(acc, t.id)
    requires i < |lines| && lines[i] == TaskLine(t)
    requires i < next <= |lines| && NextTaskLine(lines, i + 1) == next
    requires lines[i + 1..next] == DescriptionLines(t) + [""]
    ensures ParseTasksFrom(lines, i, acc) == ParseTasksFrom(lines, next, acc + [t])
  {
    TaskLineRoundTrip(t);
    DescriptionRoundTrip(t);
    assert TaskAt(lines, i, t.status) == t;
    ParseTasksKnownStep(lines, i, acc, t.status, t, next);
  }

  /** Lines holding the separated blocks from the `n`th on hold that block, an empty line, then the rest. */
  lemma SeparatedAt(lines: seq<string>, i: nat, bs: seq<seq<string>>, n: nat)
    requires n < |bs| && i <= |lines| && lines[i..] == Separated(bs[n..]) + [""]
    ensures lines[i..] == bs[n] + [""] + (if n + 1 < |bs| then Separated(bs[n + 1..]) + [""] else [])
  {
    if n + 1 < |bs| {
      assert bs[n..] == [bs[n]] + bs[n + 1..];
      SeparatedCons(bs[n], bs[n + 1..]);
    } else {
      assert bs[n..] == [bs[n]];
    }
  }

  /** With distinct ids, the `n`th task's id is not among the ones before it. */
  lemma DistinctPrefix(ts: seq<Task>, n: nat)
    requires n < |ts| && DistinctIds(ts)
    ensures !HasTaskId(ts[..n], ts[n].id) && ts[..n] + [ts[n]] == ts[..n + 1]
  {
    assert ts[..n + 1] == ts[..n] + [ts[n]];
  }

  /** The `n`th of the separated blocks, the block of task `t`, parses back to `t`, and the blocks after it follow. */
  lemma ParseBlocksStep(lines: seq<string>, i: nat, bs: seq<seq<string>>, n: nat, acc: seq<Task>, t: Task, next: nat)
    requires n < |bs| && bs[n] == TaskBlock(t)
    requires CanonicalTask(t) && !HasTaskId(acc, t.id)
    requires n + 1 < |bs| ==> bs[n + 1] != [] && IsTaskLine(bs[n + 1][0])
    requires i <= |lines| && lines[i..] == Separated(bs[n..]) + [""]
    requires next == i + |bs[n]| + 1
    ensures next <= |lines| && lines[next..] == if n + 1 < |bs| then Separated(bs[n + 1..]) + [""] else []
    ensures ParseTasksFrom(lines, i, acc) == ParseTasksFrom(lines, next, acc + [t])
  {
    SeparatedAt(lines, i, bs, n);
    var rest := if n + 1 < |bs| then Separated(bs[n + 1..]) + [""] else [];
    if n + 1 < |bs| {
      SeparatedFirst(bs[n + 1..]);
      assert bs[n + 1..][0] == bs[n + 1];
    }
    BlockEnd(lines, i, t, rest);
    assert lines[i] == TaskLine(t) by {
      assert lines[i..][0] == TaskLine(t);
    }
    ParseBlock(lines, i, acc, t, next);
  }

  /** The serialized blocks of canonical tasks with distinct ids, from the `n`th on, parse back to those tasks. */
  lemma {:induction false} ParseBlocks(lines: seq<string>, i: nat, ts: seq<Task>, n: nat)
    requires n < |ts| && forall k :: 0 <= k < |ts| ==> CanonicalTask(ts[k])
    requires DistinctIds(ts)
    requires i <= |lines| && lines[i..] == Separated(TaskBlocks(ts)[n..]) + [""]
    ensures ParseTasksFrom(lines, i, ts[..n]) == Ok(ts)
    decreases |ts| - n
  {
    var bs := TaskBlocks(ts);
    var next := i + |bs[n]| + 1;
    DistinctPrefix(ts, n);
    if n + 1 < |ts| {
      TaskLineRoundTrip(ts[n + 1]);
    }
    ParseBlocksStep(lines, i, bs, n, ts[..n], ts[n], next);
    if n + 1 < |ts| {
      ParseBlocks(lines, next, ts, n + 1);
    } else {
      assert ts[..n + 1] == ts;
    }
  }

  // ---------------------------------------------------------------------
  // The prelude and the whole document
  // ---------------------------------------------------------------------

  /** Plain lines stay plain with an empty line after them. */
  lemma PlainLinesSnocEmpty(ls: seq<string>)
    requires PlainLines(ls)
    ensures PlainLines(ls + [""])
  {
    var pl := ls + [""];
    forall k | 0 <= k < |pl|
      ensures Unbroken(pl[k]) && !IsTaskLine(pl[k])
    {
      if k < |ls| {
        assert pl[k] == ls[k];
      }
    }
  }

  /** The prelude's serialized lines join back to the prelude with a final line feed. */
  lemma PreludeJoin(p: string)
    requires NoCrLf(p)
    ensures Join(PreludeLines(p), "\n") == RoundTripPrelude(p)
  {
    if p != "" {
      SplitLinesLastNoLineFeed(p);
      JoinWithFinalEmpty(SplitLines(p));
      JoinSplit(p);
    }
  }

  /** Lines whose last holds no line feed, with an empty line added unless the last one is, join to their join ending in a line feed. */
  lemma JoinWithFinalEmpty(ls: seq<string>)
    requires |ls| >= 1 && '\n' !in ls[|ls| - 1]
    ensures Join(if ls[|ls| - 1] != "" then ls + [""] else ls, "\n") == RoundTripPrelude(Join(ls, "\n"))
  {
    var j := Join(ls, "\n");
    if j == "" {
      assert |ls| == 1;
    } else {
      JoinLastEmptyIff(ls, j);
    }
    if ls[|ls| - 1] != "" {
      JoinSnocEmpty(ls, "\n");
    }
  }

  /** The prelude's serialized lines are plain and join back to the prelude with a final line feed. */
  lemma PreludeRoundTrip(p: string)
    requires CanonicalPrelude(p)
    ensures PlainLines(PreludeLines(p))
    ensures Join(PreludeLines(p), "\n") == RoundTripPrelude(p)
  {
    PreludeJoin(p);
    if p != "" {
      var ls := SplitLines(p);
      SplitLinesUnbroken(p);
      assert PlainLines(ls);
      if ls[|ls| - 1] != "" {
        PlainLinesSnocEmpty(ls);
      }
    }
  }

  /** Plain prelude lines, then lines starting with a task line, then an empty line: the split of their join gives them back, and the first task line is the first of `b`. */
  lemma DocumentLines(pl: seq<string>, b: seq<string>)
    requires PlainLines(pl)
    requires AllUnbroken(b) && b != [] && IsTaskLine(b[0])
    ensures var lines := pl + (b + [""]);
      SplitLines(Join(lines, "\n")) == lines && NextTaskLine(lines, 0) == |pl| &&
      lines[..|pl|] == pl && lines[|pl|..] == b + [""]
  {
    var lines := pl + (b + [""]);
    forall k | 0 <= k < |lines|
      ensures Unbroken(lines[k])
    {
      if k < |pl| {
        assert lines[k] == pl[k];
      } else if k < |pl| + |b| {
        assert lines[k] == b[k - |pl|];
      }
    }
    SplitJoin(lines);
    forall k {:trigger IsTaskLine(lines[k])} | 0 <= k < |pl|
      ensures !IsTaskLine(lines[k])
    {
      assert lines[k] == pl[k];
    }
    assert lines[|pl|] == b[0];
    NextTaskLineIs(lines, 0, |pl|);
    assert lines[..|pl|] == pl;
    assert lines[|pl|..] == b + [""];
  }

  /**
   * The near round trip: a document with at least one task, all canonical and
   * with distinct ids, after a canonical prelude, is read back with the same
   * tasks, and with the prelude gaining a final line feed if it lacked one.
   */
  lemma SerializeThenParse(doc: Document)
    requires CanonicalPrelude(doc.preludeText)
    requires |doc.tasks| >= 1 && forall k :: 0 <= k < |doc.tasks| ==> CanonicalTask(doc.tasks[k])
    requires DistinctIds(doc.tasks)
    ensures ParsedDocument(SerializedDocument(doc)) == Ok(Document(RoundTripPrelude(doc.preludeText), doc.tasks))
  {
    var ts := doc.tasks;
    var pl := PreludeLines(doc.preludeText);
    var b := Separated(TaskBlocks(ts));
    assert TaskBlocks(ts)[0..] == TaskBlocks(ts);
    SeparatedTaskBlocks(ts, 0);
    assert SerializedTaskLines(ts) == b + [""];
    PreludeRoundTrip(doc.preludeText);
    TaskLineRoundTrip(ts[0]);
    DocumentLines(pl, b);
    var lines := pl + (b + [""]);
    assert ts[..0] == [];
    ParseBlocks(lines, |pl|, ts, 0);
  }
}

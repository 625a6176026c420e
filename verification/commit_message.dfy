/**
 * The commit message formatter (src/commitMessageFormatter.ts): a one-line
 * title `<id> [<heading>]: <message>` and a body made of the agent's message,
 * a `---` rule, the agent's thoughts under underlined headings and a fixed
 * warning that the commit was written by an AI agent.
 *
 * The formatter reads five thought fields (changes made, assumptions,
 * decisions taken, points of unclarity, tests run) that the `AgentOutput` of
 * src/types.ts does not declare; it is modelled on the shape it reads.
 */
module CommitMessage {
  import opened Types
  import opened Text

  /** The five free-text thought fields the formatter reads. */
  datatype Thoughts = Thoughts(changesMade: string, assumptions: string, decisionsTaken: string,
                               pointsOfUnclarity: string, testsRun: string)

  /** The agent output as the formatter reads it. */
  datatype FormatterOutput = FormatterOutput(status: AgentStatus, commitMessage: string, thoughts: Thoughts)

  /** `CommitMessageParts`. */
  datatype CommitParts = CommitParts(title: string, body: string)

  const StatusPrefix := "Task ended with status: "

  /**
   * `deriveHumanMessage`: the trimmed commit message when it is not blank,
   * else the task title on success, else a sentence naming the status. It
   * reads only the status and the commit message of the output, so it takes
   * those two (the orchestrator calls it with the validated output).
   */
  function DeriveHumanMessage(task: Task, status: AgentStatus, commitMessage: string): (r: string)
    ensures !IsBlank(commitMessage) ==> r == Trim(commitMessage) && r != "" && IsTrimmed(r)
    ensures IsBlank(commitMessage) && status == Success ==> r == task.title
    ensures IsBlank(commitMessage) && status != Success ==> r == StatusPrefix + AgentStatusName(status)
  {
    TrimShape(commitMessage);
    var trimmed := Trim(commitMessage);
    if trimmed != "" then trimmed
    else if status == Success then task.title
    else StatusPrefix + AgentStatusName(status)
  }

  /** `toStatusLabel`: "completed" for success, "blocked" for the two other statuses. */
  function StatusLabel(status: AgentStatus): (r: string)
    ensures r == "completed" <==> status == Success
    ensures r == "blocked" <==> status != Success
  {
    if status == Success then "completed" else "blocked"
  }

  // ---------------------------------------------------------------------------
  // normalizeSingleLine

  /** `s.replace(/\s+/g, " ")`: every maximal run of whitespace becomes one space. */
  function CollapseSpaces(s: string): string
    decreases |s|
  {
    if s == [] then []
    else if IsSpace(s[0]) then " " + CollapseSpaces(TrimStart(s))
    else [s[0]] + CollapseSpaces(s[1..])
  }

  /** `normalizeSingleLine`. */
  function NormalizeSingleLine(message: string): string {
    Trim(CollapseSpaces(message))
  }

  /** The only whitespace is the plain space, and never two in a row. */
  predicate SingleSpaced(s: string) {
    (forall i :: 0 <= i < |s| && IsSpace(s[i]) ==> s[i] == ' ') &&
    (forall i :: 0 < i < |s| && s[i] == ' ' ==> s[i - 1] != ' ')
  }

  /** The characters of `s` that are not whitespace, in order. */
  function NonSpace(s: string): string {
    if s == [] then [] else (if IsSpace(s[0]) then [] else [s[0]]) + NonSpace(s[1..])
  }

  lemma {:induction false} NonSpaceAppend(a: string, b: string)
    ensures NonSpace(a + b) == NonSpace(a) + NonSpace(b)
    decreases |a|
  {
    if a != [] {
      var h := if IsSpace(a[0]) then [] else [a[0]];
      calc {
        NonSpace(a + b);
        { assert (a + b)[0] == a[0] && (a + b)[1..] == a[1..] + b; }
        h + NonSpace(a[1..] + b);
        { NonSpaceAppend(a[1..], b); }
        h + (NonSpace(a[1..]) + NonSpace(b));
        (h + NonSpace(a[1..])) + NonSpace(b);
      }
    } else {
      assert a + b == b;
    }
  }

  lemma {:induction false} NonSpaceBlank(s: string)
    requires IsBlank(s)
    ensures NonSpace(s) == []
    decreases |s|
  {
    if s != [] {
      NonSpaceBlank(s[1..]);
    }
  }

  /** A collapsed text starts with a space exactly when the original starts with whitespace. */
  lemma CollapseSpacesHead(s: string)
    requires s != []
    ensures CollapseSpaces(s) != [] && (CollapseSpaces(s)[0] == ' ' <==> IsSpace(s[0]))
  {
  }

  lemma {:induction false} CollapseSpacesFacts(s: string)
    ensures SingleSpaced(CollapseSpaces(s))
    ensures NonSpace(CollapseSpaces(s)) == NonSpace(s)
    decreases |s|
  {
    if s == [] {
    } else if IsSpace(s[0]) {
      var t := TrimStart(s);
      TrimStartFacts(s);
      CollapseSpacesFacts(t);
      var c := CollapseSpaces(t);
      if t != [] {
        CollapseSpacesHead(t);
      }
      var r := " " + c;
      forall i | 0 < i < |r| && r[i] == ' '
        ensures r[i - 1] != ' '
      {
        if i > 1 {
          assert r[i] == c[i - 1] && r[i - 1] == c[i - 2];
        }
      }
      forall i | 0 <= i < |r| && IsSpace(r[i])
        ensures r[i] == ' '
      {
        if i > 0 {
          assert r[i] == c[i - 1];
        }
      }
      NonSpaceAppend(" ", c);
      assert s == s[..|s| - |t|] + t;
      NonSpaceAppend(s[..|s| - |t|], t);
      NonSpaceBlank(s[..|s| - |t|]);
    } else {
      CollapseSpacesFacts(s[1..]);
      var c := CollapseSpaces(s[1..]);
      var r := [s[0]] + c;
      forall i | 0 < i < |r| && r[i] == ' '
        ensures r[i - 1] != ' '
      {
        if i > 1 {
          assert r[i] == c[i - 1] && r[i - 1] == c[i - 2];
        }
      }
      forall i | 0 <= i < |r| && IsSpace(r[i])
        ensures r[i] == ' '
      {
        if i > 0 {
          assert r[i] == c[i - 1];
        }
      }
      NonSpaceAppend([s[0]], c);
    }
  }

  lemma SingleSpacedSlice(s: string, a: nat, b: nat)
    requires SingleSpaced(s) && a <= b <= |s|
    ensures SingleSpaced(s[a..b])
  {
    var t := s[a..b];
    forall i | 0 < i < |t| && t[i] == ' '
      ensures t[i - 1] != ' '
    {
      assert t[i] == s[a + i] && t[i - 1] == s[a + i - 1];
    }
    forall i | 0 <= i < |t| && IsSpace(t[i])
      ensures t[i] == ' '
    {
      assert t[i] == s[a + i];
    }
  }

  /** `Trim(s)` is a slice of `s` with only whitespace cut off either side. */
  lemma TrimSlice(s: string) returns (a: nat, b: nat)
    ensures a <= b <= |s| && Trim(s) == s[a..b]
    ensures IsBlank(s[..a]) && IsBlank(s[b..])
  {
    var t := TrimStart(s);
    TrimStartFacts(s);
    TrimEndFacts(t);
    a := |s| - |t|;
    b := a + |TrimEnd(t)|;
    assert Trim(s) == s[a..b];
    assert IsBlank(s[b..]) by {
      forall i | 0 <= i < |s| - b
        ensures IsSpace(s[b..][i])
      {
        assert s[b..][i] == t[|TrimEnd(t)| + i];
      }
    }
  }

  /** Trimming drops only whitespace. */
  lemma TrimKeepsNonSpace(s: string)
    ensures NonSpace(Trim(s)) == NonSpace(s)
  {
    var a, b := TrimSlice(s);
    assert s == s[..a] + s[a..b] + s[b..];
    NonSpaceAppend(s[..a] + s[a..b], s[b..]);
    NonSpaceAppend(s[..a], s[a..b]);
    NonSpaceBlank(s[..a]);
    NonSpaceBlank(s[b..]);
  }

  /**
   * A normalised message is trimmed, uses no whitespace but single spaces
   * (so it has no line break) and keeps every other character, in order.
   */
  lemma NormalizeSingleLineFacts(message: string)
    ensures var r := NormalizeSingleLine(message);
      IsTrimmed(r) && SingleSpaced(r) && '\n' !in r && NonSpace(r) == NonSpace(message)
  {
    var c := CollapseSpaces(message);
    CollapseSpacesFacts(message);
    TrimShape(c);
    var a, b := TrimSlice(c);
    SingleSpacedSlice(c, a, b);
    TrimKeepsNonSpace(c);
    var r := NormalizeSingleLine(message);
    assert forall i :: 0 <= i < |r| ==> r[i] != '\n';
  }

  /** A single-spaced text is left alone by collapsing. */
  lemma {:induction false} CollapseSingleSpaced(s: string)
    requires SingleSpaced(s)
    ensures CollapseSpaces(s) == s
    decreases |s|
  {
    if s != [] {
      SingleSpacedSlice(s, 1, |s|);
      CollapseSingleSpaced(s[1..]);
      if IsSpace(s[0]) {
        assert s[0] == ' ';
        if |s| > 1 {
          assert !IsSpace(s[1]) by { assert s[1] != ' '; }
        }
        assert TrimStart(s) == s[1..];
      }
    }
  }

  /** Normalising twice is normalising once. */
  lemma NormalizeSingleLineIdempotent(message: string)
    ensures NormalizeSingleLine(NormalizeSingleLine(message)) == NormalizeSingleLine(message)
  {
    NormalizeSingleLineFacts(message);
    var r := NormalizeSingleLine(message);
    CollapseSingleSpaced(r);
    TrimTrimmed(r);
  }

  // ---------------------------------------------------------------------------
  // parseCommitMessage

  /** `parseCommitMessage`: the first line of the trimmed message and the rest, each trimmed. */
  function ParseCommitMessage(message: string): CommitParts {
    var trimmed := Trim(message);
    if trimmed == "" then CommitParts("", "")
    else
      var lines := SplitLines(trimmed);
      CommitParts(Trim(lines[0]), Trim(Join(lines[1..], "\n")))
  }

  /** Both parts are trimmed and the title is a single line. */
  lemma ParsedPartsTrimmed(message: string)
    ensures IsTrimmed(ParseCommitMessage(message).title) && IsTrimmed(ParseCommitMessage(message).body)
    ensures '\n' !in ParseCommitMessage(message).title
  {
    var trimmed := Trim(message);
    if trimmed != "" {
      var lines := SplitLines(trimmed);
      TrimShape(lines[0]);
      TrimShape(Join(lines[1..], "\n"));
      SplitLinesHaveNoLineFeed(trimmed);
      var a, b := TrimSlice(lines[0]);
      assert '\n' !in lines[0];
      assert Trim(lines[0]) <= lines[0][a..];
    }
  }

  /** A message has an empty title exactly when it is blank; a blank message has an empty body too. */
  lemma ParsedTitleEmptyIffBlank(message: string)
    ensures ParseCommitMessage(message).title == "" <==> IsBlank(message)
    ensures IsBlank(message) ==> ParseCommitMessage(message) == CommitParts("", "")
  {
    var trimmed := Trim(message);
    TrimShape(message);
    if trimmed != "" {
      var lines := SplitLines(trimmed);
      SplitLinesFirst(trimmed);
      assert !IsSpace(trimmed[0]);
      if '\n' in trimmed {
        var i := IndexOf(trimmed, '\n');
        assert i > 0 by { assert trimmed[i] == '\n'; }
        assert lines[0] == LinePiece(trimmed, i);
        if i == 1 {
          assert trimmed[..i][0] == trimmed[0];
        }
        assert lines[0] != [] && lines[0][0] == trimmed[0];
      } else {
        assert lines[0] == trimmed;
      }
      TrimShape(lines[0]);
      assert !IsBlank(lines[0]) by { assert !IsSpace(lines[0][0]); }
    }
  }

  /** A message without a line feed is all title: the trimmed message, with an empty body. */
  lemma SingleLineMessage(message: string)
    requires '\n' !in message
    ensures ParseCommitMessage(message) == CommitParts(Trim(message), "")
  {
    var trimmed := Trim(message);
    TrimShape(message);
    if trimmed != "" {
      var a, b := TrimSlice(message);
      NoLineFeedAfterTrim(message);
      assert SplitLines(trimmed) == [trimmed];
      TrimTrimmed(trimmed);
    }
  }

  /**
   * The conventional layout round-trips: a one-line subject, a blank line and
   * a body parse back into that subject and that body.
   */
  lemma ParseSubjectAndBody(subject: string, body: string)
    requires subject != "" && IsTrimmed(subject) && '\n' !in subject
    requires IsTrimmed(body) && NoCrLf(body)
    ensures ParseCommitMessage(subject + "\n\n" + body) == CommitParts(subject, body)
  {
    var m := subject + "\n\n" + body;
    assert Unbroken(subject);
    if body == "" {
      assert m == subject + "\n\n";
      TrimOfTrailingLineFeeds(subject);
      assert SplitLines(subject) == [subject];
      TrimTrimmed(subject);
    } else {
      TrimOfJoinedParagraphs(subject, body);
      ParseNonBlank(m);
      SplitBlankLine(subject, body);
      var rest := SplitLines(body);
      assert SplitLines(m)[1..] == [""] + rest;
      JoinAfterBlank(rest);
      JoinSplit(body);
      TrimTrimmed(subject);
      TrimLeadingLineFeed(body);
    }
  }

  /** `ParseCommitMessage` on a message that is not blank. */
  lemma ParseNonBlank(message: string)
    requires Trim(message) != ""
    ensures var lines := SplitLines(Trim(message));
      ParseCommitMessage(message) == CommitParts(Trim(lines[0]), Trim(Join(lines[1..], "\n")))
  {
  }

  lemma TrimOfJoinedParagraphs(a: string, b: string)
    requires a != "" && IsTrimmed(a) && b != "" && IsTrimmed(b)
    ensures Trim(a + "\n\n" + b) == a + "\n\n" + b
  {
    var m := a + "\n\n" + b;
    assert m[0] == a[0] && m[|m| - 1] == b[|b| - 1];
    TrimTrimmed(m);
  }

  lemma TrimOfTrailingLineFeeds(s: string)
    requires s != "" && IsTrimmed(s)
    ensures Trim(s + "\n\n") == s
  {
    var m := s + "\n\n";
    var m1 := s + "\n";
    assert m[..|m| - 1] == m1 && m1[..|s|] == s;
    assert IsSpace(m[|m| - 1]) && IsSpace(m1[|m1| - 1]);
    assert TrimEnd(m) == TrimEnd(m1);
    assert TrimEnd(m1) == TrimEnd(s);
    assert TrimStart(m) == m by { assert m[0] == s[0]; }
  }

  lemma TrimLeadingLineFeed(s: string)
    requires s != "" && IsTrimmed(s)
    ensures Trim("\n" + s) == s
  {
    assert ("\n" + s)[1..] == s;
    assert TrimStart("\n" + s) == s;
  }

  /** A blank line between two parts splits into an empty line. */
  lemma SplitBlankLine(line: string, rest: string)
    requires Unbroken(line)
    ensures SplitLines(line + "\n\n" + rest) == [line, ""] + SplitLines(rest)
  {
    BlankLineConcat(line, rest);
    SplitLinesCons(line, "\n" + rest);
    SplitLeadingLineFeed(rest);
  }

  lemma BlankLineConcat(line: string, rest: string)
    ensures line + "\n\n" + rest == line + "\n" + ("\n" + rest)
  {
    var lf: string := "\n";
    assert "\n\n" == lf + lf;
  }

  lemma SplitLeadingLineFeed(rest: string)
    ensures SplitLines("\n" + rest) == [""] + SplitLines(rest)
  {
    assert [] + "\n" + rest == "\n" + rest;
    SplitLinesCons([], rest);
  }

  /** Two lines and the rest. */
  lemma SplitTwoLines(first: string, second: string, rest: string)
    requires Unbroken(first) && Unbroken(second)
    ensures SplitLines(first + "\n" + second + "\n" + rest) == [first, second] + SplitLines(rest)
  {
    assert first + "\n" + second + "\n" + rest == first + "\n" + (second + "\n" + rest);
    SplitLinesCons(first, second + "\n" + rest);
    SplitLinesCons(second, rest);
  }

  lemma JoinAfterBlank(ls: seq<string>)
    requires |ls| >= 1
    ensures Join([""] + ls, "\n") == "\n" + Join(ls, "\n")
  {
    JoinCons("", ls, "\n");
    assert "" + "\n" + Join(ls, "\n") == "\n" + Join(ls, "\n");
  }

  // ---------------------------------------------------------------------------
  // formatTitle

  /** The message part of the title: the agent's subject, else the normalised derived message. */
  function TitleMessage(task: Task, output: FormatterOutput): string {
    var agentTitle := ParseCommitMessage(output.commitMessage).title;
    if agentTitle != "" then agentTitle else NormalizeSingleLine(DeriveHumanMessage(task, output.status, output.commitMessage))
  }

  /** The part of the title before the message: `<id> [<label>]:`. */
  function TitleHead(id: string, statusLabel: string): string {
    id + " [" + statusLabel + "]:"
  }

  /** `formatTitle`: `<id> [<label>]: <message>`, trimmed. */
  function FormatTitle(task: Task, output: FormatterOutput): string {
    Trim(TitleHead(task.id, StatusLabel(output.status)) + " " + TitleMessage(task, output))
  }

  /**
   * The title's message is the agent's subject line when the commit message
   * is not blank, else the task title (on success) or the status sentence,
   * with whitespace runs collapsed.
   */
  lemma TitleMessageFallback(task: Task, output: FormatterOutput)
    ensures !IsBlank(output.commitMessage) ==>
      TitleMessage(task, output) == ParseCommitMessage(output.commitMessage).title != ""
    ensures IsBlank(output.commitMessage) && output.status == Success ==>
      TitleMessage(task, output) == NormalizeSingleLine(task.title)
    ensures IsBlank(output.commitMessage) && output.status != Success ==>
      TitleMessage(task, output) == NormalizeSingleLine(StatusPrefix + AgentStatusName(output.status))
    ensures IsTrimmed(TitleMessage(task, output)) && '\n' !in TitleMessage(task, output)
  {
    ParsedTitleEmptyIffBlank(output.commitMessage);
    ParsedPartsTrimmed(output.commitMessage);
    NormalizeSingleLineFacts(DeriveHumanMessage(task, output.status, output.commitMessage));
  }

  lemma TitleHeadTrimmed(id: string, statusLabel: string)
    requires id != "" && IsTrimmed(id)
    ensures TitleHead(id, statusLabel) != "" && IsTrimmed(TitleHead(id, statusLabel))
  {
    var h := TitleHead(id, statusLabel);
    assert h[0] == id[0] && h[|h| - 1] == ':';
  }

  lemma TrimHeadAndMessage(head: string, message: string)
    requires head != "" && IsTrimmed(head) && IsTrimmed(message)
    ensures Trim(head + " " + message) == head + (if message == "" then "" else " " + message)
  {
    var s := head + " " + message;
    assert TrimStart(s) == s by { assert s[0] == head[0]; }
    if message == "" {
      assert s[..|s| - 1] == head && IsSpace(s[|s| - 1]);
      assert TrimEnd(s) == TrimEnd(head);
    } else {
      assert s[|s| - 1] == message[|message| - 1];
    }
  }

  /**
   * With an id that is neither empty nor padded, the title is exactly
   * `<id> [<label>]: <message>`; trimming only drops the final space when
   * the message is empty.
   */
  lemma TitleFormat(task: Task, output: FormatterOutput)
    requires task.id != "" && IsTrimmed(task.id)
    ensures var m := TitleMessage(task, output);
      FormatTitle(task, output) == TitleHead(task.id, StatusLabel(output.status)) + (if m == "" then "" else " " + m)
  {
    TitleMessageFallback(task, output);
    TitleHeadTrimmed(task.id, StatusLabel(output.status));
    TrimHeadAndMessage(TitleHead(task.id, StatusLabel(output.status)), TitleMessage(task, output));
  }

  lemma NoLineFeedAfterTrim(s: string)
    requires '\n' !in s
    ensures '\n' !in Trim(s)
  {
    var a, b := TrimSlice(s);
    assert forall i :: 0 <= i < b - a ==> s[a..b][i] == s[a + i];
  }

  /** The title is one line whenever the id is. */
  lemma TitleIsOneLine(task: Task, output: FormatterOutput)
    requires '\n' !in task.id
    ensures '\n' !in FormatTitle(task, output)
  {
    TitleMessageFallback(task, output);
    var statusLabel := StatusLabel(output.status);
    assert '\n' !in statusLabel;
    var s := TitleHead(task.id, statusLabel) + " " + TitleMessage(task, output);
    assert '\n' !in s;
    NoLineFeedAfterTrim(s);
  }

  // ---------------------------------------------------------------------------
  // formatThoughtsSection

  const ThoughtsHeading := "AI Thoughts"
  const ThoughtsHeader := "AI Thoughts\n-----------"

  /** The entry labels, in the order the section lists them. */
  const ThoughtLabels: seq<string> := ["Changes made", "Assumptions", "Decisions taken", "Points of unclarity", "Tests run"]

  /** `pickThoughts`: the thought fields in heading order. */
  function ThoughtContents(t: Thoughts): (r: seq<string>)
    ensures |r| == |ThoughtLabels|
  {
    [t.changesMade, t.assumptions, t.decisionsTaken, t.pointsOfUnclarity, t.testsRun]
  }

  /** A heading over a rule of as many dashes as the heading has characters. */
  function Underlined(heading: string): string {
    heading + "\n" + Repeat('-', |heading|)
  }

  /** One entry of the thoughts section: the underlined heading, then the trimmed content if it is not blank. */
  function ThoughtEntry(heading: string, content: string): string {
    var trimmed := Trim(content);
    if trimmed != "" then Underlined(heading) + "\n" + trimmed else Underlined(heading)
  }

  function ThoughtEntries(t: Thoughts): (r: seq<string>)
    ensures |r| == |ThoughtLabels|
    ensures forall k :: 0 <= k < |r| ==> r[k] == ThoughtEntry(ThoughtLabels[k], ThoughtContents(t)[k])
  {
    var cs := ThoughtContents(t);
    seq(|ThoughtLabels|, k requires 0 <= k < |ThoughtLabels| => ThoughtEntry(ThoughtLabels[k], cs[k]))
  }

  /** `formatThoughtsSection`: the header and the five entries, separated by blank lines. */
  function ThoughtsSection(t: Thoughts): string {
    Join([ThoughtsHeader] + ThoughtEntries(t), "\n\n")
  }

  /** The header is the heading underlined like the entries. */
  lemma HeaderUnderlined()
    ensures ThoughtsHeader == Underlined(ThoughtsHeading)
  {
    assert |ThoughtsHeading| == 11;
    assert Repeat('-', 11) == "-----------";
  }

  /** The section begins with the header, and every entry begins with its heading underlined. */
  lemma ThoughtsSectionShape(t: Thoughts)
    ensures ThoughtsSection(t) == ThoughtsHeader + "\n\n" + Join(ThoughtEntries(t), "\n\n")
    ensures forall k :: 0 <= k < |ThoughtLabels| ==> Underlined(ThoughtLabels[k]) <= ThoughtEntries(t)[k]
  {
    JoinCons(ThoughtsHeader, ThoughtEntries(t), "\n\n");
  }

  /**
   * Read back line by line, an entry is its heading, a rule exactly as long as
   * the heading, and the lines of the trimmed content; blank content leaves no
   * content line.
   */
  lemma EntryLines(heading: string, content: string)
    requires Unbroken(heading)
    ensures SplitLines(ThoughtEntry(heading, content)) ==
      [heading, Repeat('-', |heading|)] + (if IsBlank(content) then [] else SplitLines(Trim(content)))
  {
    TrimShape(content);
    var dashes := Repeat('-', |heading|);
    RuleUnbroken(|heading|);
    if IsBlank(content) {
      SplitLinesCons(heading, dashes);
    } else {
      SplitTwoLines(heading, dashes, Trim(content));
    }
  }

  lemma RuleUnbroken(n: nat)
    ensures Unbroken(Repeat('-', n)) && SplitLines(Repeat('-', n)) == [Repeat('-', n)]
  {
    var r := Repeat('-', n);
    assert '\n' !in r by {
      forall i | 0 <= i < |r|
        ensures r[i] != '\n'
      {
      }
    }
  }

  // ---------------------------------------------------------------------------
  // formatBody

  /** `AI_COMMIT_WARNING`, line by line. */
  const WarningLines: seq<string> := [
    "\U{26A0}\U{FE0F} AI-GENERATED COMMIT.",
    "",
    "This change was produced by an AI agent and has NOT been reviewed or validated by a human.",
    "Do not assume correctness, completeness, or production readiness.",
    "",
    "Human review is required."
  ]

  const Warning := Join(WarningLines, "\n")

  /** The rule between the message and the thoughts. */
  const Rule := "---"

  lemma WarningNotEmpty()
    ensures Warning != ""
  {
    var w := WarningLines;
    assert w[0] != "";
    assert Warning == w[0] + "\n" + Join(w[1..], "\n");
  }

  /** `.filter((section) => section !== "")`. */
  function NonEmpty(sections: seq<string>): (r: seq<string>)
    ensures forall k :: 0 <= k < |r| ==> r[k] != ""
  {
    if sections == [] then []
    else if sections[0] == "" then NonEmpty(sections[1..])
    else [sections[0]] + NonEmpty(sections[1..])
  }

  /** The message that leads the body: the agent's body, else nothing when the agent gave a subject, else the derived message. */
  function BodyMessage(task: Task, output: FormatterOutput): string {
    var parts := ParseCommitMessage(output.commitMessage);
    if parts.body != "" then parts.body
    else if parts.title != "" then ""
    else DeriveHumanMessage(task, output.status, output.commitMessage)
  }

  /** `formatBody`. */
  function FormatBody(task: Task, output: FormatterOutput): string {
    Join(NonEmpty([Trim(BodyMessage(task, output)), Rule, ThoughtsSection(output.thoughts), Warning]), "\n\n")
  }

  /** The blank-line-terminated lead of the body: nothing for an empty message. */
  function Lead(message: string): string {
    if message == "" then "" else message + "\n\n"
  }

  /**
   * The body is the trimmed message (dropped when empty), the `---` rule,
   * the thoughts section and the warning, separated by blank lines; so it
   * always ends with the warning.
   */
  lemma BodyLayout(task: Task, output: FormatterOutput)
    ensures FormatBody(task, output) ==
      Lead(Trim(BodyMessage(task, output))) + Rule + "\n\n" + ThoughtsSection(output.thoughts) + "\n\n" + Warning
  {
    WarningNotEmpty();
    ThoughtsSectionShape(output.thoughts);
    SectionsLayout(Trim(BodyMessage(task, output)), ThoughtsSection(output.thoughts), Warning);
  }

  /** The four sections of a body, the first possibly empty. */
  lemma SectionsLayout(message: string, thoughts: string, warning: string)
    requires thoughts != "" && warning != ""
    ensures Join(NonEmpty([message, Rule, thoughts, warning]), "\n\n") ==
      Lead(message) + Rule + "\n\n" + thoughts + "\n\n" + warning
  {
    var tail := [Rule, thoughts, warning];
    assert NonEmpty([warning]) == [warning];
    assert NonEmpty([thoughts, warning]) == [thoughts, warning];
    assert NonEmpty(tail) == tail;
    JoinCons(thoughts, [warning], "\n\n");
    JoinCons(Rule, [thoughts, warning], "\n\n");
    assert [message] + tail == [message, Rule, thoughts, warning];
    if message != "" {
      assert NonEmpty([message] + tail) == [message] + tail;
      JoinCons(message, tail, "\n\n");
    } else {
      assert NonEmpty([message] + tail) == tail;
    }
  }

  /**
   * Which message leads the body: the agent's body when there is one;
   * nothing when the commit message is a subject alone; the derived message
   * (task title or status sentence) when the commit message is blank.
   */
  lemma BodyMessageCases(task: Task, output: FormatterOutput)
    ensures ParseCommitMessage(output.commitMessage).body != "" ==>
      BodyMessage(task, output) == ParseCommitMessage(output.commitMessage).body
    ensures !IsBlank(output.commitMessage) && ParseCommitMessage(output.commitMessage).body == "" ==>
      Lead(Trim(BodyMessage(task, output))) == ""
    ensures IsBlank(output.commitMessage) && output.status == Success ==>
      BodyMessage(task, output) == task.title
    ensures IsBlank(output.commitMessage) && output.status != Success ==>
      BodyMessage(task, output) == StatusPrefix + AgentStatusName(output.status)
  {
    ParsedTitleEmptyIffBlank(output.commitMessage);
  }

  /** A one-line commit message contributes its subject to the title and nothing to the body. */
  lemma SubjectOnlyMessage(task: Task, output: FormatterOutput)
    requires !IsBlank(output.commitMessage) && '\n' !in output.commitMessage
    ensures TitleMessage(task, output) == Trim(output.commitMessage)
    ensures FormatBody(task, output) == Rule + "\n\n" + ThoughtsSection(output.thoughts) + "\n\n" + Warning
  {
    SingleLineMessage(output.commitMessage);
    TrimShape(output.commitMessage);
    assert BodyMessage(task, output) == "";
    BodyLayout(task, output);
    EmptyLead(Trim(BodyMessage(task, output)), ThoughtsSection(output.thoughts), Warning);
  }

  lemma EmptyLead(message: string, thoughts: string, warning: string)
    requires message == ""
    ensures Lead(message) + Rule + "\n\n" + thoughts + "\n\n" + warning == Rule + "\n\n" + thoughts + "\n\n" + warning
  {
  }

  /** A subject, a blank line and a body split between the title and the body. */
  lemma SubjectAndBodyMessage(task: Task, output: FormatterOutput, subject: string, body: string)
    requires subject != "" && IsTrimmed(subject) && '\n' !in subject
    requires body != "" && IsTrimmed(body) && NoCrLf(body)
    requires output.commitMessage == subject + "\n\n" + body
    ensures TitleMessage(task, output) == subject
    ensures FormatBody(task, output) == body + "\n\n" + Rule + "\n\n" + ThoughtsSection(output.thoughts) + "\n\n" + Warning
  {
    ParseSubjectAndBody(subject, body);
    TrimTrimmed(body);
    BodyLayout(task, output);
  }
}

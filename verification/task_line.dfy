/**
 * Recognition of a task line (src/taskTracker.ts, `TASK_LINE` and
 * `matchTaskLine`):
 *
 *     /^\s*-\s*\[\s*([x!])?\s*\]\s+(\S+):\s*(.*)$/i
 *
 * The pattern is matched left to right by `MatchFrom`, one stage per
 * element of the pattern. The only element where the regular-expression
 * engine backtracks to a different result is the greedy `(\S+):`, whose
 * colon is the LAST one in the non-whitespace run after which
 * `\s*(.*)$` matches (`FindColon`); elsewhere each element is followed by
 * one the preceding whitespace cannot match, so backtracking adds nothing.
 */
module TaskLinePattern {
  import opened Types
  import opened Text

  /** The three capture groups of a successful match; an unmatched group 1 is "". */
  datatype TaskLineMatch = TaskLineMatch(symbol: string, id: string, rest: string)

  /** Where the matcher is in the pattern; the string is the captured status symbol. */
  datatype Stage =
    | BeforeDash             // ^\s*  -
    | BeforeBracket          // \s*  \[
    | InBox                  // \s*  ([x!])?  or  \]
    | AfterSymbol(string)    // \s*  \]
    | AfterBox(string)       // \s+ (at least one)
    | BeforeId(string)       // rest of \s+, then (\S+)

  /** The end of the run of non-whitespace starting at `i` (a greedy `\S*`). */
  function SkipNonSpaces(s: string, i: nat): (j: nat)
    requires i <= |s|
    ensures i <= j <= |s|
    ensures i < |s| && !IsSpace(s[i]) ==> i < j
    decreases |s| - i
  {
    if i < |s| && !IsSpace(s[i]) then SkipNonSpaces(s, i + 1) else i
  }

  lemma {:induction false} SkipNonSpacesFacts(s: string, i: nat)
    requires i <= |s|
    ensures var j := SkipNonSpaces(s, i);
      (forall k :: i <= k < j ==> !IsSpace(s[k])) && (j < |s| ==> IsSpace(s[j]))
    decreases |s| - i
  {
    if i < |s| && !IsSpace(s[i]) {
      SkipNonSpacesFacts(s, i + 1);
    }
  }

  predicate SingleLine(s: string) {
    forall k :: 0 <= k < |s| ==> !IsLineTerminator(s[k])
  }

  /** `\s*(.*)$` matches the text `r` that follows the colon. */
  predicate TailMatches(r: string) {
    SingleLine(TrimStart(r))
  }

  predicate ColonAt(line: string, j: nat)
    requires j < |line|
  {
    line[j] == ':' && TailMatches(line[j + 1..])
  }

  /**
   * Backtracking of `(\S+):` over a non-whitespace run starting at `f`:
   * the last position `j` in `(f, hi]` where `:\s*(.*)$` matches.
   */
  function FindColon(line: string, f: nat, hi: nat): (r: Option<nat>)
    requires hi < |line|
    ensures r.Some? ==> f < r.value <= hi
    decreases hi
  {
    if hi <= f then None
    else if ColonAt(line, hi) then Some(hi)
    else FindColon(line, f, hi - 1)
  }

  /** `(\S+):\s*(.*)$` from position `f`, where a non-whitespace character sits. */
  function MatchId(line: string, f: nat, symbol: string): Option<TaskLineMatch>
    requires f < |line| && !IsSpace(line[f])
  {
    var g := SkipNonSpaces(line, f);
    match FindColon(line, f, g - 1)
    case None => None
    case Some(j) => Some(TaskLineMatch(symbol, line[f..j], TrimStart(line[j + 1..])))
  }

  /** The rest of the pattern from position `i` in stage `st`. */
  function MatchFrom(line: string, i: nat, st: Stage): Option<TaskLineMatch>
    requires i <= |line|
    decreases |line| - i
  {
    if i == |line| then None
    else
      var c := line[i];
      match st
      case BeforeDash =>
        if IsSpace(c) then MatchFrom(line, i + 1, st)
        else if c == '-' then MatchFrom(line, i + 1, BeforeBracket)
        else None
      case BeforeBracket =>
        if IsSpace(c) then MatchFrom(line, i + 1, st)
        else if c == '[' then MatchFrom(line, i + 1, InBox)
        else None
      case InBox =>
        if IsSpace(c) then MatchFrom(line, i + 1, st)
        else if c == 'x' || c == 'X' || c == '!' then MatchFrom(line, i + 1, AfterSymbol([c]))
        else if c == ']' then MatchFrom(line, i + 1, AfterBox(""))
        else None
      case AfterSymbol(s) =>
        if IsSpace(c) then MatchFrom(line, i + 1, st)
        else if c == ']' then MatchFrom(line, i + 1, AfterBox(s))
        else None
      case AfterBox(s) =>
        if IsSpace(c) then MatchFrom(line, i + 1, BeforeId(s)) else None
      case BeforeId(s) =>
        if IsSpace(c) then MatchFrom(line, i + 1, st) else MatchId(line, i, s)
  }

  /** `matchTaskLine`: a line whose trim is empty never matches (see `Text.TrimShape`). */
  function MatchTaskLine(line: string): Option<TaskLineMatch> {
    if IsBlank(line) then None else MatchFrom(line, 0, BeforeDash)
  }

  predicate IsTaskLine(line: string) {
    MatchTaskLine(line).Some?
  }

  /** The symbols `([x!])?` can capture under the `i` flag. */
  predicate KnownSymbol(s: string) {
    s == "" || s == "x" || s == "X" || s == "!"
  }

  function StageSymbol(st: Stage): string {
    match st
    case AfterSymbol(s) => s
    case AfterBox(s) => s
    case BeforeId(s) => s
    case _ => ""
  }

  lemma {:induction false} MatchFromShape(line: string, i: nat, st: Stage)
    requires i <= |line| && KnownSymbol(StageSymbol(st))
    ensures var r := MatchFrom(line, i, st);
      r.Some? ==> KnownSymbol(r.value.symbol) && r.value.id != [] && HasNoSpace(r.value.id)
    decreases |line| - i
  {
    if i < |line| {
      var c := line[i];
      match st
      case BeforeDash =>
        if IsSpace(c) { MatchFromShape(line, i + 1, st); }
        else if c == '-' { MatchFromShape(line, i + 1, BeforeBracket); }
      case BeforeBracket =>
        if IsSpace(c) { MatchFromShape(line, i + 1, st); }
        else if c == '[' { MatchFromShape(line, i + 1, InBox); }
      case InBox =>
        if IsSpace(c) { MatchFromShape(line, i + 1, st); }
        else if c == 'x' || c == 'X' || c == '!' { MatchFromShape(line, i + 1, AfterSymbol([c])); }
        else if c == ']' { MatchFromShape(line, i + 1, AfterBox("")); }
      case AfterSymbol(s) =>
        if IsSpace(c) { MatchFromShape(line, i + 1, st); }
        else if c == ']' { MatchFromShape(line, i + 1, AfterBox(s)); }
      case AfterBox(s) =>
        if IsSpace(c) { MatchFromShape(line, i + 1, BeforeId(s)); }
      case BeforeId(s) =>
        if IsSpace(c) { MatchFromShape(line, i + 1, st); } else { MatchIdShape(line, i, s); }
    }
  }

  lemma MatchIdShape(line: string, f: nat, symbol: string)
    requires f < |line| && !IsSpace(line[f])
    ensures var r := MatchId(line, f, symbol);
      r.Some? ==> r.value.symbol == symbol && r.value.id != [] && HasNoSpace(r.value.id)
  {
    var g := SkipNonSpaces(line, f);
    var j := FindColon(line, f, g - 1);
    SkipNonSpacesFacts(line, f);
    if j.Some? {
      var id := line[f..j.value];
      forall k | 0 <= k < |id|
        ensures !IsSpace(id[k])
      {
        assert id[k] == line[f + k];
      }
    }
  }

  /** The colon `FindColon` chooses is the last one after which the rest of the line matches. */
  lemma {:induction false} FindColonIsLast(line: string, f: nat, hi: nat)
    requires hi < |line|
    ensures var r := FindColon(line, f, hi);
      && (r.Some? ==> ColonAt(line, r.value) && forall k :: r.value < k <= hi ==> !ColonAt(line, k))
      && (r.None? ==> forall k :: f < k <= hi ==> !ColonAt(line, k))
    decreases hi
  {
    if hi > f && !ColonAt(line, hi) {
      FindColonIsLast(line, f, hi - 1);
    }
  }

  /**
   * What a match captures: a symbol the status table knows (so the
   * "Unknown task status symbol" error of parseDocument is unreachable) and
   * a non-empty id without whitespace.
   */
  lemma MatchShape(line: string)
    requires IsTaskLine(line)
    ensures var m := MatchTaskLine(line).value;
      KnownSymbol(m.symbol) && m.id != [] && HasNoSpace(m.id)
  {
    MatchFromShape(line, 0, BeforeDash);
  }

  predicate SkipsSpaces(st: Stage) {
    !st.AfterBox?
  }

  lemma {:induction false} SkipSpacesInStage(line: string, i: nat, j: nat, st: Stage)
    requires i <= j <= |line| && SkipsSpaces(st)
    requires forall k :: i <= k < j ==> IsSpace(line[k])
    ensures MatchFrom(line, i, st) == MatchFrom(line, j, st)
    decreases j - i
  {
    if i < j {
      SkipSpacesInStage(line, i + 1, j, st);
    }
  }

  lemma {:induction false} SkipNonSpacesIs(s: string, i: nat, j: nat)
    requires i <= j <= |s|
    requires forall k :: i <= k < j ==> !IsSpace(s[k])
    requires j < |s| ==> IsSpace(s[j])
    ensures SkipNonSpaces(s, i) == j
    decreases j - i
  {
    if i < j {
      SkipNonSpacesIs(s, i + 1, j);
    }
  }

  lemma SingleLineSuffix(s: string, n: nat)
    requires SingleLine(s) && n <= |s|
    ensures SingleLine(s[n..])
  {
    forall k | 0 <= k < |s| - n
      ensures !IsLineTerminator(s[n..][k])
    {
      assert s[n..][k] == s[n + k];
    }
  }

  /** The text after `:` ends the match: its first non-space character starts the title. */
  lemma TailOfTitle(title: string)
    requires SingleLine(title)
    ensures TailMatches(" " + title) && TrimStart(" " + title) == TrimStart(title)
  {
    assert (" " + title)[1..] == title;
    var t := TrimStart(title);
    TrimStartFacts(title);
    SingleLineSuffix(title, |title| - |t|);
  }

  /** In `id: title` the non-whitespace run is the id and its colon. */
  lemma IdRunEnd(line: string, f: nat, id: string, title: string)
    requires f <= |line| && line[f..] == id + ": " + title && HasNoSpace(id)
    ensures f + |id| + 1 < |line| && line[f + |id|] == ':'
    ensures SkipNonSpaces(line, f) == f + |id| + 1
  {
    var colon := f + |id|;
    forall k | f <= k < colon + 1
      ensures !IsSpace(line[k])
    {
      assert line[k] == line[f..][k - f];
    }
    assert line[colon + 1] == line[f..][|id| + 1];
    SkipNonSpacesIs(line, f, colon + 1);
  }

  /** `(\S+):\s*(.*)$` on `id: title`. */
  lemma MatchIdParses(line: string, f: nat, symbol: string, id: string, title: string)
    requires f <= |line| && line[f..] == id + ": " + title
    requires id != [] && HasNoSpace(id) && SingleLine(title)
    ensures f < |line| && !IsSpace(line[f])
    ensures MatchId(line, f, symbol) == Some(TaskLineMatch(symbol, id, TrimStart(title)))
  {
    var colon := f + |id|;
    assert line[f] == line[f..][0];
    IdRunEnd(line, f, id, title);
    assert line[colon + 1..] == " " + title by {
      assert line[colon + 1..] == line[f..][|id| + 1..];
    }
    TailOfTitle(title);
    assert ColonAt(line, colon);
    assert FindColon(line, f, colon) == Some(colon);
    assert line[f..colon] == id by {
      assert line[f..colon] == line[f..][..|id|];
    }
    var tail := line[colon + 1..];
    assert TrimStart(tail) == TrimStart(title);
    assert SkipNonSpaces(line, f) - 1 == colon;
    assert MatchId(line, f, symbol) == Some(TaskLineMatch(symbol, line[f..colon], TrimStart(tail)));
  }

  /** A checkbox body the pattern accepts: only whitespace, or one status letter. */
  predicate IsCheckbox(box: string) {
    IsBlank(box) || box == "x" || box == "X" || box == "!"
  }

  /** The symbol group the pattern captures from a checkbox body. */
  function CheckboxSymbol(box: string): string {
    if IsBlank(box) then "" else box
  }

  /** `- [box] ` up to the id. */
  lemma CheckboxParses(line: string, box: string)
    requires IsCheckbox(box) && |line| > 5 + |box| && line[..5 + |box|] == "- [" + box + "] "
    requires !IsSpace(line[5 + |box|])
    ensures MatchFrom(line, 0, BeforeDash) == MatchId(line, 5 + |box|, CheckboxSymbol(box))
  {
    var B := |box|;
    var pre := "- [" + box + "] ";
    assert line[0] == pre[0] && line[1] == pre[1] && line[2] == pre[2];
    assert line[3 + B] == pre[3 + B] && line[4 + B] == pre[4 + B];
    assert MatchFrom(line, 0, BeforeDash) == MatchFrom(line, 1, BeforeBracket);
    assert MatchFrom(line, 1, BeforeBracket) == MatchFrom(line, 2, BeforeBracket);
    assert MatchFrom(line, 2, BeforeBracket) == MatchFrom(line, 3, InBox);
    if IsBlank(box) {
      forall k | 3 <= k < 3 + B
        ensures IsSpace(line[k])
      {
        assert line[k] == pre[k] == box[k - 3];
      }
      SkipSpacesInStage(line, 3, 3 + B, InBox);
      assert MatchFrom(line, 3 + B, InBox) == MatchFrom(line, 4 + B, AfterBox(""));
    } else {
      assert line[3] == pre[3] == box[0];
      assert [box[0]] == box;
      assert MatchFrom(line, 3, InBox) == MatchFrom(line, 4, AfterSymbol(box));
      assert MatchFrom(line, 4, AfterSymbol(box)) == MatchFrom(line, 5, AfterBox(box));
    }
    var sym := CheckboxSymbol(box);
    assert MatchFrom(line, 4 + B, AfterBox(sym)) == MatchFrom(line, 5 + B, BeforeId(sym));
  }

  /**
   * How a task line is read: an all-whitespace or empty checkbox captures
   * no symbol, `x`, `X` and `!` capture themselves; the id is the
   * non-whitespace run before the colon and the rest is what follows the
   * colon without its leading whitespace.
   */
  lemma TaskLineParses(box: string, id: string, title: string)
    requires IsCheckbox(box) && id != [] && HasNoSpace(id) && SingleLine(title)
    ensures MatchTaskLine("- [" + box + "] " + id + ": " + title)
      == Some(TaskLineMatch(CheckboxSymbol(box), id, TrimStart(title)))
  {
    var pre := "- [" + box + "] ";
    var line := pre + id + ": " + title;
    assert line[..|pre|] == pre;
    assert line[|pre|..] == id + ": " + title;
    MatchIdParses(line, |pre|, CheckboxSymbol(box), id, title);
    CheckboxParses(line, box);
    assert !IsSpace(line[0]);
  }
}

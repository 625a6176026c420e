/**
 * String primitives of the JavaScript runtime that the engine relies on:
 * the whitespace class `\s` (which is also the set `String.prototype.trim`
 * strips), trimming, splitting on the line-break pattern `\r?\n`, joining,
 * ASCII lower-casing and decimal rendering and parsing of integers.
 */
module Text {

  /** JavaScript `\s`: WhiteSpace and LineTerminator code points (ECMAScript 2015 and later). */
  predicate IsSpace(c: char) {
    || c == '\t' || c == '\n' || c == '\U{000B}' || c == '\U{000C}' || c == '\r' || c == ' '
    || c == '\U{00A0}' || c == '\U{1680}' || ('\U{2000}' <= c <= '\U{200A}')
    || c == '\U{2028}' || c == '\U{2029}' || c == '\U{202F}' || c == '\U{205F}'
    || c == '\U{3000}' || c == '\U{FEFF}'
  }

  /** The characters the regular-expression `.` does not match (no `s` flag). */
  predicate IsLineTerminator(c: char) {
    c == '\n' || c == '\r' || c == '\U{2028}' || c == '\U{2029}'
  }

  predicate IsBlank(s: string) {
    forall i :: 0 <= i < |s| ==> IsSpace(s[i])
  }

  predicate HasNoSpace(s: string) {
    forall i :: 0 <= i < |s| ==> !IsSpace(s[i])
  }

  /** `s.trimStart()`: drops the leading run of whitespace (see `TrimStartFacts`). */
  function TrimStart(s: string): (r: string)
    ensures |r| <= |s|
  {
    if s != [] && IsSpace(s[0]) then TrimStart(s[1..]) else s
  }

  lemma {:induction false} TrimStartFacts(s: string)
    ensures var r := TrimStart(s);
      && r == s[|s| - |r|..]
      && (forall i :: 0 <= i < |s| - |r| ==> IsSpace(s[i]))
      && (r != [] ==> !IsSpace(r[0]))
  {
    if s != [] && IsSpace(s[0]) {
      TrimStartFacts(s[1..]);
      var r := TrimStart(s);
      forall i | 0 < i < |s| - |r|
        ensures IsSpace(s[i])
      {
        assert s[i] == s[1..][i - 1];
      }
    }
  }

  /** `s.trimEnd()`: drops the trailing run of whitespace (see `TrimEndFacts`). */
  function TrimEnd(s: string): (r: string)
    ensures |r| <= |s|
  {
    if s != [] && IsSpace(s[|s| - 1]) then TrimEnd(s[..|s| - 1]) else s
  }

  lemma {:induction false} TrimEndFacts(s: string)
    ensures var r := TrimEnd(s);
      && r == s[..|r|]
      && (forall i :: |r| <= i < |s| ==> IsSpace(s[i]))
      && (r != [] ==> !IsSpace(r[|r| - 1]))
  {
    if s != [] && IsSpace(s[|s| - 1]) {
      var t := s[..|s| - 1];
      TrimEndFacts(t);
      var r := TrimEnd(s);
      assert r == t[..|r|];
      forall i | |r| <= i < |s| - 1
        ensures IsSpace(s[i])
      {
        assert s[i] == t[i];
      }
    }
  }

  /** `s.trim()`. */
  function Trim(s: string): string {
    TrimEnd(TrimStart(s))
  }

  predicate IsTrimmed(s: string) {
    s == [] || (!IsSpace(s[0]) && !IsSpace(s[|s| - 1]))
  }

  /** A trimmed string that is not empty is not blank. */
  lemma TrimmedNotBlank(s: string)
    requires IsTrimmed(s) && s != ""
    ensures !IsBlank(s)
  {
    assert !IsSpace(s[0]);
  }

  lemma BlankConcat(a: string, b: string)
    requires IsBlank(a) && IsBlank(b)
    ensures IsBlank(a + b)
  {
    forall i | 0 <= i < |a + b|
      ensures IsSpace((a + b)[i])
    {
      if i >= |a| {
        assert (a + b)[i] == b[i - |a|];
      }
    }
  }

  lemma TrimShape(s: string)
    ensures IsTrimmed(Trim(s))
    ensures |Trim(s)| <= |s|
    ensures Trim(s) == [] <==> IsBlank(s)
  {
    var t := TrimStart(s);
    var r := TrimEnd(t);
    TrimStartFacts(s);
    TrimEndFacts(t);
    if r != [] {
      assert r[0] == t[0];
      assert !IsBlank(s) by { assert !IsSpace(s[|s| - |t|]); }
    } else {
      TrimBlank(s);
    }
  }

  lemma TrimBlank(s: string)
    requires Trim(s) == []
    ensures IsBlank(s)
  {
    var t := TrimStart(s);
    TrimStartFacts(s);
    TrimEndFacts(t);
    assert IsBlank(t);
    assert s == s[..|s| - |t|] + t;
    BlankConcat(s[..|s| - |t|], t);
  }

  /** Trimming leaves an already trimmed string alone. */
  lemma TrimTrimmed(s: string)
    requires IsTrimmed(s)
    ensures Trim(s) == s
  {
  }

  lemma TrimIdempotent(s: string)
    ensures Trim(Trim(s)) == Trim(s)
  {
    TrimShape(s);
    TrimTrimmed(Trim(s));
  }

  /** Trimming after `trimStart` is trimming. */
  lemma TrimAfterTrimStart(s: string)
    ensures Trim(TrimStart(s)) == Trim(s)
  {
    TrimStartFacts(s);
    var t := TrimStart(s);
    if t != [] {
      assert TrimStart(t) == t;
    }
  }

  /** The number of occurrences of `c` in `s`. */
  function Count(s: string, c: char): nat {
    multiset(s)[c]
  }

  /** The index of the first `c` in `s`. */
  function IndexOf(s: string, c: char): (i: nat)
    requires c in s
    ensures i < |s| && s[i] == c && c !in s[..i]
  {
    if s[0] == c then 0 else 1 + IndexOf(s[1..], c)
  }

  /** The text before the line feed at `i`, without a `\r` directly before it: one piece of a split on `\r?\n`. */
  function LinePiece(s: string, i: nat): string
    requires i <= |s|
  {
    if i > 0 && s[i - 1] == '\r' then s[..i - 1] else s[..i]
  }

  /** `s.split(/\r?\n/)`. */
  function SplitLines(s: string): (r: seq<string>)
    ensures |r| >= 1
    decreases |s|
  {
    if '\n' !in s then [s]
    else
      var i := IndexOf(s, '\n');
      [LinePiece(s, i)] + SplitLines(s[i + 1..])
  }

  /** `parts.join(sep)`. */
  function Join(parts: seq<string>, sep: string): string {
    if |parts| == 0 then ""
    else if |parts| == 1 then parts[0]
    else parts[0] + sep + Join(parts[1..], sep)
  }

  /** `s.split(/\r?\n/).length`: one more than the number of line feeds. */
  function LineCount(s: string): nat {
    |SplitLines(s)|
  }

  lemma {:induction false} LineCountIsNewlinesPlusOne(s: string)
    ensures LineCount(s) == Count(s, '\n') + 1
    decreases |s|
  {
    if '\n' in s {
      var i := IndexOf(s, '\n');
      assert s == s[..i] + [s[i]] + s[i + 1..];
      assert multiset(s) == multiset(s[..i]) + multiset{'\n'} + multiset(s[i + 1..]);
      assert multiset(s[..i])['\n'] == 0;
      LineCountIsNewlinesPlusOne(s[i + 1..]);
    } else {
      assert multiset(s)['\n'] == 0;
    }
  }

  lemma {:induction false} SplitLinesHaveNoLineFeed(s: string)
    ensures forall k :: 0 <= k < |SplitLines(s)| ==> '\n' !in SplitLines(s)[k]
    decreases |s|
  {
    if '\n' in s {
      var i := IndexOf(s, '\n');
      SplitLinesHaveNoLineFeed(s[i + 1..]);
      assert LinePiece(s, i) <= s[..i];
    }
  }

  /** A line that survives a split on `\r?\n` unchanged. */
  predicate Unbroken(l: string) {
    '\n' !in l && (l == [] || l[|l| - 1] != '\r')
  }

  lemma JoinCons(l: string, ls: seq<string>, sep: string)
    requires |ls| >= 1
    ensures Join([l] + ls, sep) == l + sep + Join(ls, sep)
  {
    assert ([l] + ls)[1..] == ls;
  }

  lemma {:induction false} JoinAppend(a: seq<string>, b: seq<string>, sep: string)
    requires |a| >= 1 && |b| >= 1
    ensures Join(a + b, sep) == Join(a, sep) + sep + Join(b, sep)
    decreases |a|
  {
    if |a| == 1 {
      JoinCons(a[0], b, sep);
    } else {
      assert (a + b)[1..] == a[1..] + b;
      JoinAppend(a[1..], b, sep);
    }
  }

  /** Joining with a final empty part adds one separator. */
  lemma JoinSnocEmpty(ls: seq<string>, sep: string)
    requires |ls| >= 1
    ensures Join(ls + [""], sep) == Join(ls, sep) + sep
  {
    JoinAppend(ls, [""], sep);
    assert Join([""], sep) == "";
    assert Join(ls, sep) + sep + "" == Join(ls, sep) + sep;
  }

  /** Splitting lines that were joined with "\n" gives the lines back. */
  lemma {:induction false} SplitJoin(ls: seq<string>)
    requires |ls| >= 1
    requires forall k :: 0 <= k < |ls| ==> Unbroken(ls[k])
    ensures SplitLines(Join(ls, "\n")) == ls
    decreases |ls|
  {
    if |ls| == 1 {
    } else {
      SplitLinesCons(ls[0], Join(ls[1..], "\n"));
      SplitJoin(ls[1..]);
      assert [ls[0]] + ls[1..] == ls;
    }
  }

  /** Splitting a line, a line feed and the rest gives the line and then the split of the rest. */
  lemma SplitLinesCons(line: string, rest: string)
    requires Unbroken(line)
    ensures SplitLines(line + "\n" + rest) == [line] + SplitLines(rest)
  {
    var s := line + "\n" + rest;
    assert s[|line|] == '\n' && s[..|line|] == line;
    assert IndexOf(s, '\n') == |line|;
    assert s[|line| + 1..] == rest;
  }

  /** A carriage return at `i` directly followed by a line feed. */
  predicate CrLfAt(s: string, i: int) {
    0 <= i && i + 1 < |s| && s[i] == '\r' && s[i + 1] == '\n'
  }

  /** No carriage return directly before a line feed. */
  predicate NoCrLf(s: string) {
    forall i | 0 <= i < |s| :: !CrLfAt(s, i)
  }

  lemma NoCrLfAfter(s: string, i: nat)
    requires NoCrLf(s) && i <= |s|
    ensures NoCrLf(s[i..])
  {
    var t := s[i..];
    forall j | 0 <= j < |t|
      ensures !CrLfAt(t, j)
    {
      if 0 <= j && j + 1 < |t| {
        assert t[j] == s[i + j] && t[j + 1] == s[i + j + 1];
        assert !CrLfAt(s, i + j);
      }
    }
  }

  lemma SplitLinesStep(s: string, i: nat)
    requires NoCrLf(s) && '\n' in s && i == IndexOf(s, '\n')
    ensures SplitLines(s) == [s[..i]] + SplitLines(s[i + 1..])
  {
    var x := s[..i];
    if i > 0 {
      assert x[i - 1] == s[i - 1];
      assert !CrLfAt(s, i - 1);
    }
    assert LinePiece(s, i) == x;
  }

  /** Joining the lines of a split with "\n" restores a text without "\r\n". */
  lemma {:induction false} JoinSplit(s: string)
    requires NoCrLf(s)
    ensures Join(SplitLines(s), "\n") == s
    decreases |s|
  {
    if '\n' in s {
      var i := IndexOf(s, '\n');
      NoCrLfAfter(s, i + 1);
      JoinSplit(s[i + 1..]);
      SplitLinesStep(s, i);
      JoinCons(s[..i], SplitLines(s[i + 1..]), "\n");
      assert s == s[..i] + "\n" + s[i + 1..];
    }
  }

  /** Without "\r\n" and without a final "\r", every piece of the split survives a second split unchanged. */
  lemma {:induction false} SplitLinesUnbroken(s: string)
    requires NoCrLf(s) && (s == [] || s[|s| - 1] != '\r')
    ensures forall k :: 0 <= k < |SplitLines(s)| ==> Unbroken(SplitLines(s)[k])
    decreases |s|
  {
    if '\n' in s {
      var i := IndexOf(s, '\n');
      SplitLinesStep(s, i);
      if i > 0 {
        assert s[..i][i - 1] == s[i - 1];
        assert !CrLfAt(s, i - 1);
      }
      assert Unbroken(s[..i]);
      NoCrLfAfter(s, i + 1);
      var rest := s[i + 1..];
      assert rest != [] ==> rest[|rest| - 1] == s[|s| - 1];
      SplitLinesUnbroken(rest);
    }
  }

  /** The first piece of a split is a prefix of the text. */
  lemma SplitLinesFirst(s: string)
    ensures SplitLines(s)[0] <= s
  {
    if '\n' in s {
      var i := IndexOf(s, '\n');
      assert SplitLines(s)[0] == LinePiece(s, i);
    }
  }

  /** `s.endsWith(suffix)`. */
  predicate EndsWith(s: string, suffix: string) {
    |suffix| <= |s| && s[|s| - |suffix|..] == suffix
  }

  /** The last part of a join ends it. */
  lemma {:induction false} JoinEndsWithLast(parts: seq<string>, sep: string)
    requires |parts| >= 1
    ensures EndsWith(Join(parts, sep), parts[|parts| - 1])
    decreases |parts|
  {
    if |parts| > 1 {
      JoinEndsWithLast(parts[1..], sep);
      var rest := Join(parts[1..], sep);
      var j := Join(parts, sep);
      assert j == parts[0] + sep + rest;
      assert j[|j| - |rest|..] == rest;
    }
  }

  /** The last piece of a split holds no line feed. */
  lemma SplitLinesLastNoLineFeed(s: string)
    ensures '\n' !in SplitLines(s)[|SplitLines(s)| - 1]
  {
    SplitLinesHaveNoLineFeed(s);
  }

  /** A text that ends with a non-empty suffix ends with its last character. */
  lemma EndsWithLastChar(j: string, suffix: string)
    requires EndsWith(j, suffix) && suffix != ""
    ensures j[|j| - 1] == suffix[|suffix| - 1]
  {
    assert j[|j| - |suffix|..][|suffix| - 1] == j[|j| - 1];
  }

  /** When the last line holds no line feed, it is empty exactly when the join ends with a line feed. */
  lemma JoinLastEmptyIff(ls: seq<string>, j: string)
    requires |ls| >= 1 && Join(ls, "\n") == j && j != ""
    requires '\n' !in ls[|ls| - 1]
    ensures ls[|ls| - 1] == "" <==> j[|j| - 1] == '\n'
  {
    var last := ls[|ls| - 1];
    if last != "" {
      JoinEndsWithLast(ls, "\n");
      EndsWithLastChar(j, last);
      assert last[|last| - 1] in last;
    } else {
      assert |ls| >= 2;
      var init := ls[..|ls| - 1];
      assert ls == init + [""];
      JoinSnocEmpty(init, "\n");
      assert j == Join(init, "\n") + "\n";
    }
  }

  /** ASCII case folding, the part of `toLowerCase` this model covers. */
  function LowerChar(c: char): char {
    if 'A' <= c <= 'Z' then (c as int + 32) as char else c
  }

  function ToLower(s: string): (r: string)
    ensures |r| == |s|
    ensures forall i :: 0 <= i < |s| ==> r[i] == LowerChar(s[i])
  {
    if s == [] then [] else [LowerChar(s[0])] + ToLower(s[1..])
  }

  /** Lower-casing changes no whitespace and is idempotent, so it keeps a trimmed string trimmed and a blank one blank. */
  lemma ToLowerFacts(s: string)
    ensures IsTrimmed(s) ==> IsTrimmed(ToLower(s))
    ensures IsBlank(ToLower(s)) <==> IsBlank(s)
    ensures ToLower(ToLower(s)) == ToLower(s)
  {
    assert forall i :: 0 <= i < |s| ==> (IsSpace(ToLower(s)[i]) <==> IsSpace(s[i]));
  }

  /** `"-".repeat(n)` and friends. */
  function Repeat(c: char, n: nat): (r: string)
    ensures |r| == n && forall i :: 0 <= i < n ==> r[i] == c
  {
    if n == 0 then [] else [c] + Repeat(c, n - 1)
  }

  predicate IsDigit(c: char) {
    '0' <= c <= '9'
  }

  predicate AllDigits(s: string) {
    forall i :: 0 <= i < |s| ==> IsDigit(s[i])
  }

  function DigitChar(d: nat): char
    requires d < 10
  {
    ('0' as int + d) as char
  }

  /** `String(n)` for a natural number: decimal, no leading zero. */
  function NatToString(n: nat): (r: string)
    ensures |r| >= 1 && AllDigits(r)
    ensures r[0] == '0' ==> n == 0
  {
    if n < 10 then [DigitChar(n)] else NatToString(n / 10) + [DigitChar(n % 10)]
  }

  /** `String(i)` for an integer. */
  function IntToString(i: int): string {
    if i < 0 then "-" + NatToString(-i) else NatToString(i)
  }

  /** `parseInt(s, 10)` for a string made of decimal digits only. */
  function DigitsValue(s: string): nat
    requires AllDigits(s)
  {
    if s == [] then 0 else 10 * DigitsValue(s[..|s| - 1]) + (s[|s| - 1] as int - '0' as int)
  }

  lemma {:induction false} DigitsValueOfNatToString(n: nat)
    ensures DigitsValue(NatToString(n)) == n
  {
    if n >= 10 {
      var r := NatToString(n);
      assert r[..|r| - 1] == NatToString(n / 10);
      DigitsValueOfNatToString(n / 10);
    }
  }

  /** Distinct numbers render differently. */
  lemma NatToStringInjective(m: nat, n: nat)
    requires NatToString(m) == NatToString(n)
    ensures m == n
  {
    DigitsValueOfNatToString(m);
    DigitsValueOfNatToString(n);
  }
}

/**
 * The tracker folder name of src/tasksFile.ts: a branch name, trimmed, as
 * one path segment. The name goes through `encodeURIComponent` (which
 * keeps ASCII letters, digits and `-_.!~*'()` and writes every other
 * character as the `%XX` triplets of its UTF-8 bytes, upper-case hex), and
 * then every `*` becomes `%2A`, so that no character is left that a
 * Windows or POSIX file system treats specially.
 */
module TasksFile {
  import opened Types
  import opened Text

  const BranchRequiredMessage := "Branch name is required to resolve tracker folder name."

  /** The characters `encodeURIComponent` leaves as they are. */
  predicate IsUnreserved(c: char) {
    || ('A' <= c <= 'Z') || ('a' <= c <= 'z') || ('0' <= c <= '9')
    || c == '-' || c == '_' || c == '.' || c == '!' || c == '~' || c == '*' || c == '\'' || c == '(' || c == ')'
  }

  predicate IsUpperHex(c: char) {
    ('0' <= c <= '9') || ('A' <= c <= 'F')
  }

  function HexDigit(d: nat): (c: char)
    requires d < 16
    ensures IsUpperHex(c)
  {
    if d < 10 then ('0' as int + d) as char else ('A' as int + d - 10) as char
  }

  function HexValue(c: char): (d: nat)
    requires IsUpperHex(c)
    ensures d < 16
  {
    if c <= '9' then c as int - '0' as int else c as int - 'A' as int + 10
  }

  predicate IsByte(b: int) {
    0 <= b < 256
  }

  /** The UTF-8 encoding of one character (a Unicode scalar value). */
  function Utf8(c: char): (bytes: seq<int>)
    ensures 1 <= |bytes| <= 4
    ensures forall i :: 0 <= i < |bytes| ==> IsByte(bytes[i])
    ensures c < 128 as char ==> bytes == [c as int]
  {
    var n := c as int;
    if n < 0x80 then [n]
    else if n < 0x800 then [0xC0 + n / 0x40, 0x80 + n % 0x40]
    else if n < 0x1_0000 then [0xE0 + n / 0x1000, 0x80 + (n / 0x40) % 0x40, 0x80 + n % 0x40]
    else [0xF0 + n / 0x4_0000, 0x80 + (n / 0x1000) % 0x40, 0x80 + (n / 0x40) % 0x40, 0x80 + n % 0x40]
  }

  /** `%XX` for each byte. */
  function PercentBytes(bytes: seq<int>): (t: string)
    requires forall i :: 0 <= i < |bytes| ==> IsByte(bytes[i])
  {
    if bytes == [] then ""
    else
      var b := bytes[0];
      assert IsByte(b);
      ['%', HexDigit(b / 16), HexDigit(b % 16)] + PercentBytes(bytes[1..])
  }

  /** `encodeURIComponent` of one character. */
  function EncodeUriChar(c: char): string {
    if IsUnreserved(c) then [c] else PercentBytes(Utf8(c))
  }

  /** `encodeURIComponent`. */
  function EncodeUriComponent(s: string): string {
    if s == [] then "" else EncodeUriChar(s[0]) + EncodeUriComponent(s[1..])
  }

  /** `.replace(/\*\/g, "%2A")`. */
  function EscapeStars(t: string): string {
    if t == [] then "" else (if t[0] == '*' then "%2A" else [t[0]]) + EscapeStars(t[1..])
  }

  /** `getTrackerFolderName`. */
  function TrackerFolderName(branchName: string): Result<string> {
    var name := Trim(branchName);
    if name == "" then Err(BranchRequiredMessage) else Ok(EscapeStars(EncodeUriComponent(name)))
  }

  /** The folder name rejects a blank branch name and encodes the trimmed name otherwise. */
  lemma FolderNameDefined(branchName: string)
    ensures TrackerFolderName(branchName).Err? <==> IsBlank(branchName)
    ensures TrackerFolderName(branchName).Err? ==> TrackerFolderName(branchName).msg == BranchRequiredMessage
    ensures TrackerFolderName(branchName).Ok? ==> TrackerFolderName(branchName).value == EscapeStars(EncodeUriComponent(Trim(branchName)))
  {
    TrimShape(branchName);
  }

  /**
   * What the folder name is made of: characters `encodeURIComponent` keeps,
   * other than `*`, and `%XX` triplets with upper-case hex digits.
   */
  predicate WellEncoded(t: string)
    decreases |t|
  {
    if t == [] then true
    else if t[0] == '%' then |t| >= 3 && IsUpperHex(t[1]) && IsUpperHex(t[2]) && WellEncoded(t[3..])
    else IsUnreserved(t[0]) && t[0] != '*' && WellEncoded(t[1..])
  }

  lemma {:induction false} WellEncodedConcat(a: string, b: string)
    requires WellEncoded(a) && WellEncoded(b)
    ensures WellEncoded(a + b)
    decreases |a|
  {
    if a != [] {
      assert (a + b)[0] == a[0];
      if a[0] == '%' {
        assert (a + b)[1] == a[1] && (a + b)[2] == a[2];
        assert (a + b)[3..] == a[3..] + b;
        WellEncodedConcat(a[3..], b);
        assert WellEncoded((a + b)[3..]);
      } else {
        assert (a + b)[1..] == a[1..] + b;
        WellEncodedConcat(a[1..], b);
        assert WellEncoded((a + b)[1..]);
      }
    } else {
      assert a + b == b;
    }
  }

  lemma {:induction false} PercentBytesWellEncoded(bytes: seq<int>)
    requires forall i :: 0 <= i < |bytes| ==> IsByte(bytes[i])
    ensures WellEncoded(PercentBytes(bytes))
    ensures EscapeStars(PercentBytes(bytes)) == PercentBytes(bytes)
  {
    if bytes != [] {
      var t := PercentBytes(bytes);
      PercentBytesWellEncoded(bytes[1..]);
      assert t[3..] == PercentBytes(bytes[1..]);
      assert t == [t[0]] + ([t[1]] + ([t[2]] + t[3..]));
      EscapeStarsConcat([t[0]], [t[1]] + ([t[2]] + t[3..]));
      EscapeStarsConcat([t[1]], [t[2]] + t[3..]);
      EscapeStarsConcat([t[2]], t[3..]);
    }
  }

  lemma {:induction false} EscapeStarsConcat(a: string, b: string)
    ensures EscapeStars(a + b) == EscapeStars(a) + EscapeStars(b)
  {
    if a != [] {
      var piece := if a[0] == '*' then "%2A" else [a[0]];
      assert (a + b)[0] == a[0];
      assert (a + b)[1..] == a[1..] + b;
      EscapeStarsConcat(a[1..], b);
      assert EscapeStars(a + b) == piece + (EscapeStars(a[1..]) + EscapeStars(b));
      assert EscapeStars(a) == piece + EscapeStars(a[1..]);
    } else {
      assert a + b == b;
    }
  }

  /** Encoding one character, then escaping stars, gives a well-encoded piece. */
  lemma EncodedCharWellEncoded(c: char)
    ensures WellEncoded(EscapeStars(EncodeUriChar(c)))
  {
    if IsUnreserved(c) {
      if c == '*' {
        assert EscapeStars([c]) == "%2A";
        assert "%2A"[3..] == [];
      } else {
        assert EscapeStars([c]) == [c];
        assert [c][1..] == [];
      }
    } else {
      PercentBytesWellEncoded(Utf8(c));
    }
  }

  lemma {:induction false} EncodedWellEncoded(s: string)
    ensures WellEncoded(EscapeStars(EncodeUriComponent(s)))
  {
    if s != [] {
      EscapeStarsConcat(EncodeUriChar(s[0]), EncodeUriComponent(s[1..]));
      EncodedCharWellEncoded(s[0]);
      EncodedWellEncoded(s[1..]);
      WellEncodedConcat(EscapeStars(EncodeUriChar(s[0])), EscapeStars(EncodeUriComponent(s[1..])));
    }
  }

  /** A well-encoded name holds no `/`, no `\` and no `*`. */
  lemma {:induction false} WellEncodedHasNoSeparator(t: string)
    requires WellEncoded(t)
    ensures forall i :: 0 <= i < |t| ==> t[i] != '/' && t[i] != '\\' && t[i] != '*'
    decreases |t|
  {
    if t != [] {
      var k := if t[0] == '%' then 3 else 1;
      WellEncodedHasNoSeparator(t[k..]);
      forall i | k <= i < |t|
        ensures t[i] != '/' && t[i] != '\\' && t[i] != '*'
      {
        assert t[i] == t[k..][i - k];
      }
    }
  }

  /**
   * The folder name consists only of characters `encodeURIComponent` keeps,
   * other than `*`, and upper-case `%XX` triplets, so it never holds a path
   * separator or a `*`.
   */
  lemma FolderNameSafe(branchName: string)
    requires TrackerFolderName(branchName).Ok?
    ensures WellEncoded(TrackerFolderName(branchName).value)
    ensures var t := TrackerFolderName(branchName).value;
      forall i :: 0 <= i < |t| ==> t[i] != '/' && t[i] != '\\' && t[i] != '*'
  {
    EncodedWellEncoded(Trim(branchName));
    WellEncodedHasNoSeparator(TrackerFolderName(branchName).value);
  }

  /** An ASCII character `encodeURIComponent` does not keep becomes one `%XX` triplet of its code. */
  lemma ReservedAsciiEscaped(c: char)
    requires c < 128 as char && !IsUnreserved(c)
    ensures EscapeStars(EncodeUriChar(c)) == ['%', HexDigit(c as int / 16), HexDigit(c as int % 16)]
  {
    var b := c as int;
    PercentBytesWellEncoded([b]);
    assert PercentBytes([b]) == ['%', HexDigit(b / 16), HexDigit(b % 16)] + PercentBytes([]);
  }

  /** A slash, a space and a star become `%2F`, `%20` and `%2A`. */
  lemma SpecialCharactersEscaped()
    ensures EscapeStars(EncodeUriChar('/')) == "%2F"
    ensures EscapeStars(EncodeUriChar(' ')) == "%20"
    ensures EscapeStars(EncodeUriChar('*')) == "%2A"
  {
    ReservedAsciiEscaped('/');
    ReservedAsciiEscaped(' ');
    assert EscapeStars(['*']) == "%2A" + EscapeStars([]);
  }

  predicate IsAlphanumeric(c: char) {
    ('A' <= c <= 'Z') || ('a' <= c <= 'z') || ('0' <= c <= '9')
  }

  lemma {:induction false} AlphanumericKept(s: string)
    requires forall i :: 0 <= i < |s| ==> IsAlphanumeric(s[i])
    ensures EscapeStars(EncodeUriComponent(s)) == s
  {
    if s != [] {
      EscapeStarsConcat([s[0]], EncodeUriComponent(s[1..]));
      AlphanumericKept(s[1..]);
      assert EscapeStars([s[0]]) == [s[0]] + EscapeStars([]);
    }
  }

  /** A name made only of letters and digits is its own folder name. */
  lemma AlphanumericNameUnchanged(branchName: string)
    requires branchName != ""
    requires forall i :: 0 <= i < |branchName| ==> IsAlphanumeric(branchName[i])
    ensures TrackerFolderName(branchName) == Ok(branchName)
  {
    assert IsTrimmed(branchName);
    TrimTrimmed(branchName);
    AlphanumericKept(branchName);
  }

  /** Reading `%XX` triplets back as the characters with those codes. */
  function PercentDecode(t: string): string {
    if t == [] then ""
    else if |t| >= 3 && t[0] == '%' && IsUpperHex(t[1]) && IsUpperHex(t[2]) then
      [(HexValue(t[1]) * 16 + HexValue(t[2])) as char] + PercentDecode(t[3..])
    else [t[0]] + PercentDecode(t[1..])
  }

  predicate IsAscii(s: string) {
    forall i :: 0 <= i < |s| ==> s[i] < 128 as char
  }

  lemma HexRoundTrip(d: nat)
    requires d < 16
    ensures HexValue(HexDigit(d)) == d
  {
  }

  /** Decoding the pieces of one ASCII character gives that character back. */
  lemma DecodeEncodedChar(c: char, rest: string)
    requires c < 128 as char
    ensures PercentDecode(EscapeStars(EncodeUriChar(c)) + rest) == [c] + PercentDecode(rest)
  {
    var piece := EscapeStars(EncodeUriChar(c));
    if IsUnreserved(c) && c != '*' {
      assert piece == [c] + EscapeStars([]);
      assert (piece + rest)[1..] == rest;
    } else {
      var b := c as int;
      if IsUnreserved(c) {
        assert piece == "%2A" + EscapeStars([]);
      } else {
        ReservedAsciiEscaped(c);
      }
      HexRoundTrip(b / 16);
      HexRoundTrip(b % 16);
      assert (piece + rest)[3..] == rest;
    }
  }

  /** For ASCII names, percent-decoding the encoded name gives the name back. */
  lemma {:induction false} DecodeEncoded(s: string)
    requires IsAscii(s)
    ensures PercentDecode(EscapeStars(EncodeUriComponent(s))) == s
  {
    if s != [] {
      EscapeStarsConcat(EncodeUriChar(s[0]), EncodeUriComponent(s[1..]));
      DecodeEncodedChar(s[0], EscapeStars(EncodeUriComponent(s[1..])));
      DecodeEncoded(s[1..]);
    }
  }

  /** Two branch names whose trimmed forms are different ASCII names get different folders. */
  lemma FolderNameInjective(a: string, b: string)
    requires IsAscii(Trim(a)) && IsAscii(Trim(b))
    requires TrackerFolderName(a).Ok? && TrackerFolderName(a) == TrackerFolderName(b)
    ensures Trim(a) == Trim(b)
  {
    DecodeEncoded(Trim(a));
    DecodeEncoded(Trim(b));
  }
}

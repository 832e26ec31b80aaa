/**
 * Classification of inbound IMAP server lines.
 *
 * The handler recognises a handful of control-flow lines with Java regular expressions and
 * string comparisons. Each one is written here as a small hand-coded predicate that decides
 * exactly the strings the pattern accepts, and each comes with a lemma describing the shape
 * of the lines it accepts. Case-insensitive matching folds ASCII letters only, as Java's
 * CASE_INSENSITIVE flag does without UNICODE_CASE.
 */
module Lines {
  import opened Wrappers

  // ---------------------------------------------------------------------------------------
  // Character classes
  // ---------------------------------------------------------------------------------------

  /** Java's `\s`: space, tab, newline, vertical tab, form feed and carriage return. */
  predicate IsSpace(c: char) {
    c == ' ' || c == '\t' || c == '\n' || c == '\r' || c as int == 0x0B || c as int == 0x0C
  }

  /** The characters that Java's `.` does not match (no DOTALL flag). */
  predicate IsLineTerminator(c: char) {
    c == '\n' || c == '\r' || c as int == 0x85 || c as int == 0x2028 || c as int == 0x2029
  }

  /** Java's `\d` without UNICODE_CHARACTER_CLASS: an ASCII digit. */
  predicate IsDigit(c: char) {
    '0' <= c <= '9'
  }

  predicate AllSpace(s: string) {
    forall i :: 0 <= i < |s| ==> IsSpace(s[i])
  }

  predicate AllDigits(s: string) {
    forall i :: 0 <= i < |s| ==> IsDigit(s[i])
  }

  /** What `.*` can match: a run of characters without a line terminator. */
  predicate NoLineTerminator(s: string) {
    forall i :: 0 <= i < |s| ==> !IsLineTerminator(s[i])
  }

  /** A token of Java's `split("[ ]+")`: contains no blank. */
  predicate NoBlank(s: string) {
    forall i :: 0 <= i < |s| ==> s[i] != ' '
  }

  // ---------------------------------------------------------------------------------------
  // Case folding
  // ---------------------------------------------------------------------------------------

  function LowerChar(c: char): char {
    if 'A' <= c <= 'Z' then (c as int + 32) as char else c
  }

  /** `toLowerCase()` restricted to ASCII letters. */
  function Lower(s: string): string {
    seq(|s|, i requires 0 <= i < |s| => LowerChar(s[i]))
  }

  predicate EqualsIgnoreCase(a: string, b: string) {
    Lower(a) == Lower(b)
  }

  predicate StartsWithIgnoreCase(s: string, p: string) {
    |p| <= |s| && EqualsIgnoreCase(s[..|p|], p)
  }

  // ---------------------------------------------------------------------------------------
  // Runs of characters
  // ---------------------------------------------------------------------------------------

  /** Length of the longest prefix of `s` made of `\s` characters. */
  function LeadingSpace(s: string): (k: nat)
    ensures k <= |s| && AllSpace(s[..k])
    ensures k < |s| ==> !IsSpace(s[k])
  {
    if s != [] && IsSpace(s[0]) then 1 + LeadingSpace(s[1..]) else 0
  }

  /** Length of the longest suffix of `s` made of `\s` characters. */
  function TrailingSpace(s: string): (k: nat)
    ensures k <= |s| && AllSpace(s[|s| - k..])
    ensures k < |s| ==> !IsSpace(s[|s| - k - 1])
  {
    if s != [] && IsSpace(s[|s| - 1]) then 1 + TrailingSpace(s[..|s| - 1]) else 0
  }

  /** Length of the longest prefix of `s` made of digits: what a greedy `\d+` consumes. */
  function LeadingDigits(s: string): (k: nat)
    ensures k <= |s| && AllDigits(s[..k])
    ensures k < |s| ==> !IsDigit(s[k])
  {
    if s != [] && IsDigit(s[0]) then 1 + LeadingDigits(s[1..]) else 0
  }

  /** Index of the first line terminator of `s`, or `|s|`: where a greedy `.*` stops. */
  function FirstLineTerminator(s: string): (k: nat)
    ensures k <= |s| && NoLineTerminator(s[..k])
    ensures k < |s| ==> IsLineTerminator(s[k])
  {
    if s != [] && !IsLineTerminator(s[0]) then 1 + FirstLineTerminator(s[1..]) else 0
  }

  /** Index of the first blank of `s`, or `|s|`. */
  function FirstBlank(s: string): (k: nat)
    ensures k <= |s| && NoBlank(s[..k])
    ensures k < |s| ==> s[k] == ' '
  {
    if s != [] && s[0] != ' ' then 1 + FirstBlank(s[1..]) else 0
  }

  /** Length of the longest prefix of `s` made of blanks: what `[ ]+` consumes. */
  function LeadingBlanks(s: string): (k: nat)
    ensures k <= |s| && forall i :: 0 <= i < k ==> s[i] == ' '
    ensures k < |s| ==> s[k] != ' '
  {
    if s != [] && s[0] == ' ' then 1 + LeadingBlanks(s[1..]) else 0
  }

  /** Java's `String.trim()`: drops the characters up to U+0020 at both ends. */
  function Trim(s: string): (r: string)
    ensures |r| <= |s|
    ensures r == [] || (r[0] > ' ' && r[|r| - 1] > ' ')
    ensures s != [] && s[0] > ' ' ==> r != [] && r[0] == s[0]
    decreases |s|
  {
    if s != [] && s[0] <= ' ' then Trim(s[1..])
    else if s != [] && s[|s| - 1] <= ' ' then Trim(s[..|s| - 1])
    else s
  }

  // ---------------------------------------------------------------------------------------
  // Decimal numbers
  // ---------------------------------------------------------------------------------------

  function DigitChar(d: nat): char
    requires d < 10
  {
    ('0' as int + d) as char
  }

  /** The decimal spelling of `n`, without leading zeros. */
  function Decimal(n: nat): (r: string)
    ensures r != [] && AllDigits(r)
  {
    if n < 10 then [DigitChar(n)] else Decimal(n / 10) + [DigitChar(n % 10)]
  }

  /** `Integer.parseInt` on a string of digits, without the 32-bit range check. */
  function DigitsValue(d: string): nat
    requires AllDigits(d)
  {
    if d == [] then 0 else DigitsValue(d[..|d| - 1]) * 10 + (d[|d| - 1] as int - '0' as int)
  }

  // ---------------------------------------------------------------------------------------
  // Splitting on blanks
  // ---------------------------------------------------------------------------------------

  /** The pieces of `s` between the runs of blanks, including empty ones at either end. */
  function Pieces(s: string): (ps: seq<string>)
    ensures ps != []
    ensures forall i :: 0 <= i < |ps| ==> NoBlank(ps[i])
    decreases |s|
  {
    var i := FirstBlank(s);
    if i == |s| then [s]
    else
      var j := i + LeadingBlanks(s[i..]);
      [s[..i]] + Pieces(s[j..])
  }

  /** Drops the empty strings at the end of `ps`. */
  function DropTrailingEmpty(ps: seq<string>): (r: seq<string>)
    ensures r <= ps
    ensures r == [] || r[|r| - 1] != []
    ensures forall i :: |r| <= i < |ps| ==> ps[i] == []
  {
    if ps != [] && ps[|ps| - 1] == [] then DropTrailingEmpty(ps[..|ps| - 1]) else ps
  }

  /**
   * Java's `s.split("[ ]+")`: when no blank occurs the result is `[s]` itself; otherwise the
   * pieces between blank runs, keeping a leading empty piece and dropping trailing ones.
   */
  function Split(s: string): (r: seq<string>)
    ensures forall i :: 0 <= i < |r| ==> NoBlank(r[i])
  {
    if ' ' in s then DropTrailingEmpty(Pieces(s)) else [s]
  }

  /** The tokens joined by single blanks. */
  function Join(ts: seq<string>): string {
    if ts == [] then "" else if |ts| == 1 then ts[0] else ts[0] + " " + Join(ts[1..])
  }

  // ---------------------------------------------------------------------------------------
  // The line patterns of MailClientHandler
  // ---------------------------------------------------------------------------------------

  const CapabilityPrefix := "* CAPABILITY"
  const BandwidthLimitLine := ". NO [ALERT] Account exceeded " + "command or bandwidth limits. (Failure)"
  const InvalidTagLine := "* BAD [CLIENTBUG] Invalid tag"
  const IdlingLine := "+ idling"
  const AuthPrefix := ". OK "
  const AuthSuffix := " (Success)"
  const IdleEndedTail := " OK IDLE terminated (success)"
  const ExistsWord := " exists"
  const ExpungeWord := " expunge"

  /** `startsWith("* CAPABILITY")`, case-sensitive. */
  predicate IsCapability(s: string) {
    CapabilityPrefix <= s
  }

  /** `s[LeadingSpace(s)..]`: what is left after a greedy `\s*`. */
  function SkipSpace(s: string): string {
    s[LeadingSpace(s)..]
  }

  /** The whole line matches `[*]\s*bye\s*system\s*error\s*`, ignoring case. */
  predicate IsSystemError(s: string) {
    && s != [] && s[0] == '*'
    && var a := SkipSpace(s[1..]);
    && StartsWithIgnoreCase(a, "bye")
    && var b := SkipSpace(a[3..]);
    && StartsWithIgnoreCase(b, "system")
    && var c := SkipSpace(b[6..]);
    && StartsWithIgnoreCase(c, "error")
    && AllSpace(c[5..])
  }

  /** The trimmed line equals the bandwidth-limit rejection, ignoring case. */
  predicate IsBandwidthLimit(s: string) {
    EqualsIgnoreCase(Trim(s), BandwidthLimitLine)
  }

  /** The whole line matches `[.] OK .*@.* \(Success\)`, case-sensitively. */
  predicate IsAuthSuccess(s: string) {
    && |AuthPrefix| + |AuthSuffix| <= |s|
    && AuthPrefix <= s
    && s[|s| - |AuthSuffix|..] == AuthSuffix
    && var mid := s[|AuthPrefix|..|s| - |AuthSuffix|];
    && '@' in mid
    && NoLineTerminator(mid)
  }

  /** The groups of a successful `find()` of `^[.] (NO|BAD) (.*)`. */
  datatype FailedMatch = FailedMatch(whole: string, status: string, reason: string)

  /** The number of capturing groups of `^[.] (NO|BAD) (.*)`. */
  const FailedGroupCount := 2

  /** `find()` of `^[.] (NO|BAD) (.*)`, ignoring case: the groups when the line starts so. */
  function CommandFailed(s: string): Option<FailedMatch> {
    if StartsWithIgnoreCase(s, ". NO ") then
      var reason := s[5..][..FirstLineTerminator(s[5..])];
      Some(FailedMatch(s[..5] + reason, s[2..4], reason))
    else if StartsWithIgnoreCase(s, ". BAD ") then
      var reason := s[6..][..FirstLineTerminator(s[6..])];
      Some(FailedMatch(s[..6] + reason, s[2..5], reason))
    else None
  }

  /** Group 2 (the reason) when the pattern has more than one group, else the whole match. */
  function ExtractError(m: FailedMatch): string {
    if FailedGroupCount > 1 then m.reason else m.whole
  }

  /** The whole line matches `.* OK IDLE terminated \(success\)\s*`, ignoring case. */
  predicate IsIdleEnded(s: string) {
    var t := s[..|s| - TrailingSpace(s)];
    && |IdleEndedTail| <= |t|
    && EqualsIgnoreCase(t[|t| - |IdleEndedTail|..], IdleEndedTail)
    && NoLineTerminator(t[..|t| - |IdleEndedTail|])
  }

  /**
   * The whole line matches `\* (\d+)` followed by `word` and `\s*`, ignoring case: the number
   * of group 1 when it does.
   */
  function Notification(s: string, word: string): Option<nat> {
    if 2 <= |s| && s[..2] == "* " then
      var k := LeadingDigits(s[2..]);
      assert s[2..2 + k] == s[2..][..k];
      var rest := s[2 + k..];
      if 0 < k && StartsWithIgnoreCase(rest, word) && AllSpace(rest[|word|..])
      then Some(DigitsValue(s[2..2 + k]))
      else None
    else None
  }

  /** `\* (\d+) exists\s*`. */
  function ExistsCount(s: string): Option<nat> {
    Notification(s, ExistsWord)
  }

  /** `\* (\d+) expunge\s*`. */
  function ExpungeCount(s: string): Option<nat> {
    Notification(s, ExpungeWord)
  }

  /** `Integer.MAX_VALUE`: `Integer.parseInt` throws for a larger number. */
  const IntMax := 0x7fff_ffff

  /** The message number an EXISTS or EXPUNGE notification announces. */
  function Announced(m: string): nat
    requires ExistsCount(m).Some? || ExpungeCount(m).Some?
  {
    if ExistsCount(m).Some? then ExistsCount(m).value else ExpungeCount(m).value
  }
}

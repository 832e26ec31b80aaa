/**
 * What each line pattern of `Lines` accepts, stated as the shape of the matching lines, and
 * the round trips of the small parsers (decimal numbers, blank-separated tokens).
 */
module LineShapes {
  import opened Wrappers
  import opened Lines

  // ---------------------------------------------------------------------------------------
  // Runs of characters
  // ---------------------------------------------------------------------------------------

  lemma LowerCharKeeps(c: char, x: char)
    requires !('a' <= x <= 'z') && LowerChar(c) == x
    ensures c == x
  {
  }

  /** Strings equal up to case have the same length and agree up to case at each position. */
  lemma EqualsIgnoreCaseAt(a: string, b: string, i: int)
    requires EqualsIgnoreCase(a, b) && 0 <= i < |a|
    ensures |a| == |b| && LowerChar(a[i]) == LowerChar(b[i])
  {
    assert |Lower(a)| == |a| && |Lower(b)| == |b|;
    assert Lower(a)[i] == Lower(b)[i];
  }

  /** A character equal up to case to one that is no letter is that character. */
  lemma SameCharIgnoringCase(a: string, b: string, i: int)
    requires EqualsIgnoreCase(a, b) && 0 <= i < |a|
    requires !('a' <= b[i] <= 'z') && !('A' <= b[i] <= 'Z')
    ensures |a| == |b| && a[i] == b[i]
  {
    EqualsIgnoreCaseAt(a, b, i);
    LowerCharKeeps(a[i], b[i]);
  }

  /** A greedy `\s*` in front of a non-space stops exactly at it. */
  lemma LeadingSpaceOf(w: string, x: string)
    requires AllSpace(w) && (x == [] || !IsSpace(x[0]))
    ensures LeadingSpace(w + x) == |w|
    ensures SkipSpace(w + x) == x
  {
    var s := w + x;
    assert forall i :: 0 <= i < |w| ==> s[i] == w[i];
    assert |w| < |s| ==> s[|w|] == x[0];
    assert s[|w|..] == x;
  }

  /** A trailing `\s*` behind a non-space covers exactly the spaces. */
  lemma TrailingSpaceOf(x: string, w: string)
    requires AllSpace(w) && (x == [] || !IsSpace(x[|x| - 1]))
    ensures TrailingSpace(x + w) == |w|
  {
    var s := x + w;
    assert forall i :: |x| <= i < |s| ==> s[i] == w[i - |x|];
    assert |w| < |s| ==> s[|s| - |w| - 1] == x[|x| - 1];
  }

  /** A greedy `\d+` in front of a non-digit stops exactly at it. */
  lemma LeadingDigitsOf(d: string, x: string)
    requires AllDigits(d) && (x == [] || !IsDigit(x[0]))
    ensures LeadingDigits(d + x) == |d|
  {
    var s := d + x;
    assert forall i :: 0 <= i < |d| ==> s[i] == d[i];
    assert |d| < |s| ==> s[|d|] == x[0];
  }

  // ---------------------------------------------------------------------------------------
  // Numbers: `\d+` and Integer.parseInt
  // ---------------------------------------------------------------------------------------

  /** Parsing the decimal spelling of a number gives the number back. */
  lemma {:induction false} DecimalValue(n: nat)
    ensures DigitsValue(Decimal(n)) == n
  {
    if n >= 10 {
      DecimalValue(n / 10);
      var d := Decimal(n);
      assert d[..|d| - 1] == Decimal(n / 10);
    }
  }

  lemma StartsWithIgnoreCaseOf(v: string, w: string, word: string)
    requires EqualsIgnoreCase(v, word)
    ensures |v| == |word| && StartsWithIgnoreCase(v + w, word) && (v + w)[|word|..] == w
  {
    assert |Lower(v)| == |v| && |Lower(word)| == |word|;
    assert (v + w)[..|word|] == v;
  }

  /** `\* (\d+)<word>\s*` accepts a star, a blank, digits, the word in any case and spaces. */
  lemma NotificationAccepts(d: string, v: string, w: string, word: string)
    requires d != [] && AllDigits(d)
    requires word != [] && word[0] == ' ' && EqualsIgnoreCase(v, word)
    requires AllSpace(w)
    ensures Notification("* " + d + v + w, word) == Some(DigitsValue(d))
  {
    StartsWithIgnoreCaseOf(v, w, word);
    SameCharIgnoringCase(v, word, 0);
    var rest := v + w;
    var s := "* " + d + v + w;
    assert s == "* " + (d + rest);
    LeadingDigitsOf(d, rest);
    assert s[..2] == "* ";
    assert s[2..] == d + rest;
    assert s[2 + |d|..] == rest;
    assert s[2..2 + |d|] == d;
  }

  /** Every line `\* (\d+)<word>\s*` accepts has that shape, and the number is its digits'. */
  lemma NotificationShape(s: string, word: string)
    requires Notification(s, word).Some?
    ensures exists d, v, w :: && d != [] && AllDigits(d) && EqualsIgnoreCase(v, word) && AllSpace(w)
                              && s == "* " + d + v + w && Notification(s, word) == Some(DigitsValue(d))
  {
    var k := LeadingDigits(s[2..]);
    var rest := s[2 + k..];
    var d, v, w := s[2..2 + k], rest[..|word|], rest[|word|..];
    assert s[2..][..k] == d;
    assert s == "* " + d + v + w;
  }

  /** A number announced in an EXISTS or EXPUNGE line is read back unchanged. */
  lemma NotificationRoundTrip(n: nat, word: string, w: string)
    requires word != [] && word[0] == ' ' && AllSpace(w)
    ensures Notification("* " + Decimal(n) + word + w, word) == Some(n)
  {
    NotificationAccepts(Decimal(n), word, w, word);
    DecimalValue(n);
  }

  /** A notification starts with `*`, a blank and a digit, whatever the case of the line. */
  lemma NotificationStart(line: string, word: string)
    requires Notification(Lower(line), word).Some?
    ensures |line| >= 3 && line[0] == '*' && line[1] == ' ' && IsDigit(line[2])
  {
    var m := Lower(line);
    NotificationShape(m, word);
    var d, v, w :| && d != [] && AllDigits(d) && EqualsIgnoreCase(v, word) && AllSpace(w)
                   && m == "* " + d + v + w && Notification(m, word) == Some(DigitsValue(d));
    assert m[0] == '*' && m[1] == ' ' && m[2] == d[0];
    LowerCharKeeps(line[0], '*');
    LowerCharKeeps(line[1], ' ');
    LowerCharKeeps(line[2], d[0]);
  }

  lemma StartsWithFirst(a: string, p: string)
    ensures p != [] && StartsWithIgnoreCase(a, p) ==> LowerChar(a[0]) == LowerChar(p[0])
  {
    if p != [] && StartsWithIgnoreCase(a, p) {
      EqualsIgnoreCaseAt(a[..|p|], p, 0);
    }
  }

  lemma BandwidthLimitFirst(s: string)
    ensures IsBandwidthLimit(s) ==> Trim(s) != [] && LowerChar(Trim(s)[0]) == '.'
  {
    if IsBandwidthLimit(s) {
      assert BandwidthLimitLine[0] == '.';
      EqualsIgnoreCaseAt(BandwidthLimitLine, Trim(s), 0);
    }
  }

  /** The last character before the trailing spaces of an IDLE-terminated reply is `)`. */
  lemma IdleEndedLast(m: string)
    ensures var t := m[..|m| - TrailingSpace(m)];
      IsIdleEnded(m) ==> t != [] && LowerChar(t[|t| - 1]) == ')'
  {
    var t := m[..|m| - TrailingSpace(m)];
    if IsIdleEnded(m) {
      EqualsIgnoreCaseAt(t[|t| - |IdleEndedTail|..], IdleEndedTail, |IdleEndedTail| - 1);
      assert t[|t| - |IdleEndedTail|..][|IdleEndedTail| - 1] == t[|t| - 1];
    }
  }

  /**
   * A line starting with `*`, a blank and a character that is neither a space nor `b` in any
   * case is not fatal.
   */
  lemma StarLineIsNotFatal(line: string)
    requires |line| >= 3 && line[0] == '*' && line[1] == ' ' && !IsSpace(line[2]) && LowerChar(line[2]) != 'b'
    ensures !IsSystemError(line) && !IsBandwidthLimit(line)
  {
    assert line[1..] == " " + line[2..];
    LeadingSpaceOf(" ", line[2..]);
    StartsWithFirst(line[2..], "bye");
    assert Trim(line)[0] == '*';
    BandwidthLimitFirst(line);
  }

  /** A line starting with `*`, a blank and a digit is not fatal and not a capability line. */
  lemma StarDigitIsNoControlLine(line: string)
    requires |line| >= 3 && line[0] == '*' && line[1] == ' ' && IsDigit(line[2])
    ensures !IsSystemError(line) && !IsBandwidthLimit(line) && !IsCapability(line)
  {
    assert CapabilityPrefix[2] == 'C';
    StarLineIsNotFatal(line);
  }

  /** A line starting with `.` and no longer than the alert is neither fatal nor a capability line. */
  lemma DotLineIsNoControlLine(line: string)
    requires line != [] && line[0] == '.' && |line| < |BandwidthLimitLine|
    ensures !IsSystemError(line) && !IsBandwidthLimit(line) && !IsCapability(line)
  {
    assert CapabilityPrefix[0] == '*';
    assert |Lower(Trim(line))| <= |line|;
  }

  /** A notification does not end in the IDLE-terminated reply: it ends in its word's letter. */
  lemma NotificationNotIdleEnded(m: string, word: string)
    requires Notification(m, word).Some? && (word == ExistsWord || word == ExpungeWord)
    ensures !IsIdleEnded(m)
  {
    NotificationShape(m, word);
    var d, v, w :| && d != [] && AllDigits(d) && EqualsIgnoreCase(v, word) && AllSpace(w)
                   && m == "* " + d + v + w && Notification(m, word) == Some(DigitsValue(d));
    var x := "* " + d + v;
    EqualsIgnoreCaseAt(v, word, |v| - 1);
    assert LowerChar(v[|v| - 1]) == 's' || LowerChar(v[|v| - 1]) == 'e';
    assert x[|x| - 1] == v[|v| - 1];
    TrailingSpaceOf(x, w);
    assert m[..|m| - TrailingSpace(m)] == x;
    IdleEndedLast(m);
  }

  /**
   * A line announcing EXISTS or EXPUNGE, once lower-cased, is none of the lines handled before
   * the IDLE notifications: not fatal, not a capability line, and not the end of IDLE.
   */
  lemma NotificationIsNoControlLine(line: string)
    requires ExistsCount(Lower(line)).Some? || ExpungeCount(Lower(line)).Some?
    ensures !IsSystemError(line) && !IsBandwidthLimit(line) && !IsCapability(line) && !IsIdleEnded(Lower(line))
  {
    var word := if ExistsCount(Lower(line)).Some? then ExistsWord else ExpungeWord;
    NotificationStart(line, word);
    StarDigitIsNoControlLine(line);
    NotificationNotIdleEnded(Lower(line), word);
  }

  /** No line is both an EXISTS and an EXPUNGE notification. */
  lemma ExistsExpungeExclusive(s: string)
    ensures ExistsCount(s).Some? ==> ExpungeCount(s).None?
  {
    if ExistsCount(s).Some? {
      var rest := s[2 + LeadingDigits(s[2..])..];
      EqualsIgnoreCaseAt(rest[..|ExistsWord|], ExistsWord, 3);
      assert LowerChar(rest[3]) == 'i';
      if |ExpungeWord| <= |rest| {
        assert Lower(rest[..|ExpungeWord|])[3] != Lower(ExpungeWord)[3];
      }
    }
  }

  // ---------------------------------------------------------------------------------------
  // Splitting the capability list
  // ---------------------------------------------------------------------------------------

  lemma FirstBlankOf(t: string, x: string)
    requires NoBlank(t) && (x == [] || x[0] == ' ')
    ensures FirstBlank(t + x) == |t|
  {
    var s := t + x;
    assert forall i :: 0 <= i < |t| ==> s[i] == t[i];
    assert |t| < |s| ==> s[|t|] == x[0];
  }

  lemma {:induction false} PiecesJoin(ts: seq<string>)
    requires ts != []
    requires forall i :: 0 <= i < |ts| ==> ts[i] != [] && NoBlank(ts[i])
    ensures Join(ts) != [] && Join(ts)[0] == ts[0][0]
    ensures Pieces(Join(ts)) == ts
  {
    if |ts| == 1 {
      FirstBlankOf(ts[0], "");
      assert ts[0] + "" == ts[0];
    } else {
      var rest := Join(ts[1..]);
      PiecesJoin(ts[1..]);
      var s := ts[0] + " " + rest;
      assert s == ts[0] + (" " + rest);
      FirstBlankOf(ts[0], " " + rest);
      var i := |ts[0]|;
      assert s[i..] == " " + rest;
      assert LeadingBlanks(" " + rest) == 1 by {
        assert (" " + rest)[1] == rest[0];
      }
      assert s[i + 1..] == rest;
      assert s[..i] == ts[0];
      assert [ts[0]] + ts[1..] == ts;
    }
  }

  /**
   * Splitting non-empty blank-free tokens joined by single blanks gives the tokens back: the
   * capability list `IMAP4rev1 IDLE` reads as ["IMAP4rev1", "IDLE"].
   */
  lemma SplitJoin(ts: seq<string>)
    requires ts != []
    requires forall i :: 0 <= i < |ts| ==> ts[i] != [] && NoBlank(ts[i])
    ensures Split(Join(ts)) == ts
  {
    PiecesJoin(ts);
    if |ts| == 1 {
      assert forall k :: 0 <= k < |ts[0]| ==> ts[0][k] != ' ';
      assert ' ' !in ts[0];
    } else {
      assert Join(ts)[|ts[0]|] == ' ';
      assert ' ' in Join(ts);
    }
  }

  // ---------------------------------------------------------------------------------------
  // The login result patterns
  // ---------------------------------------------------------------------------------------

  /** `[.] OK .*@.* \(Success\)` accepts exactly `. OK x@y (Success)` with x, y on one line. */
  lemma AuthSuccessShape(s: string)
    ensures IsAuthSuccess(s) <==>
            exists x, y :: NoLineTerminator(x) && NoLineTerminator(y) && s == AuthPrefix + x + "@" + y + AuthSuffix
  {
    if IsAuthSuccess(s) {
      AuthSuccessSplits(s);
    }
    if exists x, y :: NoLineTerminator(x) && NoLineTerminator(y) && s == AuthPrefix + x + "@" + y + AuthSuffix {
      var x, y :| NoLineTerminator(x) && NoLineTerminator(y) && s == AuthPrefix + x + "@" + y + AuthSuffix;
      AuthSuccessAccepts(x, y);
    }
  }

  /** A login success splits around an `@` into a user and a domain part, each on one line. */
  lemma AuthSuccessSplits(s: string)
    requires IsAuthSuccess(s)
    ensures exists x, y :: NoLineTerminator(x) && NoLineTerminator(y) && s == AuthPrefix + x + "@" + y + AuthSuffix
  {
    var mid := s[|AuthPrefix|..|s| - |AuthSuffix|];
    var k :| 0 <= k < |mid| && mid[k] == '@';
    var x, y := mid[..k], mid[k + 1..];
    assert mid == x + "@" + y;
    assert s == s[..|AuthPrefix|] + mid + s[|s| - |AuthSuffix|..];
    assert NoLineTerminator(x) && NoLineTerminator(y);
    assert s == AuthPrefix + x + "@" + y + AuthSuffix;
  }

  /** Any `. OK <user>@<domain> (Success)` line on one line is a login success. */
  lemma AuthSuccessAccepts(x: string, y: string)
    requires NoLineTerminator(x) && NoLineTerminator(y)
    ensures IsAuthSuccess(AuthPrefix + x + "@" + y + AuthSuffix)
  {
    var s := AuthPrefix + x + "@" + y + AuthSuffix;
    var mid := s[|AuthPrefix|..|s| - |AuthSuffix|];
    assert s[..|AuthPrefix|] == AuthPrefix;
    assert s[|s| - |AuthSuffix|..] == AuthSuffix;
    assert mid == x + "@" + y;
    assert mid[|x|] == '@';
  }

  /**
   * A match of `^[.] (NO|BAD) (.*)` covers the status word and the rest of the first line of
   * the input, and `extractError` hands back that rest (group 2).
   */
  lemma CommandFailedGroups(s: string)
    requires CommandFailed(s).Some?
    ensures var m := CommandFailed(s).value;
            && m.whole == ". " + m.status + " " + m.reason && m.whole <= s
            && (EqualsIgnoreCase(m.status, "NO") || EqualsIgnoreCase(m.status, "BAD"))
            && NoLineTerminator(m.reason)
            && (|m.whole| == |s| || IsLineTerminator(s[|m.whole|]))
            && ExtractError(m) == m.reason
  {
    if StartsWithIgnoreCase(s, ". NO ") {
      FailedMatchShape(s, ". NO ");
      assert ". NO "[2..4] == "NO";
    } else {
      FailedMatchShape(s, ". BAD ");
      assert ". BAD "[2..5] == "BAD";
    }
  }

  /** The groups `find()` reports for a line that starts with the pattern's literal part `p`. */
  lemma FailedMatchShape(s: string, p: string)
    requires 3 <= |p| && p[0] == '.' && p[1] == ' ' && p[|p| - 1] == ' ' && StartsWithIgnoreCase(s, p)
    ensures var reason := s[|p|..][..FirstLineTerminator(s[|p|..])];
            var m := FailedMatch(s[..|p|] + reason, s[2..|p| - 1], reason);
            && m.whole == ". " + m.status + " " + m.reason && m.whole <= s
            && EqualsIgnoreCase(m.status, p[2..|p| - 1])
            && NoLineTerminator(m.reason)
            && (|m.whole| == |s| || IsLineTerminator(s[|m.whole|]))
  {
    var n := |p|;
    var reason := s[n..][..FirstLineTerminator(s[n..])];
    FramedStatus(s, p);
    assert s[..n + |reason|] == s[..n] + reason;
  }

  /** A line that starts, ignoring case, with `. <status> ` starts with `. `, the status as written, and a blank. */
  lemma FramedStatus(s: string, p: string)
    requires 3 <= |p| && p[0] == '.' && p[1] == ' ' && p[|p| - 1] == ' ' && StartsWithIgnoreCase(s, p)
    ensures s[..|p|] == ". " + s[2..|p| - 1] + " "
    ensures EqualsIgnoreCase(s[2..|p| - 1], p[2..|p| - 1])
  {
    var n := |p|;
    assert Lower(s[..n])[0] == '.' && Lower(s[..n])[1] == ' ' && Lower(s[..n])[n - 1] == ' ';
    LowerCharKeeps(s[0], '.');
    LowerCharKeeps(s[1], ' ');
    LowerCharKeeps(s[n - 1], ' ');
    assert Lower(s[2..n - 1]) == Lower(s[..n])[2..n - 1];
    assert Lower(p[2..n - 1]) == Lower(p)[2..n - 1];
  }

  /**
   * A NO or BAD reply, the status in any case, yields its reason as the login error; whatever
   * follows the reason's line is not part of it.
   */
  lemma CommandFailedReason(status: string, reason: string, rest: string)
    requires EqualsIgnoreCase(status, "NO") || EqualsIgnoreCase(status, "BAD")
    requires NoLineTerminator(reason) && (rest == [] || IsLineTerminator(rest[0]))
    ensures CommandFailed(". " + status + " " + reason + rest).Some?
    ensures ExtractError(CommandFailed(". " + status + " " + reason + rest).value) == reason
  {
    var s := ". " + status + " " + reason + rest;
    var n := |status| + 3;
    assert |Lower(status)| == |status|;
    assert s[..n] == ". " + status + " ";
    assert s[n..] == reason + rest;
    FirstLineTerminatorOf(reason, rest);
    assert (reason + rest)[..|reason|] == reason;
    LowerConcat(". ", status);
    LowerConcat(". " + status, " ");
    if |status| == 2 {
      assert Lower(s[..5]) == Lower(". NO ");
    } else {
      assert Lower(s[..5])[4] == Lower(status)[2] == 'd';
      assert Lower(s[..6]) == Lower(". BAD ");
    }
  }

  /** The first line terminator of `r + rest` is where `rest` starts with one. */
  lemma {:induction false} FirstLineTerminatorOf(r: string, rest: string)
    requires NoLineTerminator(r) && (rest == [] || IsLineTerminator(rest[0]))
    ensures FirstLineTerminator(r + rest) == |r|
  {
    if r != [] {
      assert (r + rest)[1..] == r[1..] + rest;
      FirstLineTerminatorOf(r[1..], rest);
    }
  }

  // ---------------------------------------------------------------------------------------
  // Fatal lines
  // ---------------------------------------------------------------------------------------

  /** A word matched ignoring case, then a greedy `\s*`, leaves what follows the spaces. */
  lemma WordThenSpace(v: string, word: string, w: string, rest: string)
    requires EqualsIgnoreCase(v, word) && AllSpace(w) && (rest == [] || !IsSpace(rest[0]))
    ensures StartsWithIgnoreCase(v + w + rest, word)
    ensures SkipSpace((v + w + rest)[|word|..]) == rest
  {
    StartsWithIgnoreCaseOf(v, w + rest, word);
    assert v + w + rest == v + (w + rest);
    LeadingSpaceOf(w, rest);
  }

  /** The first letter of a word matched ignoring case is no space. */
  lemma LetterIsNoSpace(v: string, word: string)
    requires EqualsIgnoreCase(v, word) && word != [] && 'a' <= word[0] <= 'z'
    ensures v != [] && !IsSpace(v[0])
  {
    EqualsIgnoreCaseAt(v, word, 0);
  }

  /** `[*]\s*bye\s*system\s*error\s*` accepts the three words in any case around any spaces. */
  lemma SystemErrorAccepts(w1: string, b: string, w2: string, y: string, w3: string, e: string, w4: string)
    requires AllSpace(w1) && AllSpace(w2) && AllSpace(w3) && AllSpace(w4)
    requires EqualsIgnoreCase(b, "bye") && EqualsIgnoreCase(y, "system") && EqualsIgnoreCase(e, "error")
    ensures IsSystemError("*" + w1 + b + w2 + y + w3 + e + w4)
  {
    var ce := e + w4;
    var cy := y + w3 + ce;
    var cb := b + w2 + cy;
    var s := "*" + w1 + b + w2 + y + w3 + e + w4;
    assert s == "*" + (w1 + cb);
    LetterIsNoSpace(b, "bye");
    LetterIsNoSpace(y, "system");
    LetterIsNoSpace(e, "error");
    LeadingSpaceOf(w1, cb);
    assert SkipSpace(s[1..]) == cb;
    WordThenSpace(b, "bye", w2, cy);
    WordThenSpace(y, "system", w3, ce);
    StartsWithIgnoreCaseOf(e, w4, "error");
  }

  /** A run of spaces, then what `SkipSpace` leaves. */
  function SpaceSplit(t: string): (w: string)
    ensures AllSpace(w) && t == w + SkipSpace(t)
  {
    assert t == t[..LeadingSpace(t)] + t[LeadingSpace(t)..];
    t[..LeadingSpace(t)]
  }

  /** The word a line starts with, matched ignoring case. */
  function WordSplit(t: string, word: string): (v: string)
    requires StartsWithIgnoreCase(t, word)
    ensures EqualsIgnoreCase(v, word) && t == v + t[|word|..]
  {
    assert t == t[..|word|] + t[|word|..];
    t[..|word|]
  }

  /** Every line `[*]\s*bye\s*system\s*error\s*` accepts is the three words around spaces. */
  lemma SystemErrorShape(s: string)
    requires IsSystemError(s)
    ensures exists w1, b, w2, y, w3, e, w4 ::
      && AllSpace(w1) && AllSpace(w2) && AllSpace(w3) && AllSpace(w4)
      && EqualsIgnoreCase(b, "bye") && EqualsIgnoreCase(y, "system") && EqualsIgnoreCase(e, "error")
      && s == "*" + w1 + b + w2 + y + w3 + e + w4
  {
    var a := SkipSpace(s[1..]);
    var bb := SkipSpace(a[3..]);
    var c := SkipSpace(bb[6..]);
    var w1, w2, w3 := SpaceSplit(s[1..]), SpaceSplit(a[3..]), SpaceSplit(bb[6..]);
    var b, y, e := WordSplit(a, "bye"), WordSplit(bb, "system"), WordSplit(c, "error");
    Assemble(s, a, a[3..], bb, bb[6..], c, w1, b, w2, y, w3, e, c[5..]);
  }

  /** The pieces `SystemErrorShape` peels off, put back together. */
  lemma Assemble(s: string, a: string, ta: string, bb: string, tb: string, c: string,
                 w1: string, b: string, w2: string, y: string, w3: string, e: string, w4: string)
    requires s != [] && s[0] == '*' && s[1..] == w1 + a
    requires a == b + ta && ta == w2 + bb && bb == y + tb && tb == w3 + c && c == e + w4
    ensures s == "*" + w1 + b + w2 + y + w3 + e + w4
  {
    assert s == [s[0]] + s[1..];
  }

  lemma {:induction false} TrimOf(w1: string, v: string, w2: string)
    requires forall i :: 0 <= i < |w1| ==> w1[i] <= ' '
    requires forall i :: 0 <= i < |w2| ==> w2[i] <= ' '
    requires v != [] && v[0] > ' ' && v[|v| - 1] > ' '
    ensures Trim(w1 + v + w2) == v
    decreases |w1| + |w2|
  {
    var s := w1 + v + w2;
    if w1 != [] {
      assert s[1..] == w1[1..] + v + w2;
      TrimOf(w1[1..], v, w2);
    } else if w2 != [] {
      assert s[..|s| - 1] == w1 + v + w2[..|w2| - 1];
      TrimOf(w1, v, w2[..|w2| - 1]);
    } else {
      assert s == v;
    }
  }

  /** The bandwidth rejection is recognised in any case, with blanks or CR/LF around it. */
  lemma BandwidthLimitAccepts(w1: string, v: string, w2: string)
    requires forall i :: 0 <= i < |w1| ==> w1[i] <= ' '
    requires forall i :: 0 <= i < |w2| ==> w2[i] <= ' '
    requires EqualsIgnoreCase(v, BandwidthLimitLine)
    ensures IsBandwidthLimit(w1 + v + w2)
  {
    assert BandwidthLimitLine[0] == '.' && BandwidthLimitLine[|BandwidthLimitLine| - 1] == ')';
    SameCharIgnoringCase(v, BandwidthLimitLine, 0);
    SameCharIgnoringCase(v, BandwidthLimitLine, |v| - 1);
    TrimOf(w1, v, w2);
  }

  // ---------------------------------------------------------------------------------------
  // End of IDLE
  // ---------------------------------------------------------------------------------------

  /**
   * `.* OK IDLE terminated \(success\)\s*` accepts exactly a line of text, the tail in any
   * case, and trailing spaces.
   */
  lemma IdleEndedShape(s: string)
    ensures IsIdleEnded(s) <==>
            exists x, v, w :: NoLineTerminator(x) && EqualsIgnoreCase(v, IdleEndedTail) && AllSpace(w) && s == x + v + w
  {
    if IsIdleEnded(s) {
      IdleEndedSplits(s);
    }
    if exists x, v, w :: NoLineTerminator(x) && EqualsIgnoreCase(v, IdleEndedTail) && AllSpace(w) && s == x + v + w {
      var x, v, w :| NoLineTerminator(x) && EqualsIgnoreCase(v, IdleEndedTail) && AllSpace(w) && s == x + v + w;
      IdleEndedJoins(x, v, w);
    }
  }

  /** A line that ends IDLE splits into a head on one line, the reply text, and trailing blanks. */
  lemma IdleEndedSplits(s: string)
    requires IsIdleEnded(s)
    ensures exists x, v, w :: NoLineTerminator(x) && EqualsIgnoreCase(v, IdleEndedTail) && AllSpace(w) && s == x + v + w
  {
    var k := TrailingSpace(s);
    var t := s[..|s| - k];
    var x, v, w := t[..|t| - |IdleEndedTail|], t[|t| - |IdleEndedTail|..], s[|s| - k..];
    assert s == x + v + w;
  }

  /** A head on one line, the reply text in any case, and trailing blanks end IDLE. */
  lemma IdleEndedJoins(x: string, v: string, w: string)
    requires NoLineTerminator(x) && EqualsIgnoreCase(v, IdleEndedTail) && AllSpace(w)
    ensures IsIdleEnded(x + v + w)
  {
    var s := x + v + w;
    var t := s[..|s| - TrailingSpace(s)];
    assert |Lower(v)| == |IdleEndedTail|;
    assert Lower(v)[|v| - 1] == ')';
    LowerCharKeeps(v[|v| - 1], ')');
    TrailingSpaceOf(x + v, w);
    assert t == x + v;
    assert t[|t| - |IdleEndedTail|..] == v;
    assert t[..|t| - |IdleEndedTail|] == x;
  }

  lemma LowerConcat(a: string, b: string)
    ensures Lower(a + b) == Lower(a) + Lower(b)
  {
  }

  /** Lower-casing keeps spaces, line terminators and the case-insensitive spelling. */
  lemma LowerKeeps(s: string)
    ensures EqualsIgnoreCase(Lower(s), s)
    ensures AllSpace(s) ==> AllSpace(Lower(s))
    ensures NoLineTerminator(s) ==> NoLineTerminator(Lower(s))
  {
    assert Lower(Lower(s)) == Lower(s);
  }

  /**
   * `toLowerCase()` of any text without a line terminator, then the IDLE-terminated reply in
   * any case, then spaces, is recognised as the end of IDLE.
   */
  lemma IdleEndedAccepts(x: string, v: string, w: string)
    requires NoLineTerminator(x) && EqualsIgnoreCase(v, IdleEndedTail) && AllSpace(w)
    ensures IsIdleEnded(Lower(x + v + w))
  {
    LowerConcat(x + v, w);
    LowerConcat(x, v);
    LowerKeeps(x);
    LowerKeeps(v);
    LowerKeeps(w);
    IdleEndedJoins(Lower(x), Lower(v), Lower(w));
  }

}

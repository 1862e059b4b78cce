/**
 * The three regular expressions of the contact forms, written as string predicates:
 * `^[^\s@]+@[^\s@]+\.[^\s@]+$` (e-mail), `^[a-zA-ZÀ-ÿ\s\-']{2,50}$` (name) and
 * `^[\d\s\+\-\(\)]{7,20}$` (phone).
 */
module Patterns {
  import opened Optional
  import opened JsString

  // ---------------------------------------------------------------------------
  // e-mail

  /** A character that the class `[^\s@]` matches. */
  predicate IsAddressChar(c: char) {
    !IsSpace(c) && c != '@'
  }

  predicate AddressRun(s: string) {
    forall i :: 0 <= i < |s| ==> IsAddressChar(s[i])
  }

  /**
   * The regular expression's own reading of `s`: a non-empty run of `[^\s@]`, the `@` at
   * `at`, a non-empty run, the `.` at `dot`, and a non-empty run up to the end.
   */
  predicate EmailSplit(s: string, at: int, dot: int) {
    0 < at && at + 1 < dot && dot + 1 < |s| && s[at] == '@' && s[dot] == '.'
    && AddressRun(s[..at]) && AddressRun(s[at + 1..dot]) && AddressRun(s[dot + 1..])
  }

  /** `s` matches the e-mail pattern: some choice of `@` and `.` positions splits it as the pattern says. */
  ghost predicate EmailPattern(s: string) {
    exists at, dot :: EmailSplit(s, at, dot)
  }

  /** The domain after the `@` holds a `.` with at least one character on either side. */
  predicate HasInnerDot(d: string) {
    |d| >= 3 && '.' in d[1..|d| - 1]
  }

  /**
   * The e-mail test as a scan: the first `@` has a non-empty local part before it, and
   * neither side holds white space or another `@`; the domain holds an inner `.`.
   */
  predicate IsEmail(s: string) {
    match IndexOf(s, '@')
    case None => false
    case Some(at) => 0 < at && AddressRun(s[..at]) && AddressRun(s[at + 1..]) && HasInnerDot(s[at + 1..])
  }

  /** The scan accepts exactly the strings the regular expression matches. */
  lemma EmailScanMatchesPattern(s: string)
    ensures IsEmail(s) <==> EmailPattern(s)
  {
    if IsEmail(s) {
      ScanGivesSplit(s);
    }
    if EmailPattern(s) {
      var at, dot :| EmailSplit(s, at, dot);
      SplitPassesScan(s, at, dot);
    }
  }

  /** A string the scan accepts splits as the pattern says, at its first `@` and a dot inside the domain. */
  lemma ScanGivesSplit(s: string)
    requires IsEmail(s)
    ensures EmailPattern(s)
  {
    var at := IndexOf(s, '@').value;
    var d := s[at + 1..];
    var k :| 0 <= k < |d| - 2 && d[1..|d| - 1][k] == '.';
    var dot := at + 2 + k;
    assert s[at + 1..dot] == d[..k + 1];
    assert s[dot + 1..] == d[k + 2..];
    assert EmailSplit(s, at, dot);
  }

  /** Any split the pattern allows puts its `@` first, so the scan finds it and then the dot. */
  lemma SplitPassesScan(s: string, at: int, dot: int)
    requires EmailSplit(s, at, dot)
    ensures IsEmail(s)
  {
    var first := IndexOf(s, '@');
    assert first.Some? by { assert s[at] == '@'; }
    assert first.value == at by {
      var f := first.value;
      assert f >= at;
      assert '@' !in s[..f];
    }
    var d := s[at + 1..];
    assert d == s[at + 1..dot] + [s[dot]] + s[dot + 1..];
    assert d[1..|d| - 1][dot - at - 2] == '.';
  }

  /** In any reading of the pattern, the `@` at `at` is the only `@` and there is no white space. */
  lemma EmailSplitChars(s: string, at: int, dot: int, i: int)
    requires EmailSplit(s, at, dot) && 0 <= i < |s|
    ensures !IsSpace(s[i]) && (s[i] == '@' <==> i == at)
  {
    if i < at {
      assert s[i] == s[..at][i];
    } else if at < i < dot {
      assert s[i] == s[at + 1..dot][i - at - 1];
    } else if dot < i {
      assert s[i] == s[dot + 1..][i - dot - 1];
    }
  }

  /** A value holding white space anywhere fails the e-mail test. */
  lemma EmailRejectsSpace(s: string, i: int)
    requires 0 <= i < |s| && IsSpace(s[i])
    ensures !IsEmail(s)
  {
    EmailScanMatchesPattern(s);
    if EmailPattern(s) {
      var at, dot :| EmailSplit(s, at, dot);
      EmailSplitChars(s, at, dot, i);
    }
  }

  /** A value holding two `@` signs fails the e-mail test. */
  lemma EmailRejectsSecondAt(s: string, i: int, j: int)
    requires 0 <= i < j < |s| && s[i] == '@' && s[j] == '@'
    ensures !IsEmail(s)
  {
    EmailScanMatchesPattern(s);
    if EmailPattern(s) {
      var at, dot :| EmailSplit(s, at, dot);
      EmailSplitChars(s, at, dot, i);
      EmailSplitChars(s, at, dot, j);
    }
  }

  /** The boundary examples: a domain without a dot is rejected, a dotted one accepted. */
  lemma EmailExamples()
    ensures !IsEmail("a@b")
    ensures IsEmail("a@b.com")
  {
    EmailScanMatchesPattern("a@b");
    EmailScanMatchesPattern("a@b.com");
    assert EmailSplit("a@b.com", 1, 3);
  }

  // ---------------------------------------------------------------------------
  // name and phone

  /** A character of the class `[a-zA-ZÀ-ÿ\s\-']`: ASCII letters, U+00C0 to U+00FF, white space, `-`, `'`. */
  predicate IsNameChar(c: char) {
    'a' <= c <= 'z' || 'A' <= c <= 'Z' || '\U{C0}' <= c <= '\U{FF}' || IsSpace(c) || c == '-' || c == '\''
  }

  /** `^[a-zA-ZÀ-ÿ\s\-']{2,50}$`: 2 to 50 characters, all of the name class. */
  predicate IsName(s: string) {
    2 <= |s| <= 50 && forall i :: 0 <= i < |s| ==> IsNameChar(s[i])
  }

  /** A character of the class `[\d\s\+\-\(\)]`: ASCII digits, white space, `+`, `-`, `(`, `)`. */
  predicate IsPhoneChar(c: char) {
    '0' <= c <= '9' || IsSpace(c) || c == '+' || c == '-' || c == '(' || c == ')'
  }

  /** `^[\d\s\+\-\(\)]{7,20}$`: 7 to 20 characters, all of the phone class. */
  predicate IsPhone(s: string) {
    7 <= |s| <= 20 && forall i :: 0 <= i < |s| ==> IsPhoneChar(s[i])
  }

  /**
   * Name examples: one letter is too short, an accented Latin-1 name passes, and a name
   * with a letter beyond U+00FF (the `č` of "Kováč") is rejected.
   */
  lemma NameExamples()
    ensures !IsName("A")
    ensures IsName("Ana")
    ensures IsName("Ren\U{E9}e O'Neil-M\U{FC}ller")
    ensures !IsName("Ana Kov\U{E1}\U{10D}")
  {
    assert "Ana Kov\U{E1}\U{10D}"[8] == '\U{10D}';
  }

  /** The class admits two non-letters of Latin-1: the multiplication and division signs. */
  lemma NameAdmitsSigns()
    ensures IsName("A\U{D7}B") && IsName("\U{F7}\U{F7}")
  {
  }

  /** Phone examples: three digits are too short; an international number with spaces passes. */
  lemma PhoneExamples()
    ensures !IsPhone("123")
    ensures IsPhone("+421 900 123 456")
    ensures IsPhone("(02) 123-4567")
    ensures !IsPhone("+421 900 123 456 789 0")
    ensures !IsPhone("0900 12345x")
  {
    assert "0900 12345x"[10] == 'x';
  }
}

/** Field-format checks of the user form: the per-keystroke name filter,
    the email shape and the ten-digit phone number, each a regular
    expression in the component, restated as predicates on strings. */
module Validation {

  /** JavaScript's `\s`: the ECMAScript WhiteSpace and LineTerminator
      code points (TAB, LF, VT, FF, CR, SPACE, NBSP, the Zs separators,
      LINE and PARAGRAPH SEPARATOR, and the byte-order mark). */
  predicate IsWs(c: char)
    ensures IsWs(c) ==> !IsAsciiLetter(c) && !IsDigit(c) && c != '@' && c != '.'
  {
    var n := c as int;
    (0x09 <= n <= 0x0D) || n == 0x20 || n == 0xA0 || n == 0x1680
    || (0x2000 <= n <= 0x200A) || n == 0x2028 || n == 0x2029
    || n == 0x202F || n == 0x205F || n == 0x3000 || n == 0xFEFF
  }

  predicate IsAsciiLetter(c: char) {
    ('a' <= c <= 'z') || ('A' <= c <= 'Z')
  }

  predicate IsDigit(c: char) {
    '0' <= c <= '9'
  }

  /** The character class `[a-zA-Z\s]`. */
  predicate NameChar(c: char) {
    IsAsciiLetter(c) || IsWs(c)
  }

  // ---------------------------------------------------------------------
  // Name filter: /^[a-zA-Z\s]*$/

  /** The anchored star over `[a-zA-Z\s]`, read one character at a time. */
  predicate NameAllowed(v: string)
    ensures NameAllowed(v) ==> forall i :: 0 <= i < |v| ==> !IsDigit(v[i]) && v[i] != '@'
    decreases |v|
  {
    v == [] || (NameChar(v[0]) && NameAllowed(v[1..]))
  }

  /** The star accepts a string exactly when every character is an ASCII
      letter or whitespace. */
  lemma {:induction false} NameAllowedIff(v: string)
    ensures NameAllowed(v) <==> forall i :: 0 <= i < |v| ==> NameChar(v[i])
    decreases |v|
  {
    if v != [] {
      NameAllowedIff(v[1..]);
      assert forall i :: 1 <= i < |v| ==> v[1..][i - 1] == v[i];
    }
  }

  /** A digit or a symbol anywhere makes the filter refuse the value. */
  lemma NameRejectsNonNameChar(v: string, i: nat)
    requires i < |v| && !NameChar(v[i])
    ensures !NameAllowed(v)
  {
    NameAllowedIff(v);
  }

  lemma NameExamples()
    ensures NameAllowed("Ann Lee") && NameAllowed("") && NameAllowed("   ")
    ensures !NameAllowed("Ann2") && !NameAllowed("O'Brien")
  {
    NameAllowedIff("Ann Lee");
    NameAllowedIff("   ");
    NameRejectsNonNameChar("Ann2", 3);
    NameRejectsNonNameChar("O'Brien", 1);
  }

  // ---------------------------------------------------------------------
  // Phone number: /^[0-9]{10}$/

  /** The anchored repetition `[0-9]{n}`: exactly n digit atoms in a row. */
  predicate DigitRun(s: string, n: nat)
    decreases n
  {
    if n == 0 then s == []
    else s != [] && IsDigit(s[0]) && DigitRun(s[1..], n - 1)
  }

  predicate ValidNumber(s: string)
    ensures ValidNumber(s) ==> |s| == 10 && !IsWs(s[0]) && s[0] != '@'
  {
    DigitRunIff(s, 10);
    DigitRun(s, 10)
  }

  lemma {:induction false} DigitRunIff(s: string, n: nat)
    ensures DigitRun(s, n) <==> |s| == n && forall i :: 0 <= i < |s| ==> IsDigit(s[i])
    decreases n
  {
    if n > 0 && s != [] {
      DigitRunIff(s[1..], n - 1);
      assert forall i :: 1 <= i < |s| ==> s[1..][i - 1] == s[i];
    }
  }

  /** validateNumber holds exactly of ten-character all-digit strings. */
  lemma ValidNumberIff(s: string)
    ensures ValidNumber(s) <==> |s| == 10 && forall i :: 0 <= i < |s| ==> IsDigit(s[i])
  {
    DigitRunIff(s, 10);
  }

  lemma NumberAccepted()
    ensures ValidNumber("1234567890")
  {
    ValidNumberIff("1234567890");
  }

  lemma NumberTooShortOrLong()
    ensures !ValidNumber("") && !ValidNumber("123") && !ValidNumber("12345678901")
  {
    ValidNumberIff("");
    ValidNumberIff("123");
    ValidNumberIff("12345678901");
  }

  /** One character outside '0'..'9', anywhere, makes the number fail. */
  lemma NumberRejectsNonDigit(s: string, i: nat)
    requires i < |s| && !IsDigit(s[i])
    ensures !ValidNumber(s)
  {
    ValidNumberIff(s);
  }

  lemma NumberNonDigit()
    ensures !ValidNumber("123456789a") && !ValidNumber("123 456789")
  {
    NumberRejectsNonDigit("123456789a", 9);
    NumberRejectsNonDigit("123 456789", 3);
  }

  // ---------------------------------------------------------------------
  // Email shape: /^[^\s@]+@[^\s@]+\.[^\s@]+$/

  /** Every character is in `[^\s@]`. */
  predicate PartChars(p: string) {
    forall i :: 0 <= i < |p| ==> !IsWs(p[i]) && p[i] != '@'
  }

  /** `[^\s@]+`: a non-empty run of characters that are neither
      whitespace nor '@'. */
  predicate Part(p: string) {
    |p| > 0 && PartChars(p)
  }

  /** Position of the first occurrence of c in s, or |s| if there is none. */
  function IndexOf(s: string, c: char): (i: nat)
    ensures i <= |s|
    ensures i < |s| ==> s[i] == c
    ensures forall k :: 0 <= k < i ==> s[k] != c
    decreases |s|
  {
    if s == [] then 0
    else if s[0] == c then 0
    else 1 + IndexOf(s[1..], c)
  }

  /** A '.' with at least one character on either side of it. */
  predicate HasInnerDot(r: string) {
    exists j :: 0 < j < |r| - 1 && r[j] == '.'
  }

  /** validateEmail: a non-empty local part before the first '@', and
      after it a '@'-free, whitespace-free rest holding an inner dot. */
  predicate ValidEmail(s: string)
    ensures ValidEmail(s) ==> |s| >= 5 && s[0] != '@'
  {
    var at := IndexOf(s, '@');
    0 < at < |s| && PartChars(s[..at]) && PartChars(s[at + 1..]) && HasInnerDot(s[at + 1..])
  }

  /** The string the regex's three runs spell: local@domain.tld. */
  function Compose(l: string, d: string, t: string): (s: string) {
    l + "@" + d + "." + t
  }

  /** The shape the regex describes, as an existential split. The domain
      part may itself contain dots, since `[^\s@]` admits them. */
  ghost predicate EmailShape(s: string) {
    exists l, d, t :: Part(l) && Part(d) && Part(t) && s == Compose(l, d, t)
  }

  lemma PartCharsConcat(a: string, b: string)
    requires PartChars(a) && PartChars(b)
    ensures PartChars(a + b)
  {
  }

  /** Every string the checker accepts splits as local@domain.tld. */
  lemma ValidEmailSound(s: string)
    requires ValidEmail(s)
    ensures EmailShape(s)
  {
    var at := IndexOf(s, '@');
    var l, r := s[..at], s[at + 1..];
    var j :| 0 < j < |r| - 1 && r[j] == '.';
    var d, t := r[..j], r[j + 1..];
    assert r == d + "." + t by {
      assert r == r[..j] + [r[j]] + r[j + 1..];
    }
    assert s == l + "@" + r by {
      assert s == s[..at] + [s[at]] + s[at + 1..];
    }
    assert Part(d) by {
      assert forall i :: 0 <= i < |d| ==> d[i] == r[i];
    }
    assert Part(t) by {
      assert forall i :: 0 <= i < |t| ==> t[i] == r[j + 1 + i];
    }
    assert s == Compose(l, d, t);
  }

  /** Every local@domain.tld split is accepted by the checker. */
  lemma ValidEmailComplete(l: string, d: string, t: string)
    requires Part(l) && Part(d) && Part(t)
    ensures ValidEmail(Compose(l, d, t))
  {
    var s := Compose(l, d, t);
    var r := d + "." + t;
    assert s == l + "@" + r;
    assert s[|l|] == '@';
    assert forall k :: 0 <= k < |l| ==> s[k] == l[k];
    var at := IndexOf(s, '@');
    assert at == |l|;
    assert s[..at] == l;
    assert s[at + 1..] == r;
    PartCharsConcat(d, ".");
    PartCharsConcat(d + ".", t);
    assert r[|d|] == '.';
  }

  /** validateEmail holds exactly of the strings that split as
      local@domain.tld with three non-empty runs of `[^\s@]`. */
  lemma ValidEmailIff(s: string)
    ensures ValidEmail(s) <==> EmailShape(s)
  {
    if ValidEmail(s) {
      ValidEmailSound(s);
    }
    if EmailShape(s) {
      var l, d, t :| Part(l) && Part(d) && Part(t) && s == Compose(l, d, t);
      ValidEmailComplete(l, d, t);
    }
  }

  lemma EmailAccepted()
    ensures ValidEmail("foo@bar.com") && ValidEmail("ann@x.com")
  {
    ValidEmailComplete("foo", "bar", "com");
    assert Compose("foo", "bar", "com") == "foo@bar.com";
    ValidEmailComplete("ann", "x", "com");
    assert Compose("ann", "x", "com") == "ann@x.com";
  }

  /** The domain run may hold further dots, and may even begin with one. */
  lemma EmailAcceptsDottedDomain()
    ensures ValidEmail("a@b.c.d") && ValidEmail("a@.b.c")
  {
    ValidEmailComplete("a", "b.c", "d");
    assert Compose("a", "b.c", "d") == "a@b.c.d";
    ValidEmailComplete("a", ".b", "c");
    assert Compose("a", ".b", "c") == "a@.b.c";
  }

  lemma EmailRejectedIncomplete()
    ensures !ValidEmail("") && !ValidEmail("foo") && !ValidEmail("foo@") && !ValidEmail("foo@bar")
  {
    assert IndexOf("foo", '@') == 3;
    assert IndexOf("foo@", '@') == 3;
    assert IndexOf("foo@bar", '@') == 3;
    assert "foo@bar"[4..] == "bar";
  }

  /** An empty local part fails: the string may not begin with '@'. */
  lemma EmailRejectsLeadingAt(s: string)
    requires |s| > 0 && s[0] == '@'
    ensures !ValidEmail(s)
  {
  }

  /** A second '@' anywhere fails. */
  lemma EmailRejectsSecondAt(s: string, i: nat, j: nat)
    requires i < j < |s| && s[i] == '@' && s[j] == '@'
    ensures !ValidEmail(s)
  {
  }

  /** Whitespace anywhere fails. */
  lemma EmailRejectsWhitespace(s: string, i: nat)
    requires i < |s| && IsWs(s[i])
    ensures !ValidEmail(s)
  {
  }

  lemma EmailRejectedMisplaced()
    ensures !ValidEmail("@bar.com") && !ValidEmail("foo@bar.") && !ValidEmail("a@b@c.d")
  {
    EmailRejectsLeadingAt("@bar.com");
    assert IndexOf("foo@bar.", '@') == 3;
    assert "foo@bar."[4..] == "bar.";
    EmailRejectsSecondAt("a@b@c.d", 1, 3);
  }

  lemma EmailRejectedWhitespace()
    ensures !ValidEmail("fo o@bar.com")
  {
    EmailRejectsWhitespace("fo o@bar.com", 2);
  }
}

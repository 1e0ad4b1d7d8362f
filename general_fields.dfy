/** The field rules every request schema shares (`generalFields`), each
    regular expression written out character by character. */
module GeneralFields {
  import opened Wrappers
  import opened Text
  import opened UserModel

  /** `[a-zA-Z]{lo,hi}` matching the whole of `s`. */
  predicate LettersBetween(s: string, lo: nat, hi: nat) {
    lo <= |s| <= hi && All(s, IsLetter)
  }

  /** The length of the longest prefix of `s` made of ASCII letters. */
  function LeadingLetters(s: string): (n: nat)
    ensures n <= |s|
    ensures All(s[..n], IsLetter)
    ensures n < |s| ==> !IsLetter(s[n])
  {
    if s == [] || !IsLetter(s[0]) then 0
    else
      var n := LeadingLetters(s[1..]);
      assert s[..n + 1] == [s[0]] + s[1..][..n];
      n + 1
  }

  /** A letters-only prefix followed by a non-letter is the longest one. */
  lemma LeadingLettersAt(s: string, k: nat)
    requires k < |s| && All(s[..k], IsLetter) && !IsLetter(s[k])
    ensures LeadingLetters(s) == k
  {
  }

  /** `/^[a-zA-Z]{2,20}\s[a-zA-Z]{2,20}$/`, decided by reading the first word. */
  predicate IsUserName(s: string) {
    var k := LeadingLetters(s);
    2 <= k <= 20 && k < |s| && IsSpace(s[k]) && LettersBetween(s[k + 1..], 2, 20)
  }

  /** What the pattern means: `s` is a word, one whitespace character, a word. */
  ghost predicate UserNamePattern(s: string) {
    exists k :: 0 <= k < |s| && LettersBetween(s[..k], 2, 20) && IsSpace(s[k]) && LettersBetween(s[k + 1..], 2, 20)
  }

  /** Reading the first word decides the pattern exactly. */
  lemma UserNameMatchesPattern(s: string)
    ensures IsUserName(s) <==> UserNamePattern(s)
  {
    if UserNamePattern(s) {
      var k :| 0 <= k < |s| && LettersBetween(s[..k], 2, 20) && IsSpace(s[k]) && LettersBetween(s[k + 1..], 2, 20);
      LeadingLettersAt(s, k);
    }
    if IsUserName(s) {
      var k := LeadingLetters(s);
      assert LettersBetween(s[..k], 2, 20);
    }
  }

  /** A user name that passes the rule with a plain space reaches the
      model's setter as two names of at least two characters each. */
  lemma SpacedUserNameSplits(s: string)
    requires IsUserName(s) && s[LeadingLetters(s)] == ' '
    ensures var k := LeadingLetters(s);
      SplitUserName(Some(s)) == NameParts(Some(s[..k]), Some(s[k + 1..]))
    ensures NameOk(SplitUserName(Some(s)).first) && NameOk(SplitUserName(Some(s)).last)
  {
    var k := LeadingLetters(s);
    assert s == s[..k] + [' '] + s[k + 1..];
    var first, last := s[..k], s[k + 1..];
    assert ' ' !in first by {
      forall i | 0 <= i < |first| ensures first[i] != ' ' { assert IsLetter(first[i]); }
    }
    assert ' ' !in last by {
      forall i | 0 <= i < |last| ensures last[i] != ' ' { assert IsLetter(last[i]); }
    }
    UserNameRoundTrip(first, last);
  }

  /** `\s` admits a tab between the names, but the setter splits on " "
      only: the name passes validation and then leaves `lastName` unset, so
      `create` refuses it. */
  lemma TabbedUserNamePassesButCannotBeStored(id: UserId, d: Draft)
    requires d.userName == Some("Ab\tCd")
    ensures IsUserName("Ab\tCd")
    ensures SplitUserName(d.userName).last.None?
    ensures CreateUser(id, d).None?
  {
    LeadingLettersAt("Ab\tCd", 2);
  }

  /** `/^[A-Z][a-z]{2,19}$/`: a capital letter and 2 to 19 small letters. */
  predicate IsName(s: string) {
    3 <= |s| <= 20 && IsUpper(s[0]) && All(s[1..], IsLower)
  }

  /** The characters of `[!@#$%^&*]`. */
  predicate IsPasswordSymbol(c: char) {
    c == '!' || c == '@' || c == '#' || c == '$' || c == '%' || c == '^' || c == '&' || c == '*'
  }

  /** `/^(?=.*[a-z])(?=.*[A-Z])(?=.*\d)(?=.*[!@#$%^&*]).{8,16}$/`: 8 to 16
      characters other than line terminators, with a small letter, a capital,
      a digit and one of the eight symbols somewhere. */
  predicate IsPassword(s: string) {
    && 8 <= |s| <= 16
    && All(s, c => !IsLineTerminator(c))
    && Any(s, IsLower) && Any(s, IsUpper) && Any(s, IsDigit) && Any(s, IsPasswordSymbol)
  }

  /** `01[0125][0-9]{8}`: an Egyptian mobile number without country prefix. */
  predicate IsPhoneBody(s: string) {
    |s| == 11 && s[0] == '0' && s[1] == '1' && (s[2] == '0' || s[2] == '1' || s[2] == '2' || s[2] == '5')
    && All(s[3..], IsDigit)
  }

  /** The alternatives of `(002|\+20)?`. */
  const PhonePrefixes: seq<string> := ["", "002", "+20"]

  /** `/^(002|\+20)?01[0125][0-9]{8}$/`, decided by looking at the first three characters. */
  predicate IsPhone(s: string) {
    IsPhoneBody(s) || (|s| >= 3 && (s[..3] == "002" || s[..3] == "+20") && IsPhoneBody(s[3..]))
  }

  /** What the pattern means: one of the prefixes, then the number. */
  ghost predicate PhonePattern(s: string) {
    exists p :: p in PhonePrefixes && p <= s && IsPhoneBody(s[|p|..])
  }

  lemma PhoneMatchesPattern(s: string)
    ensures IsPhone(s) <==> PhonePattern(s)
    ensures IsPhone(s) ==> |s| == 11 || |s| == 14
  {
    if IsPhoneBody(s) {
      assert PhonePrefixes[0] == "" && s[0..] == s;
    } else if |s| >= 3 && s[..3] == "002" && IsPhoneBody(s[3..]) {
      assert PhonePrefixes[1] == "002";
    } else if |s| >= 3 && s[..3] == "+20" && IsPhoneBody(s[3..]) {
      assert PhonePrefixes[2] == "+20";
    }
    if PhonePattern(s) {
      var p :| p in PhonePrefixes && p <= s && IsPhoneBody(s[|p|..]);
      if p == "" { assert s[0..] == s; } else { assert s[..3] == p; }
    }
  }

  /** `/^\d{6}$/`. */
  predicate IsOtp(s: string) {
    |s| == 6 && All(s, IsDigit)
  }

  /** `isValidObjectId` on a string: 24 hexadecimal digits. */
  predicate IsObjectId(s: string) {
    |s| == 24 && All(s, IsHexDigit)
  }

  /** The `genderEnum` values. */
  const GenderNames: seq<string> := [GenderName(Male), GenderName(Female)]

  /** `[\w\s@.]`. */
  predicate IsSearchChar(c: char) {
    IsWordChar(c) || IsSpace(c) || c == '@' || c == '.'
  }

  /** The search text after `trim()`: `/^[\w\s@.]+$/` with 1 to 50 characters. */
  predicate IsSearchText(s: string) {
    var t := Trim(s);
    1 <= |t| <= 50 && All(t, IsSearchChar)
  }

  /** A character of the local part of an address (`atext` of RFC 5322, section 3.2.3). */
  predicate IsAtext(c: char) {
    IsLetter(c) || IsDigit(c) || c in "!#$%&'*+-/=?^_`{|}~"
  }

  /** A dot-atom: non-empty runs of `atext` separated by single dots. */
  predicate IsDotAtom(s: string) {
    var pieces := Split(s, '.');
    forall k :: 0 <= k < |pieces| ==> pieces[k] != "" && All(pieces[k], IsAtext)
  }

  /** A host name label: 1 to 63 letters, digits or hyphens, no hyphen at either end. */
  predicate IsLabel(s: string) {
    1 <= |s| <= 63 && All(s, c => IsLetter(c) || IsDigit(c) || c == '-') && s[0] != '-' && s[|s| - 1] != '-'
  }

  /** At least two labels, the last one a top-level domain of two or more
      letters. joi checks the top-level domain against the IANA list instead,
      and also allows Unicode; this rule stands in for that list. */
  predicate IsDomain(s: string) {
    var labels := Split(s, '.');
    && |s| <= 255
    && |labels| >= 2
    && (forall k :: 0 <= k < |labels| ==> IsLabel(labels[k]))
    && 2 <= |labels[|labels| - 1]| && All(labels[|labels| - 1], IsLetter)
  }

  /** `joi.string().email()`: a local part, one `@`, a domain of two or more labels. */
  predicate IsEmail(s: string) {
    var parts := Split(s, '@');
    |s| <= 254 && |parts| == 2 && |parts[0]| <= 64 && IsDotAtom(parts[0]) && IsDomain(parts[1])
  }

  /** An accepted address is a non-empty local part, exactly one `@`, and a
      domain containing a dot. */
  lemma EmailHasOneAt(s: string)
    requires IsEmail(s)
    ensures exists local, domain :: s == local + "@" + domain && local != "" && '@' !in local && '@' !in domain && '.' in domain
  {
    var parts := Split(s, '@');
    JoinSplit(s, '@');
    var local, domain := parts[0], parts[1];
    assert Split("", '.') == [""];
    assert s == local + "@" + domain && local != "" && '@' !in local && '@' !in domain && '.' in domain;
  }
}

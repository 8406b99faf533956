/** The field checks shared by the sign-up and sign-in forms
    (app/auth/signup.tsx, app/auth/login.tsx): the unanchored e-mail pattern
    `\S+@\S+\.\S+`, and the required and minimum-length checks, all of which
    test the trimmed text for emptiness but the raw text otherwise. */
module FormValidation {
  import opened Wrappers
  import opened Text

  /** No white space anywhere in `s`. */
  predicate Solid(s: string) {
    forall i :: 0 <= i < |s| ==> !IsWhitespace(s[i])
  }

  /** `t` has the form x@y.z with x, y and z non-empty runs of non-white-space
      characters (`@` and `.` among them). */
  predicate EmailShape(t: string) {
    Solid(t) && exists i, j :: 0 < i && i + 1 < j && j + 1 < |t| && t[i] == '@' && t[j] == '.'
  }

  /** Some substring of `s` has the e-mail shape: what the regular expression's
      `test` decides. */
  ghost predicate HasEmailShape(s: string) {
    exists a, b {:trigger EmailShape(s[a..b])} :: 0 <= a <= b <= |s| && EmailShape(s[a..b])
  }

  /** The test as computed: an `@` with a non-white-space character before it,
      then a non-empty run of non-white-space characters, then a `.` followed by
      a non-white-space character. */
  predicate LooseEmail(s: string) {
    exists i, j | 0 < i && i + 1 < j && j + 1 < |s| :: MatchAt(s, i, j)
  }

  predicate MatchAt(s: string, i: int, j: int)
    requires 0 < i && i + 1 < j && j + 1 < |s|
  {
    && s[i] == '@' && s[j] == '.'
    && !IsWhitespace(s[i - 1]) && Solid(s[i + 1..j]) && !IsWhitespace(s[j + 1])
  }

  lemma LooseEmailMeansShape(s: string)
    ensures LooseEmail(s) <==> HasEmailShape(s)
  {
    if LooseEmail(s) {
      LooseImpliesShape(s);
    }
    if HasEmailShape(s) {
      var a, b :| 0 <= a <= b <= |s| && EmailShape(s[a..b]);
      ShapeIsMatch(s, a, b);
    }
  }

  lemma LooseImpliesShape(s: string)
    requires LooseEmail(s)
    ensures HasEmailShape(s)
  {
    var i, j :| 0 < i && i + 1 < j && j + 1 < |s| && MatchAt(s, i, j);
    MatchIsShape(s, i, j);
  }

  lemma MatchIsShape(s: string, i: int, j: int)
    requires 0 < i && i + 1 < j && j + 1 < |s| && s[i] == '@' && s[j] == '.'
    requires !IsWhitespace(s[i - 1]) && Solid(s[i + 1..j]) && !IsWhitespace(s[j + 1])
    ensures EmailShape(s[i - 1..j + 2])
  {
    var t := s[i - 1..j + 2];
    var mid := s[i + 1..j];
    forall k | 0 <= k < |t| ensures !IsWhitespace(t[k]) {
      assert t[k] == s[i - 1 + k];
      if 2 <= k < j - i + 1 {
        assert t[k] == mid[k - 2];
      }
    }
    assert t[1] == '@' && t[j - i + 1] == '.';
  }

  lemma ShapeIsMatch(s: string, a: int, b: int)
    requires 0 <= a <= b <= |s| && EmailShape(s[a..b])
    ensures LooseEmail(s)
  {
    var t := s[a..b];
    var i, j :| 0 < i && i + 1 < j && j + 1 < |t| && t[i] == '@' && t[j] == '.';
    assert s[a + i] == t[i] && s[a + j] == t[j];
    assert s[a + i - 1] == t[i - 1] && s[a + j + 1] == t[j + 1];
    var mid := s[a + i + 1..a + j];
    forall k | 0 <= k < |mid| ensures !IsWhitespace(mid[k]) {
      assert mid[k] == t[i + 1 + k];
    }
    assert Solid(mid);
    assert MatchAt(s, a + i, a + j);
  }

  /** The pattern looks for a substring, so repeated `@` signs pass. */
  lemma DoubleAtPasses()
    ensures LooseEmail("a@@b.c")
  {
    var s := "a@@b.c";
    assert Solid(s[3..4]);
    assert MatchAt(s, 2, 4);
  }

  /** A text with the shape somewhere is not blank. */
  lemma ShapeIsNotBlank(s: string)
    requires HasEmailShape(s)
    ensures !Blank(s)
  {
    var a, b :| 0 <= a <= b <= |s| && EmailShape(s[a..b]);
    assert s[a..b][0] == s[a];
  }

  datatype EmailError = EmailRequired | EmailInvalid
  datatype PasswordError = PasswordRequired | PasswordTooShort

  /** The e-mail check: required when the trimmed text is empty, otherwise the
      raw text must contain the e-mail shape. */
  function CheckEmail(email: string): (e: Option<EmailError>)
    ensures e == Some(EmailRequired) <==> Blank(email)
    ensures e == Some(EmailInvalid) <==> !Blank(email) && !HasEmailShape(email)
  {
    LooseEmailMeansShape(email);
    if Trim(email) == "" then Some(EmailRequired)
    else if !LooseEmail(email) then Some(EmailInvalid)
    else None
  }

  /** The password check: required when the trimmed text is empty, otherwise
      the raw text needs a `length` of at least six UTF-16 code units. */
  function CheckPassword(password: string): (e: Option<PasswordError>)
    ensures e == Some(PasswordRequired) <==> Blank(password)
    ensures e == Some(PasswordTooShort) <==> !Blank(password) && Utf16Length(password) < 6
  {
    if Trim(password) == "" then Some(PasswordRequired)
    else if Utf16Length(password) < 6 then Some(PasswordTooShort)
    else None
  }

  /** Six spaces are "required", not "too short"; and leading spaces count
      toward the length. */
  lemma PasswordChecksDiffer()
    ensures CheckPassword("      ") == Some(PasswordRequired)
    ensures CheckPassword("  abcd") == None
  {
    var blank := "      ";
    assert Blank(blank) by {
      forall i | 0 <= i < |blank| ensures IsWhitespace(blank[i]) {
      }
    }
    assert !IsWhitespace("  abcd"[2]);
    assert !Blank("  abcd");
  }

  /** Three emoji pass the length check: `length` counts six code units. */
  lemma SurrogatePasswordAccepted()
    ensures CheckPassword("\U{1F600}\U{1F600}\U{1F600}") == None
  {
    SurrogatePairsCountTwice();
    assert !IsWhitespace("\U{1F600}\U{1F600}\U{1F600}"[0]);
  }
}

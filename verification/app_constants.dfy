/** The configuration of constants/app.ts that has behaviour: the validation
    rules with the anchored e-mail pattern `^[^\s@]+@[^\s@]+\.[^\s@]+$`, the
    language and locale tables, and the meal colours. */
module AppConstants {
  import opened Text
  import I18n
  import ApiTypes
  import Api
  import FormValidation
  import Signup

  const PasswordMinLength := 6
  const NameMinLength := 2

  /** `SUPPORTED_LANGUAGES`: each code with its own name for itself. */
  const SupportedLanguages: map<string, string> := map[
    "en" := "English", "fr" := "Français", "es" := "Español",
    "de" := "Deutsch", "it" := "Italiano", "pt" := "Português"]

  /** `LOCALE_MAP` */
  const LocaleMap: map<string, string> := map[
    "en" := "en-US", "fr" := "fr-FR", "es" := "es-ES",
    "de" := "de-DE", "it" := "it-IT", "pt" := "pt-BR"]

  /** `MEAL_COLORS`, keyed by the lower-case meal type. */
  const MealColors: map<string, string> := map[
    "breakfast" := "#F59E0B", "lunch" := "#EF4444", "dinner" := "#8B5CF6", "snack" := "#06B6D4"]

  /** `COLORS.GRAY[500]` */
  const Gray500 := "#6B7280"

  /** The two language tables list the same codes, and those are exactly the
      languages the translation service accepts. */
  lemma LanguageTablesAgree()
    ensures SupportedLanguages.Keys == LocaleMap.Keys
    ensures forall lang :: lang in LocaleMap <==> I18n.IsValidLanguage(lang)
  {
    forall lang ensures lang in LocaleMap <==> I18n.IsValidLanguage(lang) {
      I18n.ValidLanguagesAreTheSix(lang);
    }
  }

  /** `getLocaleForLanguage`: the table's locale, `en-US` for any other text. */
  function LocaleForLanguage(language: string): (locale: string)
    ensures language in LocaleMap ==> locale == LocaleMap[language]
    ensures language !in LocaleMap ==> locale == "en-US"
  {
    if language in LocaleMap then LocaleMap[language] else "en-US"
  }

  /** Every language the translation service accepts has its own locale, whose
      first two letters are the language code; anything else is `en-US`. */
  lemma LocaleOfLanguage(language: string)
    ensures I18n.IsValidLanguage(language) ==>
      |LocaleForLanguage(language)| == 5 && LocaleForLanguage(language)[..2] == language
    ensures !I18n.IsValidLanguage(language) ==> LocaleForLanguage(language) == "en-US"
  {
    LanguageTablesAgree();
  }

  /** `getMealColor`: the colour for a lower-case meal type, grey otherwise. */
  function MealColor(mealType: string): (color: string)
    ensures mealType in MealColors ==> color == MealColors[mealType]
    ensures mealType !in MealColors ==> color == Gray500
  {
    if mealType in MealColors then MealColors[mealType] else Gray500
  }

  /** The API names its meal types in upper case, so every one of them gets
      the grey default and never its own colour. */
  lemma ApiMealTypesAreGray(t: ApiTypes.MealType)
    ensures MealColor(Api.MealTypeName(t)) == Gray500
  {
    var name := Api.MealTypeName(t);
    assert name !in MealColors by {
      assert 'A' <= name[0] <= 'Z';
      forall k | k in MealColors ensures k != name {
        assert 'a' <= k[0] <= 'z';
      }
    }
  }

  /** A character of `[^\s@]`. */
  predicate Plain(c: char) {
    !IsWhitespace(c) && c != '@'
  }

  predicate PlainRun(s: string) {
    forall k :: 0 <= k < |s| ==> Plain(s[k])
  }

  /** `s` splits at `i` and `j` into the three non-empty runs of the pattern:
      `s[..i]`, `@`, `s[i + 1..j]`, `.`, `s[j + 1..]`. */
  predicate RunsAt(s: string, i: int, j: int)
    requires 0 < i && i + 1 < j && j + 1 < |s|
  {
    s[i] == '@' && s[j] == '.' && PlainRun(s[..i]) && PlainRun(s[i + 1..j]) && PlainRun(s[j + 1..])
  }

  /** The anchored pattern as written: the whole text is the three runs. */
  ghost predicate MatchesEmailPattern(s: string) {
    exists i, j | 0 < i && i + 1 < j && j + 1 < |s| :: RunsAt(s, i, j)
  }

  /** A `.` in `t` that is neither its first nor its last character. */
  predicate DotInside(t: string) {
    exists k | 0 < k < |t| - 1 :: t[k] == '.'
  }

  /** `isValidEmail`: the pattern's test, deciding at the `@` (the first run
      cannot contain one) whether a `.` splits the rest into two runs. */
  function IsValidEmail(email: string): (valid: bool)
    ensures valid <==> MatchesEmailPattern(email)
  {
    var valid := exists i | 0 < i < |email| && email[i] == '@' ::
      PlainRun(email[..i]) && PlainRun(email[i + 1..]) && DotInside(email[i + 1..]);
    assert valid ==> MatchesEmailPattern(email) by {
      if valid {
        var i :| 0 < i < |email| && email[i] == '@' &&
          PlainRun(email[..i]) && PlainRun(email[i + 1..]) && DotInside(email[i + 1..]);
        RestSplits(email, i);
      }
    }
    assert MatchesEmailPattern(email) ==> valid by {
      if MatchesEmailPattern(email) {
        var i, j :| 0 < i && i + 1 < j && j + 1 < |email| && RunsAt(email, i, j);
        RunsJoin(email, i, j);
      }
    }
    valid
  }

  /** The part after the `@`, when it has a `.` inside, splits into two runs. */
  lemma RestSplits(s: string, i: int)
    requires 0 < i < |s| && s[i] == '@'
    requires PlainRun(s[..i]) && PlainRun(s[i + 1..]) && DotInside(s[i + 1..])
    ensures MatchesEmailPattern(s)
  {
    var rest := s[i + 1..];
    var k :| 0 < k < |rest| - 1 && rest[k] == '.';
    var j := i + 1 + k;
    assert s[j] == '.';
    assert s[i + 1..j] == rest[..k];
    assert s[j + 1..] == rest[k + 1..];
    assert RunsAt(s, i, j);
  }

  /** Two runs joined by a `.` form a run with a `.` inside. */
  lemma RunsJoin(s: string, i: int, j: int)
    requires 0 < i && i + 1 < j && j + 1 < |s| && RunsAt(s, i, j)
    ensures PlainRun(s[i + 1..]) && DotInside(s[i + 1..])
  {
    var rest := s[i + 1..];
    forall k | 0 <= k < |rest| ensures Plain(rest[k]) {
      if k < j - i - 1 {
        assert rest[k] == s[i + 1..j][k];
      } else if k > j - i - 1 {
        assert rest[k] == s[j + 1..][k - (j - i)];
      }
    }
    assert rest[j - i - 1] == '.';
  }

  /** A run of the pattern holds no `@`. */
  lemma {:induction false} PlainRunHasNoAt(t: string)
    requires PlainRun(t)
    ensures multiset(t)['@'] == 0
  {
    if t != [] {
      assert t == [t[0]] + t[1..];
      PlainRunHasNoAt(t[1..]);
    }
  }

  /** A text free of white space and of `@`, as a multiset count. */
  lemma {:induction false} NoAtIsPlain(t: string)
    requires FormValidation.Solid(t) && multiset(t)['@'] == 0
    ensures PlainRun(t)
  {
    forall k | 0 <= k < |t| ensures Plain(t[k]) {
      assert t[k] in multiset(t);
    }
  }

  /** The pattern in words: no white space, exactly one `@` with something
      before it, and a `.` after it that neither starts nor ends what follows
      the `@`. */
  lemma ValidEmailCharacterised(s: string)
    ensures IsValidEmail(s) <==>
      && FormValidation.Solid(s)
      && multiset(s)['@'] == 1
      && exists i | 0 < i < |s| && s[i] == '@' :: DotInside(s[i + 1..])
  {
    if IsValidEmail(s) {
      var i :| 0 < i < |s| && s[i] == '@' && PlainRun(s[..i]) && PlainRun(s[i + 1..]) && DotInside(s[i + 1..]);
      RunsAroundAt(s, i);
    }
    if FormValidation.Solid(s) && multiset(s)['@'] == 1 && exists i | 0 < i < |s| && s[i] == '@' :: DotInside(s[i + 1..]) {
      var i :| 0 < i < |s| && s[i] == '@' && DotInside(s[i + 1..]);
      OneAtSplits(s, i);
    }
  }

  /** Around an `@`, two runs make a text with no white space and one `@`. */
  lemma RunsAroundAt(s: string, i: int)
    requires 0 < i < |s| && s[i] == '@' && PlainRun(s[..i]) && PlainRun(s[i + 1..])
    ensures FormValidation.Solid(s) && multiset(s)['@'] == 1
  {
    PlainRunHasNoAt(s[..i]);
    PlainRunHasNoAt(s[i + 1..]);
    assert s == s[..i] + [s[i]] + s[i + 1..];
    assert multiset(s) == multiset(s[..i]) + multiset{'@'} + multiset(s[i + 1..]);
    forall k | 0 <= k < |s| ensures !IsWhitespace(s[k]) {
      if k < i {
        assert s[k] == s[..i][k];
      } else if k > i {
        assert s[k] == s[i + 1..][k - i - 1];
      }
    }
  }

  /** A text with no white space and only one `@` is a run on each side of it. */
  lemma OneAtSplits(s: string, i: int)
    requires 0 < i < |s| && s[i] == '@' && FormValidation.Solid(s) && multiset(s)['@'] == 1
    ensures PlainRun(s[..i]) && PlainRun(s[i + 1..])
  {
    assert s == s[..i] + [s[i]] + s[i + 1..];
    assert multiset(s) == multiset(s[..i]) + multiset{'@'} + multiset(s[i + 1..]);
    SolidSlice(s, 0, i);
    SolidSlice(s, i + 1, |s|);
    NoAtIsPlain(s[..i]);
    NoAtIsPlain(s[i + 1..]);
  }

  lemma SolidSlice(s: string, a: int, b: int)
    requires FormValidation.Solid(s) && 0 <= a <= b <= |s|
    ensures FormValidation.Solid(s[a..b])
  {
    forall k | 0 <= k < b - a ensures !IsWhitespace(s[a..b][k]) {
      assert s[a..b][k] == s[a + k];
    }
  }

  /** Every address the anchored pattern accepts also passes the sign-in and
      sign-up forms' unanchored check. */
  lemma ValidEmailIsLoose(s: string)
    requires IsValidEmail(s)
    ensures FormValidation.LooseEmail(s)
  {
    var i, j :| 0 < i && i + 1 < j && j + 1 < |s| && RunsAt(s, i, j);
    assert s[i - 1] == s[..i][i - 1];
    assert s[j + 1] == s[j + 1..][0];
    var mid := s[i + 1..j];
    forall k | 0 <= k < |mid| ensures !IsWhitespace(mid[k]) {
    }
    assert FormValidation.MatchAt(s, i, j);
  }

  /** The forms accept `a@@b.c`; the pattern here does not. */
  lemma DoubleAtOnlyLoose()
    ensures FormValidation.LooseEmail("a@@b.c")
    ensures !IsValidEmail("a@@b.c")
  {
    FormValidation.DoubleAtPasses();
    var s := "a@@b.c";
    forall i | 0 < i < |s| && s[i] == '@' ensures !PlainRun(s[..i]) || !PlainRun(s[i + 1..]) {
      if i == 1 {
        assert s[i + 1..][0] == '@';
      } else {
        assert s[..i][1] == '@';
      }
    }
  }

  /** `isValidPassword`: the length is in UTF-16 code units. */
  function IsValidPassword(password: string): (valid: bool)
    ensures valid <==> Utf16Length(password) >= PasswordMinLength
    ensures |password| >= PasswordMinLength ==> valid
  {
    Utf16Length(password) >= PasswordMinLength
  }

  /** `isValidName`: counts white space too, and the length is in UTF-16 code
      units. */
  function IsValidName(name: string): (valid: bool)
    ensures valid <==> Utf16Length(name) >= NameMinLength
    ensures |name| >= NameMinLength ==> valid
  {
    Utf16Length(name) >= NameMinLength
  }

  /** Three emoji make a valid password and one makes a valid name, since each
      is a surrogate pair of two code units. */
  lemma SurrogatePairsMeetLengths()
    ensures IsValidPassword("\U{1F600}\U{1F600}\U{1F600}")
    ensures IsValidName("\U{1F600}")
  {
    SurrogatePairsCountTwice();
  }

  /** For a password that is not blank, the forms' check and this rule agree. */
  lemma PasswordRuleMatchesForms(password: string)
    requires !Blank(password)
    ensures FormValidation.CheckPassword(password).None? <==> IsValidPassword(password)
  {
  }

  /** The sign-up form only asks for a name that is not blank: it accepts
      one letter, which this rule rejects, and rejects two spaces, which this
      rule accepts. */
  lemma NameRuleDiffersFromSignup()
    ensures Signup.ValidateSignup("a", "", "", "").name.None? && !IsValidName("a")
    ensures Signup.ValidateSignup("  ", "", "", "").name.Some? && IsValidName("  ")
  {
    assert !Blank("a") by {
      assert !IsWhitespace("a"[0]);
    }
    assert Blank("  ") by {
      forall k | 0 <= k < 2 ensures IsWhitespace("  "[k]) {
      }
    }
  }
}

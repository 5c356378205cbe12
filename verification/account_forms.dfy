/** The login and registration forms. `sanitize` (HTML tag stripping) is a
    parameter: every cleaner runs its input through it first. */
module AccountForms {
  import opened Wrappers

  type Sanitizer = string -> string

  const NoCharacters := "Invalid username, no characters allowed."
  const PasswordsDiffer := "The passwords do not match"
  const UsernameTaken := "Username is taken."

  /** The characters of the class `[a-zA-Z\d]`, read as ASCII. */
  predicate IsAsciiAlnum(c: char)
  {
    'a' <= c <= 'z' || 'A' <= c <= 'Z' || '0' <= c <= '9'
  }

  /** Where `$` matches: at the end of the string, or just before a newline
      that ends it. */
  predicate DollarAt(s: string, j: int)
  {
    j == |s| || (j == |s| - 1 && 0 <= j && s[j] == '\n')
  }

  /** `re.search(r"([a-zA-Z\d])+$", s)` finds a match: a non-empty run of
      letters and digits somewhere in `s` ends where `$` matches. */
  predicate RegexFinds(s: string)
  {
    exists i, j :: 0 <= i < j <= |s| && DollarAt(s, j) && AlnumRun(s, i, j)
  }

  /** `s[i..j]` is made of letters and digits. */
  predicate AlnumRun(s: string, i: int, j: int)
    requires 0 <= i <= j <= |s|
  {
    forall k :: i <= k < j ==> IsAsciiAlnum(s[k])
  }

  /** `LoginForm.clean_username`: the sanitised username is accepted exactly
      when the pattern finds a match, and is what the field keeps. */
  function CleanLoginUsername(sanitize: Sanitizer, username: string): (r: Result<string, string>)
    ensures r.Success? <==> RegexFinds(sanitize(username))
    ensures r.Success? ==> r.value == sanitize(username)
    ensures r.Failure? ==> r.error == NoCharacters
  {
    var s := sanitize(username);
    var found := (|s| >= 1 && IsAsciiAlnum(s[|s| - 1]))
              || (|s| >= 2 && s[|s| - 1] == '\n' && IsAsciiAlnum(s[|s| - 2]));
    RegexSearchIsLastCharacter(s);
    if !found then Failure(NoCharacters) else Success(s)
  }

  /** The pattern finds a match exactly when the last character, or the one
      before a final newline, is a letter or a digit. */
  lemma RegexSearchIsLastCharacter(s: string)
    ensures RegexFinds(s) <==>
      (|s| >= 1 && IsAsciiAlnum(s[|s| - 1])) || (|s| >= 2 && s[|s| - 1] == '\n' && IsAsciiAlnum(s[|s| - 2]))
  {
    if |s| >= 1 && IsAsciiAlnum(s[|s| - 1]) {
      assert DollarAt(s, |s|) && AlnumRun(s, |s| - 1, |s|);
    } else if |s| >= 2 && s[|s| - 1] == '\n' && IsAsciiAlnum(s[|s| - 2]) {
      assert DollarAt(s, |s| - 1) && AlnumRun(s, |s| - 2, |s| - 1);
    }
    if RegexFinds(s) {
      var i, j :| 0 <= i < j <= |s| && DollarAt(s, j) && AlnumRun(s, i, j);
      assert IsAsciiAlnum(s[j - 1]);
    }
  }

  /** Only the end of the username matters: "a b!c" passes although it holds
      a space and a "!". */
  lemma InnerPunctuationAccepted(sanitize: Sanitizer)
    requires sanitize("a b!c") == "a b!c"
    ensures CleanLoginUsername(sanitize, "a b!c").Success?
  {
    var s := "a b!c";
    assert s[|s| - 1] == 'c';
    RegexSearchIsLastCharacter(s);
  }

  /** A username ending in punctuation is rejected, whatever precedes it. */
  lemma TrailingPunctuationRejected(sanitize: Sanitizer, username: string)
    requires |sanitize(username)| >= 1 && sanitize(username)[|sanitize(username)| - 1] == '!'
    ensures CleanLoginUsername(sanitize, username).Failure?
  {
    RegexSearchIsLastCharacter(sanitize(username));
  }

  /** A username that sanitises to the empty string is rejected. */
  lemma EmptyUsernameRejected(sanitize: Sanitizer, username: string)
    requires sanitize(username) == ""
    ensures CleanLoginUsername(sanitize, username) == Failure(NoCharacters)
  {
    RegexSearchIsLastCharacter("");
  }

  /** Python truthiness of an optional cleaned value: present and non-empty. */
  predicate Truthy(v: Option<string>)
  {
    v.Some? && v.value != ""
  }

  /** `RegisterForm.clean`: the mismatch error is raised only when both
      passwords are present, non-empty and different. */
  function CleanRegister(password: Option<string>, confirmPassword: Option<string>): (r: Result<(), string>)
    ensures r.Failure? <==> password.Some? && confirmPassword.Some? && password.value != ""
                            && confirmPassword.value != "" && password.value != confirmPassword.value
    ensures r.Failure? ==> r.error == PasswordsDiffer
  {
    if Truthy(password) && Truthy(confirmPassword) && password.value != confirmPassword.value then
      Failure(PasswordsDiffer)
    else Success(())
  }

  /** `RegisterForm.clean_username`: the sanitised username is rejected exactly
      when an account already uses it, and is what the field keeps otherwise. */
  function CleanRegisterUsername(sanitize: Sanitizer, taken: set<string>, username: string): (r: Result<string, string>)
    ensures r.Failure? <==> sanitize(username) in taken
    ensures r.Success? ==> r.value == sanitize(username) && r.value !in taken
    ensures r.Failure? ==> r.error == UsernameTaken
  {
    var s := sanitize(username);
    if s in taken then Failure(UsernameTaken) else Success(s)
  }

  /** The password, first name, last name, email and password-confirmation
      cleaners: the sanitised input, never an error. */
  function CleanSanitized(sanitize: Sanitizer, input: string): (r: Result<string, string>)
    ensures r.Success? && r.value == sanitize(input)
  {
    Success(sanitize(input))
  }
}

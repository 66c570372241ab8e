/**
 * The input checks of the account endpoints (src/server.js): the email
 * pattern `/^[^\s@]+@[^\s@]+\.[^\s@]+$/` applied to the lowercased email, and
 * the password length rules of signup and change-password.
 */
module ServerAuth {
  import opened Wrappers
  import opened JsText
  import opened JsValues

  /** A character `[^\s@]` accepts. */
  predicate Plain(c: char) {
    !IsWhitespace(c) && c != '@'
  }

  /**
   * `s` splits as `local@domain.tld` at the '@' index `at` and the '.' index
   * `dot`, with all three parts non-empty and every other character plain.
   */
  predicate EmailSplit(s: string, at: nat, dot: nat) {
    && 0 < at && at + 1 < dot && dot + 1 < |s|
    && s[at] == '@' && s[dot] == '.'
    && forall k :: 0 <= k < |s| && k != at ==> Plain(s[k])
  }

  /** What the regular expression matches: some split of the whole string into its three runs. */
  ghost predicate MatchesEmailPattern(s: string) {
    exists at: nat, dot: nat :: EmailSplit(s, at, dot)
  }

  /** The index of the first '@', or |s| when there is none. */
  function IndexOfAt(s: string): (r: nat)
    ensures r <= |s|
    ensures forall k :: 0 <= k < r ==> s[k] != '@'
    ensures r < |s| ==> s[r] == '@'
  {
    if s == [] then 0
    else if s[0] == '@' then 0
    else 1 + IndexOfAt(s[1..])
  }

  /**
   * The email check as a decision: no whitespace, exactly one '@' with
   * something before it, and a '.' in the domain that is neither its first
   * nor its last character.
   */
  function IsValidEmail(s: string): bool {
    var at := IndexOfAt(s);
    && (forall k :: 0 <= k < |s| ==> !IsWhitespace(s[k]))
    && at < |s|
    && (forall k :: at < k < |s| ==> s[k] != '@')
    && 0 < at
    && exists k :: at + 1 < k < |s| - 1 && s[k] == '.'
  }

  /** The decision accepts exactly the strings the regular expression matches. */
  lemma EmailCheckIsPattern(s: string)
    ensures IsValidEmail(s) <==> MatchesEmailPattern(s)
  {
    var at := IndexOfAt(s);
    if IsValidEmail(s) {
      var dot :| at + 1 < dot < |s| - 1 && s[dot] == '.';
      assert EmailSplit(s, at, dot);
    }
    if MatchesEmailPattern(s) {
      var a: nat, dot: nat :| EmailSplit(s, a, dot);
      assert !(at < a) by {
        assert at < |s| ==> s[at] == '@';
      }
      assert forall k :: at < k < |s| ==> s[k] != '@' by {
        forall k | at < k < |s| ensures s[k] != '@' { assert Plain(s[k]); }
      }
      assert forall k :: 0 <= k < |s| ==> !IsWhitespace(s[k]) by {
        forall k | 0 <= k < |s| ensures !IsWhitespace(s[k]) {
          if k != a { assert Plain(s[k]); }
        }
      }
    }
  }

  /** Lowercasing changes no whitespace, '@' or '.', so it never changes whether an email is accepted. */
  lemma EmailCheckIgnoresCase(s: string)
    ensures IsValidEmail(Lower(s)) == IsValidEmail(s)
  {
    var t := Lower(s);
    forall k | 0 <= k < |s|
      ensures SameMarks(s[k], t[k])
    {
      assert t[k] == LowerChar(s[k]);
      LowerCharMarks(s[k]);
    }
    SameMarksSameVerdict(s, t);
  }

  /** Lowercasing one character keeps whitespace, '@' and '.' as they are. */
  lemma LowerCharMarks(c: char)
    ensures SameMarks(c, LowerChar(c))
  {
    if 'A' <= c <= 'Z' {
      assert !IsWhitespace(c) && !IsWhitespace(LowerChar(c));
    }
  }

  /** Two characters that are alike as far as the email check can tell. */
  predicate SameMarks(c: char, d: char) {
    (c == '@' <==> d == '@') && (c == '.' <==> d == '.') && (IsWhitespace(c) <==> IsWhitespace(d))
  }

  /** The check looks only at whitespace, '@' and '.'. */
  lemma SameMarksSameVerdict(s: string, t: string)
    requires |s| == |t| && forall k :: 0 <= k < |s| ==> SameMarks(s[k], t[k])
    ensures IsValidEmail(t) == IsValidEmail(s)
  {
    var a, b := IndexOfAt(s), IndexOfAt(t);
    if a < b {
      assert false;
    } else if b < a {
      assert false;
    }
  }

  /** The shortest password signup and change-password accept. */
  const MinPasswordLength: nat := 6

  /** The 400 answers of the three endpoints, one per message. */
  datatype InputError =
    | EmailAndPasswordRequired      // "Email and password are required"
    | InvalidEmail                  // "Invalid email"
    | PasswordTooShort              // "Password must be at least 6 characters"
    | BothPasswordsRequired         // "Both current and new password are required"
    | NewPasswordTooShort           // "New password must be at least 6 characters"
    | PasswordAndNewEmailRequired   // "Both current password and new email are required"

  /** Lines 94-97 of `POST /api/auth/signup`; on success the lowercased email the account is looked up and stored under. */
  function ValidateSignup(email: Option<string>, password: Option<string>): (r: Result<string, InputError>)
    ensures r == Failure(EmailAndPasswordRequired) <==> !Truthy(email) || !Truthy(password)
    ensures r == Failure(InvalidEmail) <==>
      (Truthy(email) && Truthy(password) && !MatchesEmailPattern(Lower(email.value)))
    ensures r == Failure(PasswordTooShort) <==>
      (Truthy(email) && Truthy(password) && MatchesEmailPattern(Lower(email.value)) && |password.value| < MinPasswordLength)
    ensures r.Success? <==>
      (Truthy(email) && Truthy(password) && MatchesEmailPattern(Lower(email.value)) && |password.value| >= MinPasswordLength)
    ensures r.Success? ==> r.value == Lower(email.value)
  {
    if !Truthy(email) || !Truthy(password) then Failure(EmailAndPasswordRequired)
    else
      var emailNorm := Lower(email.value);
      EmailCheckIsPattern(emailNorm);
      if !IsValidEmail(emailNorm) then Failure(InvalidEmail)
      else if |password.value| < 6 then Failure(PasswordTooShort)
      else Success(emailNorm)
  }

  /** Lines 180-181 of `POST /api/auth/change-password`: both passwords present, the new one at least 6 long. */
  function ValidatePasswordChange(currentPassword: Option<string>, newPassword: Option<string>): (r: Result<string, InputError>)
    ensures r == Failure(BothPasswordsRequired) <==> !Truthy(currentPassword) || !Truthy(newPassword)
    ensures r == Failure(NewPasswordTooShort) <==>
      (Truthy(currentPassword) && Truthy(newPassword) && |newPassword.value| < MinPasswordLength)
    ensures r.Success? <==>
      (Truthy(currentPassword) && Truthy(newPassword) && |newPassword.value| >= MinPasswordLength)
    ensures r.Success? ==> r.value == newPassword.value
  {
    if !Truthy(currentPassword) || !Truthy(newPassword) then Failure(BothPasswordsRequired)
    else if |newPassword.value| < 6 then Failure(NewPasswordTooShort)
    else Success(newPassword.value)
  }

  /** Lines 200-202 of `POST /api/auth/change-email`; on success the lowercased new email. */
  function ValidateEmailChange(currentPassword: Option<string>, newEmail: Option<string>): (r: Result<string, InputError>)
    ensures r == Failure(PasswordAndNewEmailRequired) <==> !Truthy(currentPassword) || !Truthy(newEmail)
    ensures r == Failure(InvalidEmail) <==>
      (Truthy(currentPassword) && Truthy(newEmail) && !MatchesEmailPattern(Lower(newEmail.value)))
    ensures r.Success? <==>
      (Truthy(currentPassword) && Truthy(newEmail) && MatchesEmailPattern(Lower(newEmail.value)))
    ensures r.Success? ==> r.value == Lower(newEmail.value)
  {
    if !Truthy(currentPassword) || !Truthy(newEmail) then Failure(PasswordAndNewEmailRequired)
    else
      var emailNorm := Lower(newEmail.value);
      EmailCheckIsPattern(emailNorm);
      if !IsValidEmail(emailNorm) then Failure(InvalidEmail)
      else Success(emailNorm)
  }
}

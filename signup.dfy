/**
 * The sign-up screen: the form checks run before any account is created, and
 * the mapping from account-creation errors to the message shown.
 */
module Signup {
  import opened Wrappers
  import opened TextUtil

  const EmailInUseError := -3
  const PasswordsDismatchError := -2
  const InvalidInformationError := -1
  const NetworkError := -4

  datatype Form = Form(firstName: string, lastName: string, email: string, password: string, confirmPassword: string)

  /** What `isFormValid` returns, with the value it leaves in `viewError`. */
  datatype Check = Check(valid: bool, viewError: int)

  // ---- the e-mail pattern ----------------------------------------------

  /** No character is white space or '@' (the class `[^\s@]`). */
  predicate NoSpaceOrAt(s: string)
  {
    forall k :: 0 <= k < |s| ==> !IsSpace(s[k]) && s[k] != '@'
  }

  /** `s` splits as `local '@' domain '.' tld` with `s[i] == '@'`, `s[j] == '.'` and three non-empty `[^\s@]+` parts. */
  predicate EmailSplit(s: string, i: int, j: int)
  {
    && 0 < i && i + 1 < j && j + 1 < |s|
    && s[i] == '@' && s[j] == '.'
    && NoSpaceOrAt(s[..i]) && NoSpaceOrAt(s[i + 1..j]) && NoSpaceOrAt(s[j + 1..])
  }

  /** `/^[^\s@]+@[^\s@]+\.[^\s@]+$/.test(s)`. */
  predicate EmailPattern(s: string)
    ensures EmailPattern(s) ==> 5 <= |s|
  {
    exists i, j :: 0 <= i < |s| && 0 <= j < |s| && EmailSplit(s, i, j)
  }

  /** The number of occurrences of `c` in `s`. */
  function Count(s: string, c: char): nat
  {
    if s == [] then 0 else (if s[0] == c then 1 else 0) + Count(s[1..], c)
  }

  lemma {:induction false} CountConcat(a: string, b: string, c: char)
    ensures Count(a + b, c) == Count(a, c) + Count(b, c)
  {
    if a == [] {
      assert a + b == b;
    } else {
      assert (a + b)[1..] == a[1..] + b;
      CountConcat(a[1..], b, c);
    }
  }

  lemma {:induction false} CountZero(s: string, c: char)
    ensures Count(s, c) == 0 <==> c !in s
  {
    if s != [] {
      CountZero(s[1..], c);
      assert s == [s[0]] + s[1..];
    }
  }

  /**
   * The pattern in plain terms: no white space, exactly one '@', not at the
   * start, and a '.' after it with at least one character on each side.
   */
  predicate EmailShape(s: string)
  {
    && (forall k :: 0 <= k < |s| ==> !IsSpace(s[k]))
    && Count(s, '@') == 1
    && exists i, j :: 0 <= i < |s| && 0 <= j < |s| && DotAfterAt(s, i, j)
  }

  predicate DotAfterAt(s: string, i: int, j: int)
  {
    0 < i && i + 1 < j && j + 1 < |s| && s[i] == '@' && s[j] == '.'
  }

  /** The regular expression and the plain description accept the same strings. */
  lemma EmailPatternShape(s: string)
    ensures EmailPattern(s) <==> EmailShape(s)
  {
    if EmailPattern(s) {
      PatternHasShape(s);
    }
    if EmailShape(s) {
      ShapeMatchesPattern(s);
    }
  }

  lemma PatternHasShape(s: string)
    requires EmailPattern(s)
    ensures EmailShape(s)
  {
    var i, j :| 0 <= i < |s| && 0 <= j < |s| && EmailSplit(s, i, j);
    var a, b, c := s[..i], s[i + 1..j], s[j + 1..];
    assert s == a + ['@'] + (b + ['.'] + c);
    CountZero(a, '@');
    CountZero(b, '@');
    CountZero(c, '@');
    CountConcat(a + ['@'], b + ['.'] + c, '@');
    CountConcat(a, ['@'], '@');
    CountConcat(b + ['.'], c, '@');
    CountConcat(b, ['.'], '@');
    forall k | 0 <= k < |s| ensures !IsSpace(s[k]) {
      if k < i {
        assert s[k] == a[k];
      } else if i < k < j {
        assert s[k] == b[k - i - 1];
      } else if j < k {
        assert s[k] == c[k - j - 1];
      }
    }
    assert DotAfterAt(s, i, j);
  }

  lemma ShapeMatchesPattern(s: string)
    requires EmailShape(s)
    ensures EmailPattern(s)
  {
    var i, j :| 0 <= i < |s| && 0 <= j < |s| && DotAfterAt(s, i, j);
    var a, rest := s[..i], s[i + 1..];
    assert s == a + ['@'] + rest;
    CountConcat(a + ['@'], rest, '@');
    CountConcat(a, ['@'], '@');
    CountZero(a, '@');
    CountZero(rest, '@');
    assert NoSpaceOrAt(a) by {
      forall k | 0 <= k < |a| ensures !IsSpace(a[k]) && a[k] != '@' {
        assert a[k] == s[k];
      }
    }
    assert NoSpaceOrAt(rest) by {
      forall k | 0 <= k < |rest| ensures !IsSpace(rest[k]) && rest[k] != '@' {
        assert rest[k] == s[i + 1 + k];
      }
    }
    SuffixSlices(s, i + 1, j);
    SuffixSlices(s, i + 1, j + 1);
    assert EmailSplit(s, i, j);
  }

  /** Slices of `s[k..]` are the matching slices of `s`. */
  lemma SuffixSlices(s: string, k: nat, j: nat)
    requires k <= j <= |s|
    ensures s[k..j] == s[k..][..j - k]
    ensures s[j..] == s[k..][j - k..]
  {
  }

  // ---- the form checks --------------------------------------------------

  /**
   * `isFormValid`: blank names or e-mail, an e-mail off the pattern and a
   * password under 8 UTF-16 code units give -1, in that order; a confirmation that
   * differs gives -2 only once those pass; otherwise the form is valid and the
   * error is reset to 0.
   */
  function IsFormValid(f: Form): (r: Check)
    ensures r.valid <==> r.viewError == 0
    ensures IsBlank(f.firstName) || IsBlank(f.lastName) || IsBlank(f.email) ==> r == Check(false, InvalidInformationError)
    ensures !EmailPattern(f.email) ==> r == Check(false, InvalidInformationError)
    ensures Utf16Length(f.password) < 8 ==> r == Check(false, InvalidInformationError)
    ensures r.viewError == PasswordsDismatchError <==>
      && !IsBlank(f.firstName) && !IsBlank(f.lastName) && !IsBlank(f.email)
      && EmailPattern(f.email) && Utf16Length(f.password) >= 8 && f.password != f.confirmPassword
    ensures r.valid <==>
      && !IsBlank(f.firstName) && !IsBlank(f.lastName) && !IsBlank(f.email)
      && EmailPattern(f.email) && Utf16Length(f.password) >= 8 && f.password == f.confirmPassword
  {
    if Trim(f.firstName) == "" || Trim(f.lastName) == "" || Trim(f.email) == "" then
      Check(false, InvalidInformationError)
    else if !EmailPattern(f.email) then
      Check(false, InvalidInformationError)
    else if Utf16Length(f.password) < 8 then
      Check(false, InvalidInformationError)
    else if f.password != f.confirmPassword then
      Check(false, PasswordsDismatchError)
    else
      Check(true, 0)
  }

  // ---- account creation ---------------------------------------------------

  /** The error code the screen shows for a failed account creation or profile write. */
  function ErrorCodeFor(code: string): (r: int)
    ensures r == EmailInUseError <==> code == "auth/email-already-in-use"
    ensures r == NetworkError <==> code == "auth/network-request-failed"
    ensures r == InvalidInformationError <==> code != "auth/email-already-in-use" && code != "auth/network-request-failed"
  {
    if code == "auth/email-already-in-use" then EmailInUseError
    else if code == "auth/network-request-failed" then NetworkError
    else InvalidInformationError
  }

  /** The four error codes are told apart, and none is the "no error" value 0. */
  lemma ErrorCodesDistinct()
    ensures |{0, EmailInUseError, PasswordsDismatchError, InvalidInformationError, NetworkError}| == 5
  {
  }

  /** The answer of the authentication service to a create-account call. */
  datatype AuthOutcome = UserCreated(uid: string) | AuthFailed(code: string)

  /** The answer of the database to the profile write. */
  datatype WriteOutcome = Stored | WriteFailed(code: string)

  /** The profile document written for a new account. */
  datatype NewUser = NewUser(
    firstName: string, lastName: string, email: string, apartmentId: Option<string>,
    role: string, status: string, uid: string)

  /** Where `handleSignUp` ends: the error shown, the document stored, whether it navigated on. */
  datatype SignUpEnd = SignUpEnd(viewError: int, stored: Option<NewUser>, navigated: bool)

  /**
   * `handleSignUp`: an invalid form stops before any call; otherwise the account
   * is created, then the profile written with role "tenant"; the first failure
   * is mapped to an error code.
   */
  function HandleSignUp(f: Form, auth: AuthOutcome, write: WriteOutcome): (r: SignUpEnd)
    ensures !IsFormValid(f).valid ==> r == SignUpEnd(IsFormValid(f).viewError, None, false)
    ensures r.navigated <==> IsFormValid(f).valid && auth.UserCreated? && write.Stored?
    ensures r.navigated ==>
      && r.viewError == 0
      && r.stored == Some(NewUser(f.firstName, f.lastName, f.email, None, "tenant", "active", auth.uid))
    ensures !r.navigated ==> r.stored == None && r.viewError != 0
    ensures IsFormValid(f).valid && auth.AuthFailed? ==> r.viewError == ErrorCodeFor(auth.code)
    ensures IsFormValid(f).valid && auth.UserCreated? && write.WriteFailed? ==> r.viewError == ErrorCodeFor(write.code)
  {
    var check := IsFormValid(f);
    if !check.valid then SignUpEnd(check.viewError, None, false)
    else match auth
      case AuthFailed(code) => SignUpEnd(ErrorCodeFor(code), None, false)
      case UserCreated(uid) =>
        var user := NewUser(f.firstName, f.lastName, f.email, None, "tenant", "active", uid);
        match write
        case WriteFailed(code) => SignUpEnd(ErrorCodeFor(code), None, false)
        case Stored => SignUpEnd(0, Some(user), true)
  }
}

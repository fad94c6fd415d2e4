/**
 * The form schemas: each string field is trimmed and then bounded in length,
 * the password is bounded untrimmed, and the duration is bounded in value.
 * A schema accepts an object exactly when every field is accepted, and
 * otherwise reports one message per rejected field, in field order.
 */
module Validation {
  import opened Wrappers

  /** ECMAScript white space and line terminators, the characters `String.prototype.trim` removes. */
  predicate IsWhitespace(c: char)
    ensures IsWhitespace(c) ==> !('!' <= c <= '~')
  {
    var n := c as int;
    n == 0x09 || n == 0x0A || n == 0x0B || n == 0x0C || n == 0x0D || n == 0x20 ||
    n == 0xA0 || n == 0x1680 || (0x2000 <= n <= 0x200A) || n == 0x2028 || n == 0x2029 ||
    n == 0x202F || n == 0x205F || n == 0x3000 || n == 0xFEFF
  }

  predicate AllWhitespace(s: string) {
    forall k :: 0 <= k < |s| ==> IsWhitespace(s[k])
  }

  /** Every character of `s` from index `i` up to `j` is white space. */
  predicate SpaceBetween(s: string, i: int, j: int)
    requires 0 <= i && j <= |s|
  {
    forall k :: i <= k < j ==> IsWhitespace(s[k])
  }

  /** Neither starts nor ends with white space. */
  predicate Trimmed(s: string) {
    s == [] || (!IsWhitespace(s[0]) && !IsWhitespace(s[|s| - 1]))
  }

  /** The first index at or after `i` that does not hold white space (or the end): where the front cut falls. */
  function FrontCut(s: string, i: nat): (n: nat)
    requires i <= |s|
    ensures i <= n <= |s|
    ensures SpaceBetween(s, i, n)
    ensures n == |s| || !IsWhitespace(s[n])
    decreases |s| - i
  {
    if i < |s| && IsWhitespace(s[i]) then FrontCut(s, i + 1) else i
  }

  /** The cut that white space alone separates from `j`, going down no further than `lo`: where the back cut falls. */
  function BackCut(s: string, lo: nat, j: nat): (n: nat)
    requires lo <= j <= |s|
    ensures lo <= n <= j
    ensures SpaceBetween(s, n, j)
    ensures n == lo || !IsWhitespace(s[n - 1])
    decreases j
  {
    if j > lo && IsWhitespace(s[j - 1]) then BackCut(s, lo, j - 1) else j
  }

  /** The three properties of `FrontCut` determine it. */
  lemma {:induction false} FrontCutUnique(s: string, i: nat, n: nat)
    requires i <= n <= |s|
    requires SpaceBetween(s, i, n)
    requires n == |s| || !IsWhitespace(s[n])
    ensures FrontCut(s, i) == n
    decreases n - i
  {
    if i < n {
      FrontCutUnique(s, i + 1, n);
    }
  }

  /** The three properties of `BackCut` determine it. */
  lemma {:induction false} BackCutUnique(s: string, lo: nat, j: nat, n: nat)
    requires lo <= n <= j <= |s|
    requires SpaceBetween(s, n, j)
    requires n == lo || !IsWhitespace(s[n - 1])
    ensures BackCut(s, lo, j) == n
    decreases j - n
  {
    if n < j {
      BackCutUnique(s, lo, j - 1, n);
    }
  }

  /**
   * `String.prototype.trim`: the slice of `s` left once white space is removed
   * from both ends, which itself neither starts nor ends with white space.
   */
  function Trim(s: string): (r: string)
    ensures Trimmed(r)
    ensures exists i, j :: 0 <= i <= j <= |s| && r == s[i..j] && SpaceBetween(s, 0, i) && SpaceBetween(s, j, |s|)
  {
    var i := FrontCut(s, 0);
    var j := BackCut(s, i, |s|);
    assert i < j ==> s[i..j][0] == s[i] && s[i..j][j - i - 1] == s[j - 1];
    s[i..j]
  }

  /**
   * The contract of `Trim` determines it: a slice with only white space
   * around it that neither starts nor ends with white space is the trim.
   */
  lemma TrimUnique(s: string, i: nat, j: nat)
    requires i <= j <= |s|
    requires SpaceBetween(s, 0, i) && SpaceBetween(s, j, |s|)
    requires Trimmed(s[i..j])
    ensures Trim(s) == s[i..j]
  {
    if i == j {
      FrontCutUnique(s, 0, |s|);
      BackCutUnique(s, |s|, |s|, |s|);
    } else {
      assert s[i] == s[i..j][0] && s[j - 1] == s[i..j][j - i - 1];
      FrontCutUnique(s, 0, i);
      BackCutUnique(s, i, |s|, j);
    }
  }

  /** A string that neither starts nor ends with white space is its own trim. */
  lemma TrimOfTrimmed(s: string)
    requires Trimmed(s)
    ensures Trim(s) == s
  {
    assert s[0..|s|] == s;
    TrimUnique(s, 0, |s|);
  }

  /** Trimming twice is trimming once. */
  lemma TrimIdempotent(s: string)
    ensures Trim(Trim(s)) == Trim(s)
  {
    TrimOfTrimmed(Trim(s));
  }

  /** A white-space-only string trims to nothing. */
  lemma TrimOfBlank(s: string)
    requires AllWhitespace(s)
    ensures Trim(s) == []
  {
    TrimUnique(s, 0, 0);
  }

  /** The reasons a field is rejected. */
  datatype Issue =
    | TitleRequired | TitleTooLong
    | DescriptionRequired | DescriptionTooLong
    | DurationTooShort | DurationTooLong
    | DisplayNameRequired | DisplayNameTooLong
    | EmailTooLong
    | PasswordTooShort | PasswordTooLong
    | NameRequired | NameTooLong

  /** The message the schemas attach to each issue. */
  function Message(issue: Issue): (m: string)
    ensures m != ""
  {
    match issue
    case TitleRequired => "Title is required"
    case TitleTooLong => "Title must be less than 200 characters"
    case DescriptionRequired => "Description is required"
    case DescriptionTooLong => "Description must be less than 2000 characters"
    case DurationTooShort => "Duration must be at least 1 minute"
    case DurationTooLong => "Duration must be less than 180 minutes"
    case DisplayNameRequired => "Display name is required"
    case DisplayNameTooLong => "Display name must be less than 50 characters"
    case EmailTooLong => "Email must be less than 255 characters"
    case PasswordTooShort => "Password must be at least 8 characters"
    case PasswordTooLong => "Password must be less than 72 characters"
    case NameRequired => "Name is required"
    case NameTooLong => "Name must be less than 100 characters"
  }

  /** One issue per rejected field. */
  function IssuesOf<T>(r: Result<T, Issue>): seq<Issue> {
    if r.Failure? then [r.error] else []
  }

  /** The checks of a trimmed text field: at least `min` and at most `max` characters after trimming. */
  function ParseText(input: string, min: nat, max: nat, tooShort: Issue, tooLong: Issue): (r: Result<string, Issue>)
    ensures r.Success? <==> min <= |Trim(input)| <= max
    ensures r.Success? ==> r.value == Trim(input) && Trimmed(r.value)
    ensures r.Failure? ==> r.error == if |Trim(input)| < min then tooShort else tooLong
  {
    var t := Trim(input);
    if |t| < min then Failure(tooShort)
    else if |t| > max then Failure(tooLong)
    else Success(t)
  }

  /** A text field reads the same trimmed or not, so an accepted value is accepted again, unchanged. */
  lemma ReparseText(input: string, min: nat, max: nat, tooShort: Issue, tooLong: Issue)
    ensures ParseText(Trim(input), min, max, tooShort, tooLong) == ParseText(input, min, max, tooShort, tooLong)
  {
    TrimIdempotent(input);
  }

  // sessionSchema

  function ParseTitle(title: string): (r: Result<string, Issue>)
    ensures r.Success? <==> 1 <= |Trim(title)| <= 200
    ensures r.Success? ==> r.value == Trim(title)
    ensures r.Failure? ==> r.error == if Trim(title) == [] then TitleRequired else TitleTooLong
  {
    ParseText(title, 1, 200, TitleRequired, TitleTooLong)
  }

  function ParseDescription(description: string): (r: Result<string, Issue>)
    ensures r.Success? <==> 1 <= |Trim(description)| <= 2000
    ensures r.Success? ==> r.value == Trim(description)
    ensures r.Failure? ==> r.error == if Trim(description) == [] then DescriptionRequired else DescriptionTooLong
  {
    ParseText(description, 1, 2000, DescriptionRequired, DescriptionTooLong)
  }

  /** Minutes, 1 to 180 inclusive (180 itself passes, whatever the message says). */
  function ParseDuration(duration: int): (r: Result<int, Issue>)
    ensures r.Success? <==> 1 <= duration <= 180
    ensures r.Success? ==> r.value == duration
    ensures r.Failure? ==> r.error == if duration < 1 then DurationTooShort else DurationTooLong
  {
    if duration < 1 then Failure(DurationTooShort)
    else if duration > 180 then Failure(DurationTooLong)
    else Success(duration)
  }

  datatype SessionFields = SessionFields(title: string, description: string, duration: int)

  /** The session form: accepted exactly when every field is, otherwise one issue per rejected field. */
  function ParseSession(input: SessionFields): (r: Result<SessionFields, seq<Issue>>)
    ensures r.Success? <==>
      ParseTitle(input.title).Success? && ParseDescription(input.description).Success? && ParseDuration(input.duration).Success?
    ensures r.Success? ==> r.value == SessionFields(Trim(input.title), Trim(input.description), input.duration)
    ensures r.Failure? ==>
      && r.error == IssuesOf(ParseTitle(input.title)) + IssuesOf(ParseDescription(input.description))
                    + IssuesOf(ParseDuration(input.duration))
      && 1 <= |r.error| <= 3
  {
    var title := ParseTitle(input.title);
    var description := ParseDescription(input.description);
    var duration := ParseDuration(input.duration);
    if title.Success? && description.Success? && duration.Success? then
      Success(SessionFields(title.value, description.value, duration.value))
    else
      Failure(IssuesOf(title) + IssuesOf(description) + IssuesOf(duration))
  }

  /** Parsing what the session schema accepted accepts it again, unchanged. */
  lemma ReparseSession(input: SessionFields)
    requires ParseSession(input).Success?
    ensures ParseSession(ParseSession(input).value) == ParseSession(input)
  {
    var accepted := SessionFields(Trim(input.title), Trim(input.description), input.duration);
    assert ParseTitle(accepted.title) == ParseTitle(input.title) by {
      ReparseText(input.title, 1, 200, TitleRequired, TitleTooLong);
    }
    assert ParseDescription(accepted.description) == ParseDescription(input.description) by {
      ReparseText(input.description, 1, 2000, DescriptionRequired, DescriptionTooLong);
    }
  }

  // profileSchema

  function ParseDisplayName(displayName: string): (r: Result<string, Issue>)
    ensures r.Success? <==> 1 <= |Trim(displayName)| <= 50
    ensures r.Success? ==> r.value == Trim(displayName)
    ensures r.Failure? ==> r.error == if Trim(displayName) == [] then DisplayNameRequired else DisplayNameTooLong
  {
    ParseText(displayName, 1, 50, DisplayNameRequired, DisplayNameTooLong)
  }

  /** Parsing an accepted display name accepts it again, unchanged. */
  lemma ReparseDisplayName(displayName: string)
    requires ParseDisplayName(displayName).Success?
    ensures ParseDisplayName(ParseDisplayName(displayName).value) == ParseDisplayName(displayName)
  {
    ReparseText(displayName, 1, 50, DisplayNameRequired, DisplayNameTooLong);
  }

  // authSchema

  /** The e-mail is trimmed and at most 255 characters long (its format check is not modelled). */
  function ParseEmail(email: string): (r: Result<string, Issue>)
    ensures r.Success? <==> |Trim(email)| <= 255
    ensures r.Success? ==> r.value == Trim(email)
    ensures r.Failure? ==> r.error == EmailTooLong
  {
    ParseText(email, 0, 255, EmailTooLong, EmailTooLong)
  }

  /** The password is not trimmed: 8 to 72 characters as typed. */
  function ParsePassword(password: string): (r: Result<string, Issue>)
    ensures r.Success? <==> 8 <= |password| <= 72
    ensures r.Success? ==> r.value == password
    ensures r.Failure? ==> r.error == if |password| < 8 then PasswordTooShort else PasswordTooLong
  {
    if |password| < 8 then Failure(PasswordTooShort)
    else if |password| > 72 then Failure(PasswordTooLong)
    else Success(password)
  }

  /** The name may be left out; when given, it is trimmed and 1 to 100 characters long. */
  function ParseName(name: Option<string>): (r: Result<Option<string>, Issue>)
    ensures name.None? ==> r == Success(None)
    ensures name.Some? ==> (r.Success? <==> 1 <= |Trim(name.value)| <= 100)
    ensures name.Some? && r.Success? ==> r.value == Some(Trim(name.value))
    ensures name.Some? && r.Failure? ==> r.error == if Trim(name.value) == [] then NameRequired else NameTooLong
  {
    match name
    case None => Success(None)
    case Some(n) =>
      match ParseText(n, 1, 100, NameRequired, NameTooLong)
      case Success(t) => Success(Some(t))
      case Failure(e) => Failure(e)
  }

  datatype AuthFields = AuthFields(email: string, password: string, name: Option<string>)

  /** The sign-in/sign-up form: accepted exactly when every field is, otherwise one issue per rejected field. */
  function ParseAuth(input: AuthFields): (r: Result<AuthFields, seq<Issue>>)
    ensures r.Success? <==>
      ParseEmail(input.email).Success? && ParsePassword(input.password).Success? && ParseName(input.name).Success?
    ensures r.Success? ==> r.value == AuthFields(Trim(input.email), input.password,
                                                 if input.name.Some? then Some(Trim(input.name.value)) else None)
    ensures r.Failure? ==>
      && r.error == IssuesOf(ParseEmail(input.email)) + IssuesOf(ParsePassword(input.password))
                    + IssuesOf(ParseName(input.name))
      && 1 <= |r.error| <= 3
  {
    var email := ParseEmail(input.email);
    var password := ParsePassword(input.password);
    var name := ParseName(input.name);
    if email.Success? && password.Success? && name.Success? then
      Success(AuthFields(email.value, password.value, name.value))
    else
      Failure(IssuesOf(email) + IssuesOf(password) + IssuesOf(name))
  }

  /** A form whose every field parses to itself is accepted unchanged. */
  lemma AuthFixedPoint(f: AuthFields)
    requires ParseEmail(f.email) == Success(f.email)
    requires ParsePassword(f.password) == Success(f.password)
    requires ParseName(f.name) == Success(f.name)
    ensures ParseAuth(f) == Success(f)
  {
  }

  /** Parsing what the auth schema accepted accepts it again, unchanged. */
  lemma ReparseAuth(input: AuthFields)
    requires ParseAuth(input).Success?
    ensures ParseAuth(ParseAuth(input).value) == ParseAuth(input)
  {
    var accepted := ParseAuth(input).value;
    assert ParseEmail(accepted.email) == Success(accepted.email) by {
      ReparseText(input.email, 0, 255, EmailTooLong, EmailTooLong);
    }
    assert ParseName(accepted.name) == Success(accepted.name) by {
      if input.name.Some? {
        ReparseText(input.name.value, 1, 100, NameRequired, NameTooLong);
      }
    }
    AuthFixedPoint(accepted);
  }

  /** Boundary cases of the bounds. */
  lemma BoundaryExamples()
    ensures ParseDuration(180).Success? && ParseDuration(181) == Failure(DurationTooLong)
    ensures ParseDuration(1).Success? && ParseDuration(0) == Failure(DurationTooShort)
    ensures ParsePassword(" 1234567") == Success(" 1234567")
    ensures ParsePassword("1234567") == Failure(PasswordTooShort)
  {
  }

  /** White space alone is no title, and the message says the title is required. */
  lemma BlankTitleExample()
    ensures ParseTitle(" \t\n ") == Failure(TitleRequired)
    ensures Message(ParseTitle(" \t\n ").error) == "Title is required"
  {
    assert Trim(" \t\n ") == [] by {
      TrimOfBlank(" \t\n ");
    }
  }

  /** Trimming removes exactly the white space padded around a trimmed string. */
  lemma TrimPadded(w1: string, t: string, w2: string)
    requires AllWhitespace(w1) && AllWhitespace(w2) && Trimmed(t)
    ensures Trim(w1 + t + w2) == t
  {
    var s := w1 + t + w2;
    var i, j := |w1|, |w1| + |t|;
    assert s[i..j] == t;
    assert SpaceBetween(s, 0, i) by {
      forall k | 0 <= k < i ensures IsWhitespace(s[k]) {
        assert s[k] == w1[k];
      }
    }
    assert SpaceBetween(s, j, |s|) by {
      forall k | j <= k < |s| ensures IsWhitespace(s[k]) {
        assert s[k] == w2[k - j];
      }
    }
    TrimUnique(s, i, j);
  }

  /** Surrounding white space is dropped from an accepted title. */
  lemma PaddedTitleExample()
    ensures ParseTitle("  Calm  ") == Success("Calm")
  {
    assert "  Calm  " == "  " + "Calm" + "  ";
    TrimPadded("  ", "Calm", "  ");
  }
}

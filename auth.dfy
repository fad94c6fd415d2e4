/**
 * The mock sign-in: one storage key holding the signed-in user, set by
 * `login`/`signup` and removed by `logout`. Any non-empty credentials are accepted.
 */
module Auth {
  import opened Wrappers

  datatype User = User(id: string, email: string, name: string)

  datatype AuthState = AuthState(user: Option<User>, isAuthenticated: bool)

  /**
   * The `wellness_auth` key: absent, present but not parseable, or a record
   * whose `user` may be null.
   */
  datatype AuthSlot = NoAuth | Unreadable | AuthRecord(user: Option<User>)

  const CredentialsRequired: string := "Email and password are required"
  const AllFieldsRequired: string := "All fields are required"

  /** `email.split('@')[0]`: the text before the first '@', or all of it when there is none. */
  function EmailPrefix(email: string): (r: string)
    ensures r <= email
    ensures '@' !in r
    ensures |r| == |email| || email[|r|] == '@'
  {
    if email == [] || email[0] == '@' then []
    else
      var rest := EmailPrefix(email[1..]);
      assert email == [email[0]] + email[1..];
      [email[0]] + rest
  }

  /** The three properties above pin the prefix down: any string with them is `EmailPrefix(email)`. */
  lemma {:induction false} EmailPrefixUnique(email: string, p: string)
    requires p <= email && '@' !in p && (|p| == |email| || email[|p|] == '@')
    ensures p == EmailPrefix(email)
  {
    if email != [] && email[0] != '@' {
      assert p != [];
      assert p[0] == email[0];
      assert p[1..] <= email[1..];
      assert |p[1..]| == |email[1..]| || email[1..][|p[1..]|] == '@';
      EmailPrefixUnique(email[1..], p[1..]);
      assert p == [p[0]] + p[1..];
    }
  }

  /** Concrete names derived from e-mail addresses. */
  lemma EmailPrefixExamples()
    ensures EmailPrefix("jane@example.com") == "jane"
    ensures EmailPrefix("no-at-sign") == "no-at-sign"
    ensures EmailPrefix("@host") == ""
  {
    EmailPrefixUnique("jane@example.com", "jane");
    EmailPrefixUnique("no-at-sign", "no-at-sign");
    EmailPrefixUnique("@host", "");
  }

  /** What the stored value reports: signed in exactly when it holds a user. */
  function StateOf(slot: AuthSlot): (s: AuthState)
    ensures s.isAuthenticated <==> s.user.Some?
    ensures s.user.Some? <==> slot.AuthRecord? && slot.user.Some?
    ensures slot.AuthRecord? ==> s.user == slot.user
  {
    match slot
    case AuthRecord(user) => AuthState(user, user.Some?)
    case _ => AuthState(None, false)
  }

  class AuthStore {
    var slot: AuthSlot

    constructor (initial: AuthSlot)
      ensures slot == initial
    {
      slot := initial;
    }

    /** The signed-in user, if any; nothing stored or an unreadable value means signed out. */
    function GetAuthState(): (s: AuthState)
      reads this
      ensures s.isAuthenticated <==> s.user.Some?
      ensures !slot.AuthRecord? ==> s == AuthState(None, false)
      ensures slot.AuthRecord? ==> s.user == slot.user
    {
      StateOf(slot)
    }

    /**
     * Signs in with any non-empty e-mail and password, as a new user named after
     * the e-mail's prefix; with either one empty, fails and stores nothing.
     */
    method Login(email: string, password: string, freshId: string) returns (r: Result<User, string>)
      modifies this
      ensures email == "" || password == "" ==> r == Failure(CredentialsRequired) && slot == old(slot)
      ensures email != "" && password != "" ==>
        && r == Success(User(freshId, email, EmailPrefix(email)))
        && slot == AuthRecord(Some(r.value))
        && GetAuthState() == AuthState(Some(r.value), true)
    {
      if email == "" || password == "" {
        return Failure(CredentialsRequired);
      }
      var user := User(freshId, email, EmailPrefix(email));
      slot := AuthRecord(Some(user));
      r := Success(user);
    }

    /**
     * Registers and signs in a user with exactly the given e-mail and name;
     * with any field empty, fails and stores nothing.
     */
    method Signup(email: string, password: string, name: string, freshId: string) returns (r: Result<User, string>)
      modifies this
      ensures email == "" || password == "" || name == "" ==> r == Failure(AllFieldsRequired) && slot == old(slot)
      ensures email != "" && password != "" && name != "" ==>
        && r == Success(User(freshId, email, name))
        && slot == AuthRecord(Some(r.value))
        && GetAuthState() == AuthState(Some(r.value), true)
    {
      if email == "" || password == "" || name == "" {
        return Failure(AllFieldsRequired);
      }
      var user := User(freshId, email, name);
      slot := AuthRecord(Some(user));
      r := Success(user);
    }

    /** Removes the key, so the state reads as signed out. */
    method Logout()
      modifies this
      ensures slot == NoAuth
      ensures GetAuthState() == AuthState(None, false)
    {
      slot := NoAuth;
    }
  }
}

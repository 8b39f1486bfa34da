/**
 * The NextAuth callbacks: `jwt` carries an admin flag from the signed-in
 * user onto the long-lived token, `session` copies it from the token onto
 * the session each time the session is read, and `signIn` admits the user
 * by the `isAllowed` flag the profile hook computed.
 */
module Callbacks {
  import opened Wrappers
  import opened AdminMatch
  import opened AzureGate
  import opened Profiles

  /** The JWT: the admin flag and the other claims, opaque here. */
  class Token {
    var isAdmin: Option<bool>
    var claims: map<string, string>

    constructor (isAdmin: Option<bool>, claims: map<string, string>)
      ensures this.isAdmin == isAdmin && this.claims == claims
    {
      this.isAdmin := isAdmin;
      this.claims := claims;
    }
  }

  /** `session.user`, the part of the session the callback writes. */
  class SessionUser {
    var name: string
    var email: string
    var isAdmin: Option<bool>

    constructor (name: string, email: string)
      ensures this.name == name && this.email == email && this.isAdmin == None
    {
      this.name := name;
      this.email := email;
      this.isAdmin := None;
    }
  }

  class Session {
    var user: SessionUser
    var expires: string

    constructor (user: SessionUser, expires: string)
      ensures this.user == user && this.expires == expires
    {
      this.user := user;
      this.expires := expires;
    }
  }

  /** The user is present (first sign-in) and has a truthy `isAdmin`. */
  predicate UserIsAdmin(user: Option<User>) {
    user.Some? && Truthy(user.value.isAdmin)
  }

  /**
   * The token's admin flag after `jwt`: true once the user is an admin,
   * and otherwise what it was; a true flag is never cleared.
   */
  function JwtAdmin(current: Option<bool>, user: Option<User>): (r: Option<bool>)
    ensures Truthy(r) <==> Truthy(current) || UserIsAdmin(user)
    ensures !UserIsAdmin(user) ==> r == current
  {
    if UserIsAdmin(user) then user.value.isAdmin else current
  }

  /** Running `jwt` again with the same user changes nothing more. */
  lemma JwtIdempotent(current: Option<bool>, user: Option<User>)
    ensures JwtAdmin(JwtAdmin(current, user), user) == JwtAdmin(current, user)
  {
  }

  /** The flag after a run of `jwt` calls, one per user (or refresh) in order. */
  function JwtAll(current: Option<bool>, users: seq<Option<User>>): Option<bool>
    decreases |users|
  {
    if users == [] then current else JwtAll(JwtAdmin(current, users[0]), users[1..])
  }

  /**
   * Token refreshes (no user) and logins of a non-admin keep a flag set by
   * an earlier admin sign-in, whatever comes in between.
   */
  lemma {:induction false} JwtNeverClearsAdmin(current: Option<bool>, users: seq<Option<User>>)
    requires Truthy(current)
    ensures Truthy(JwtAll(current, users))
  {
    if users != [] {
      JwtNeverClearsAdmin(JwtAdmin(current, users[0]), users[1..]);
    }
  }

  /** `jwt({ token, user })`: updates the token in place and returns it. */
  method Jwt(token: Token, user: Option<User>) returns (r: Token)
    modifies token
    ensures r == token
    ensures token.isAdmin == JwtAdmin(old(token.isAdmin), user)
    ensures token.claims == old(token.claims)
  {
    if user.Some? && Truthy(user.value.isAdmin) {
      token.isAdmin := user.value.isAdmin;
    }
    r := token;
  }

  /**
   * `session({ session, token })`: the session's user gets the token's
   * flag; nothing else in the session and nothing in the token changes.
   */
  method SessionCallback(session: Session, token: Token) returns (r: Session)
    modifies session.user
    ensures r == session && session.user == old(session.user)
    ensures session.user.isAdmin == token.isAdmin
    ensures session.user.name == old(session.user.name) && session.user.email == old(session.user.email)
    ensures unchanged(token)
  {
    session.user.isAdmin := token.isAdmin;
    r := session;
  }

  /** `signIn({ user })`: the framework admits the user exactly when allowed. */
  function SignIn(user: User): (admit: bool)
    ensures admit <==> user.isAllowed
  {
    user.isAllowed
  }

  /** Every GitHub user who completed the OAuth exchange is admitted. */
  lemma GitHubAlwaysSignsIn(adminEmails: Option<seq<string>>, profile: GitHubProfile)
    ensures SignIn(GitHubProfileHook(adminEmails, profile))
  {
  }

  /**
   * An Azure AD user is admitted exactly when the allowed-principals
   * decision allows: always when the check is off, and, when it is on,
   * never after a failed or non-OK Graph call.
   */
  lemma AzureADSignIn(adminEmails: Option<seq<string>>, allowed: Option<seq<string>>,
                      profile: AzureADProfile, graph: GraphOutcome)
    ensures SignIn(AzureADUser(adminEmails, allowed, profile, graph)) <==> Allowed(allowed, profile.oid, graph)
    ensures !CheckEnabled(allowed) ==> SignIn(AzureADUser(adminEmails, allowed, profile, graph))
    ensures CheckEnabled(allowed) && !graph.Ok? ==> !SignIn(AzureADUser(adminEmails, allowed, profile, graph))
  {
  }
}

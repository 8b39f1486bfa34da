/**
 * The `profile` hooks of the two providers: each returns the provider's
 * profile spread into a user record enriched with `isAdmin` and
 * `isAllowed` (and, for Azure AD, `id` overridden by `sub`).
 */
module Profiles {
  import opened Wrappers
  import opened Text
  import opened AdminMatch
  import opened AzureGate

  /** The enriched profile that the framework hands to the callbacks as `user`. */
  datatype User = User(id: string, email: string, isAdmin: Option<bool>, isAllowed: bool)

  /** The fields of a GitHub profile the hook uses. */
  datatype GitHubProfile = GitHubProfile(id: string, email: string)

  /** The fields of an Azure AD (OpenID Connect) profile the hook uses. */
  datatype AzureADProfile = AzureADProfile(sub: string, oid: Option<string>, email: string, preferredUsername: string)

  /**
   * GitHub: every user is allowed, and is an admin by the e-mail rule
   * alone; the id and address come from the profile unchanged.
   */
  function GitHubProfileHook(adminEmails: Option<seq<string>>, profile: GitHubProfile): (user: User)
    ensures user.isAllowed
    ensures user.id == profile.id && user.email == profile.email
    ensures user.isAdmin.None? <==> adminEmails.None?
    ensures Truthy(user.isAdmin) <==> adminEmails.Some? && ToLower(profile.email) in adminEmails.value
  {
    User(profile.id, profile.email, IsListed(adminEmails, profile.email), true)
  }

  /**
   * Azure AD, as a value: `id` is the subject claim, `isAdmin` comes from
   * the admin list only and `isAllowed` from the allowed-principals
   * decision only.
   */
  function AzureADUser(adminEmails: Option<seq<string>>, allowedPrincipals: Option<seq<string>>,
                       profile: AzureADProfile, graph: GraphOutcome): (user: User)
    ensures user.id == profile.sub && user.email == profile.email
    ensures user.isAllowed <==> Allowed(allowedPrincipals, profile.oid, graph)
    ensures user.isAdmin.None? <==> adminEmails.None?
    ensures Truthy(user.isAdmin)
            <==> (adminEmails.Some?
                  && (ToLower(profile.email) in adminEmails.value || ToLower(profile.preferredUsername) in adminEmails.value))
  {
    User(profile.sub, profile.email,
         AzureADIsAdmin(adminEmails, profile.email, profile.preferredUsername),
         Allowed(allowedPrincipals, profile.oid, graph))
  }

  /**
   * The Azure AD hook as it runs: the access decision is made by the
   * imperative procedure, then the user record is assembled.
   */
  method AzureADProfileHook(adminEmails: Option<seq<string>>, allowedPrincipals: Option<seq<string>>,
                            profile: AzureADProfile, graph: GraphOutcome)
    returns (user: User, fetched: bool)
    ensures user == AzureADUser(adminEmails, allowedPrincipals, profile, graph)
    ensures fetched <==> CheckEnabled(allowedPrincipals)
  {
    var isAllowed;
    isAllowed, fetched := DecideAllowed(allowedPrincipals, profile.oid, graph);
    user := User(profile.sub, profile.email,
                 AzureADIsAdmin(adminEmails, profile.email, profile.preferredUsername),
                 isAllowed);
  }

  /**
   * The two flags are independent: `isAdmin` does not depend on the
   * allowed-principals list or on Graph, and `isAllowed` does not depend
   * on the admin list or on the user's addresses.
   */
  lemma AdminAndAllowOrthogonal(adminEmails: Option<seq<string>>, adminEmails': Option<seq<string>>,
                                allowed: Option<seq<string>>, allowed': Option<seq<string>>,
                                profile: AzureADProfile, graph: GraphOutcome, graph': GraphOutcome)
    ensures AzureADUser(adminEmails, allowed, profile, graph).isAdmin
            == AzureADUser(adminEmails, allowed', profile, graph').isAdmin
    ensures AzureADUser(adminEmails, allowed, profile, graph).isAllowed
            == AzureADUser(adminEmails', allowed, profile.(email := "", preferredUsername := ""), graph).isAllowed
  {
  }

  /** An admin by e-mail can still be denied access: a listed admin whose Graph call fails. */
  lemma ScenarioAdminDenied()
    ensures var user := AzureADUser(Some(["al@co"]), Some(["grp-123"]),
                                    AzureADProfile("s-1", Some("u-1"), "Al@Co", "al@co"), Threw);
            Truthy(user.isAdmin) && !user.isAllowed
  {
    LowerOfLiteral();
  }

  /** Al is listed as admin and there is no allowed-principals list: admin and allowed. */
  lemma ScenarioAdminAllowed(oid: Option<string>, graph: GraphOutcome)
    ensures var user := AzureADUser(Some(["al@co"]), None, AzureADProfile("s-1", oid, "al@co", "al"), graph);
            Truthy(user.isAdmin) && user.isAllowed
  {
    LowerOfLiteral();
  }

  lemma LowerOfLiteral()
    ensures ToLower("al@co") == "al@co"
  {
  }
}

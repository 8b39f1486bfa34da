/**
 * `configureIdentityProvider`: parses the two allow-lists once, then
 * registers GitHub when both of its credentials are set and Azure AD when
 * all three of its credentials are set, in that order.
 */
module Registry {
  import opened Wrappers
  import opened AllowList

  /** The environment variables the registry reads; None is unset. */
  datatype Env = Env(
    adminEmailAddress: Option<string>,
    azureAdAllowedPrincipals: Option<string>,
    authGitHubId: Option<string>,
    authGitHubSecret: Option<string>,
    azureAdClientId: Option<string>,
    azureAdClientSecret: Option<string>,
    azureAdTenantId: Option<string>)

  /**
   * A registered provider: its credentials and the parsed lists its
   * profile hook closes over.
   */
  datatype Provider =
    | GitHub(clientId: string, clientSecret: string, adminEmails: Option<seq<string>>)
    | AzureAD(clientId: string, clientSecret: string, tenantId: string,
              adminEmails: Option<seq<string>>, allowedPrincipals: Option<seq<string>>)

  /** JavaScript truthiness of an environment value: set and not empty. */
  predicate IsSet(v: Option<string>) {
    v.Some? && v.value != ""
  }

  predicate GitHubConfigured(env: Env) {
    IsSet(env.authGitHubId) && IsSet(env.authGitHubSecret)
  }

  predicate AzureADConfigured(env: Env) {
    IsSet(env.azureAdClientId) && IsSet(env.azureAdClientSecret) && IsSet(env.azureAdTenantId)
  }

  /**
   * Builds the provider list by pushing onto an initially empty one. Each
   * provider is present exactly when its credential set is complete,
   * GitHub before Azure AD, and both hooks see the same parsed lists.
   */
  method ConfigureIdentityProvider(env: Env) returns (providers: seq<Provider>)
    ensures |providers| == (if GitHubConfigured(env) then 1 else 0) + (if AzureADConfigured(env) then 1 else 0)
    ensures (exists k :: 0 <= k < |providers| && providers[k].GitHub?) <==> GitHubConfigured(env)
    ensures (exists k :: 0 <= k < |providers| && providers[k].AzureAD?) <==> AzureADConfigured(env)
    ensures GitHubConfigured(env) ==>
              providers[0] == GitHub(env.authGitHubId.value, env.authGitHubSecret.value, ParseList(env.adminEmailAddress))
    ensures AzureADConfigured(env) ==>
              providers[|providers| - 1]
              == AzureAD(env.azureAdClientId.value, env.azureAdClientSecret.value, env.azureAdTenantId.value,
                         ParseList(env.adminEmailAddress), ParseList(env.azureAdAllowedPrincipals))
  {
    providers := [];
    var adminEmails := ParseList(env.adminEmailAddress);
    var azureAdAllowedPrincipals := ParseList(env.azureAdAllowedPrincipals);
    if IsSet(env.authGitHubId) && IsSet(env.authGitHubSecret) {
      providers := providers + [GitHub(env.authGitHubId.value, env.authGitHubSecret.value, adminEmails)];
    }
    if IsSet(env.azureAdClientId) && IsSet(env.azureAdClientSecret) && IsSet(env.azureAdTenantId) {
      providers := providers + [AzureAD(env.azureAdClientId.value, env.azureAdClientSecret.value,
                                        env.azureAdTenantId.value, adminEmails, azureAdAllowedPrincipals)];
    }
    assert GitHubConfigured(env) ==> providers[0].GitHub?;
    assert AzureADConfigured(env) ==> providers[|providers| - 1].AzureAD?;
  }
}

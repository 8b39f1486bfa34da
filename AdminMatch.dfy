/**
 * The admin decision: `adminEmails?.includes(x.toLowerCase())`. With the
 * list unset the optional chain yields `undefined` (None here), which the
 * `jwt` callback treats like `false`; with a list it yields a boolean.
 */
module AdminMatch {
  import opened Wrappers
  import opened Text
  import opened AllowList

  /** JavaScript truthiness of the `isAdmin` value. */
  predicate Truthy(flag: Option<bool>) {
    flag == Some(true)
  }

  /**
   * `adminEmails?.includes(id.toLowerCase())`; on the e-mail address this
   * is the whole GitHub admin test.
   */
  function IsListed(adminEmails: Option<seq<string>>, id: string): (r: Option<bool>)
    ensures r.None? <==> adminEmails.None?
    ensures Truthy(r) <==> adminEmails.Some? && ToLower(id) in adminEmails.value
  {
    match adminEmails
    case None => None
    case Some(list) => Some(ToLower(id) in list)
  }

  /**
   * Azure AD: the e-mail address or the `preferred_username`, either one
   * lower-cased, must be in the list (`a?.includes(..) || a?.includes(..)`).
   */
  function AzureADIsAdmin(adminEmails: Option<seq<string>>, email: string, preferredUsername: string): (r: Option<bool>)
    ensures r.None? <==> adminEmails.None?
    ensures Truthy(r) <==> adminEmails.Some?
                           && (ToLower(email) in adminEmails.value || ToLower(preferredUsername) in adminEmails.value)
  {
    var byEmail := IsListed(adminEmails, email);
    if Truthy(byEmail) then byEmail else IsListed(adminEmails, preferredUsername)
  }

  /** The admin test is blind to letter case in the address. */
  lemma AdminIgnoresCase(adminEmails: Option<seq<string>>, e1: string, e2: string)
    requires ToLower(e1) == ToLower(e2)
    ensures IsListed(adminEmails, e1) == IsListed(adminEmails, e2)
  {
  }

  /**
   * The admin test against the raw ADMIN_EMAIL_ADDRESS value: a GitHub user
   * is an admin exactly when the variable is set and one of its non-blank
   * comma-separated fields, lower-cased and trimmed, equals the user's
   * lower-cased address. Case and surrounding whitespace in the
   * configuration do not matter.
   */
  lemma {:induction false} GitHubAdminFromEnv(env: Option<string>, email: string)
    ensures Truthy(IsListed(ParseList(env), email))
            <==> env.Some? && exists f :: f in Split(env.value, ',') && !AllWhitespace(f) && Normalize(f) == ToLower(email)
  {
    if env.Some? {
      ParseListMembership(env.value, ToLower(email));
    }
  }

  /** The same for Azure AD, where either identifier may match. */
  lemma {:induction false} AzureADAdminFromEnv(env: Option<string>, email: string, preferredUsername: string)
    ensures Truthy(AzureADIsAdmin(ParseList(env), email, preferredUsername))
            <==> env.Some?
                 && ((exists f :: f in Split(env.value, ',') && !AllWhitespace(f) && Normalize(f) == ToLower(email))
                     || (exists f :: f in Split(env.value, ',') && !AllWhitespace(f) && Normalize(f) == ToLower(preferredUsername)))
  {
    if env.Some? {
      ParseListMembership(env.value, ToLower(email));
      ParseListMembership(env.value, ToLower(preferredUsername));
    }
  }
}

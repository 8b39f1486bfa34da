/**
 * The Azure AD access decision. With a non-empty AZURE_AD_ALLOWED_PRINCIPALS
 * list, the profile hook posts to Microsoft Graph's `getMemberObjects`
 * (the transitive group and role ids of the signed-in user), appends the
 * user's own object id, and allows the user when some allowed principal is
 * among those ids. Anything else on that path denies.
 */
module AzureGate {
  import opened Wrappers

  /**
   * What the Graph call came to. `Ok` is a 2xx response whose JSON body had
   * the optional `value` array; `NotOk` a non-2xx status (the hook throws on
   * it); `Threw` a failure of `fetch`, of reading or of decoding the body.
   */
  datatype GraphOutcome = Ok(value: Option<seq<string>>) | NotOk(status: int) | Threw

  /** The check is switched on only by a set, non-empty allow-list. */
  predicate CheckEnabled(allowedPrincipals: Option<seq<string>>) {
    allowedPrincipals.Some? && |allowedPrincipals.value| > 0
  }

  /**
   * The ids the allow-list is matched against: the returned `value`
   * (`?? []`), then the profile's `oid` when it is truthy (present and
   * not the empty string).
   */
  function MemberIds(value: Option<seq<string>>, oid: Option<string>): (ids: seq<string>)
    ensures forall x :: x in value.GetOr([]) ==> x in ids
    ensures oid.Some? && oid.value != "" ==> oid.value in ids
    ensures forall x :: x in ids ==> x in value.GetOr([]) || (oid.Some? && x == oid.value)
  {
    value.GetOr([]) + if oid.Some? && oid.value != "" then [oid.value] else []
  }

  /**
   * The decision, stated as a set intersection: open when the check is
   * off; otherwise allowed exactly when Graph answered OK and the
   * allow-list meets the member ids.
   */
  predicate Allowed(allowedPrincipals: Option<seq<string>>, oid: Option<string>, graph: GraphOutcome) {
    !CheckEnabled(allowedPrincipals)
    || (graph.Ok? && exists p :: p in allowedPrincipals.value && p in MemberIds(graph.value, oid))
  }

  /**
   * The hook's own procedure: a local flag that starts true, is cleared
   * once the check is on, and is set again by the first allowed principal
   * the loop finds among the member ids (then `break`). A non-OK status
   * throws and a throw is caught, both leaving the flag cleared.
   * `fetched` tells whether the Graph call is made at all.
   */
  method DecideAllowed(allowedPrincipals: Option<seq<string>>, oid: Option<string>, graph: GraphOutcome)
    returns (isAllowed: bool, fetched: bool)
    ensures fetched <==> CheckEnabled(allowedPrincipals)
    ensures isAllowed <==> Allowed(allowedPrincipals, oid, graph)
  {
    isAllowed := true;
    fetched := false;
    if allowedPrincipals.Some? && |allowedPrincipals.value| > 0 {
      isAllowed := false;
      fetched := true;
      match graph
      case Ok(value) =>
        var oids := value.GetOr([]);
        if oid.Some? && oid.value != "" {
          oids := oids + [oid.value];
        }
        assert oids == MemberIds(value, oid);
        var principals := allowedPrincipals.value;
        var i := 0;
        while i < |principals|
          invariant 0 <= i <= |principals|
          invariant !isAllowed
          invariant forall j :: 0 <= j < i ==> principals[j] !in oids
        {
          if principals[i] in oids {
            isAllowed := true;
            break;
          }
          i := i + 1;
        }
        assert isAllowed ==> principals[i] in principals && principals[i] in oids;
      case NotOk(_) =>
      case Threw =>
    }
  }

  /** With the check off everyone is allowed, whatever Graph would say. */
  lemma OpenWhenUnconfigured(allowedPrincipals: Option<seq<string>>, oid: Option<string>, graph: GraphOutcome)
    requires !CheckEnabled(allowedPrincipals)
    ensures Allowed(allowedPrincipals, oid, graph)
  {
  }

  /** Fail closed: with the check on, a non-OK response or a throw denies. */
  lemma FailClosed(allowedPrincipals: Option<seq<string>>, oid: Option<string>, graph: GraphOutcome)
    requires CheckEnabled(allowedPrincipals) && !graph.Ok?
    ensures !Allowed(allowedPrincipals, oid, graph)
  {
  }

  /**
   * Self-allow: a user whose own object id is listed gets in on any OK
   * response, even one without a `value` or with an empty one.
   */
  lemma SelfAllow(allowedPrincipals: Option<seq<string>>, oid: string, value: Option<seq<string>>)
    requires CheckEnabled(allowedPrincipals) && oid != "" && oid in allowedPrincipals.value
    ensures Allowed(allowedPrincipals, Some(oid), Ok(value))
  {
  }

  /** An empty `oid` is falsy and is not appended, so it cannot self-allow. */
  lemma EmptyOidNotAppended(value: Option<seq<string>>)
    ensures MemberIds(value, Some("")) == MemberIds(value, None) == value.GetOr([])
  {
  }

  /**
   * A group listed in the allow-list admits every user Graph reports as a
   * member of it.
   */
  lemma GroupAllow(allowedPrincipals: Option<seq<string>>, oid: Option<string>, ids: seq<string>, group: string)
    requires CheckEnabled(allowedPrincipals) && group in allowedPrincipals.value && group in ids
    ensures Allowed(allowedPrincipals, oid, Ok(Some(ids)))
  {
  }

  /** Allowed group "grp-123"; Graph returns ["grp-999"]; the user is "u-1": denied. */
  lemma ScenarioOtherGroupDenied()
    ensures !Allowed(Some(["grp-123"]), Some("u-1"), Ok(Some(["grp-999"])))
  {
  }

  /** Allowed principal "u-1", the same response: allowed through the user's own id. */
  lemma ScenarioSelfAllowed()
    ensures Allowed(Some(["u-1"]), Some("u-1"), Ok(Some(["grp-999"])))
  {
    assert "u-1" in MemberIds(Some(["grp-999"]), Some("u-1"));
  }
}

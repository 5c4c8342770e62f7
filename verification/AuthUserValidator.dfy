/** Who an access token still speaks for (auth-user.validator.ts). Rows live in tables and a row's
    id is its position. */
module AuthUserValidator {
  import opened Prelude

  type Id = nat

  datatype User = User(disabled: bool, tokenVersion: nat)

  datatype MembershipStatus = Pending | Active | Suspended

  datatype Membership = Membership(tenant: Id, status: MembershipStatus)

  datatype Session = Session(user: Id, family: Id, active: bool, tenant: Option<Id>, membership: Option<Id>)

  datatype Claims = Claims(user: Id, tokenVersion: nat, session: Id, organization: Option<Id>, membership: Option<Id>)

  datatype Context = Context(organization: Option<Id>, membership: Option<Id>)

  predicate Accepted(users: seq<User>, sessions: seq<Session>, claims: Claims) {
    && claims.user < |users| && !users[claims.user].disabled && users[claims.user].tokenVersion == claims.tokenVersion
    && claims.session < |sessions| && sessions[claims.session].user == claims.user && sessions[claims.session].active
  }

  /** A token is accepted while its user and session are live; it acts for the session's
      organization only, and only while the session's membership carries it. */
  method AssertActiveUser(users: seq<User>, sessions: seq<Session>, memberships: seq<Membership>, claims: Claims)
    returns (result: Option<Context>)
    ensures result.Some? <==> Accepted(users, sessions, claims)
    ensures result.Some?
            <==> && claims.user < |users| && !users[claims.user].disabled && users[claims.user].tokenVersion == claims.tokenVersion
                 && claims.session < |sessions| && sessions[claims.session].user == claims.user && sessions[claims.session].active
    ensures result.Some? && sessions[claims.session].membership.None? ==>
              result.value == Context(if claims.membership.Some? then None else sessions[claims.session].tenant, None)
    ensures result.Some? && sessions[claims.session].membership.Some? ==>
              var session := sessions[claims.session];
              var m := session.membership.value;
              var carried := && (claims.membership == None || claims.membership == Some(m))
                             && m < |memberships| && memberships[m].status == Active
                             && (session.tenant == None || session.tenant == Some(memberships[m].tenant))
                             && (claims.organization == None || claims.membership == None || claims.organization == Some(memberships[m].tenant));
              result.value == if carried then Context(session.tenant, session.membership) else Context(None, None)
  {
    if claims.user >= |users| || users[claims.user].disabled || users[claims.user].tokenVersion != claims.tokenVersion
       || claims.session >= |sessions| || sessions[claims.session].user != claims.user || !sessions[claims.session].active {
      return None;
    }
    var session := sessions[claims.session];
    var organization, membership := session.tenant, session.membership;
    if claims.membership.Some? && (membership.None? || membership != claims.membership) {
      organization, membership := None, None;
    }
    if membership.Some? {
      if membership.value >= |memberships|
         || memberships[membership.value].status != Active
         || (organization.Some? && memberships[membership.value].tenant != organization.value)
         || (claims.organization.Some? && membership == claims.membership
             && memberships[membership.value].tenant != claims.organization.value) {
        organization, membership := None, None;
      }
    }
    return Some(Context(organization, membership));
  }
}

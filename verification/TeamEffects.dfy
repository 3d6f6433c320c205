/** When each team request goes through, what it changes then, and whom it leaves alone. */
module TeamEffects {
  import opened Common
  import opened Team

  // ---- Seats ----

  /** Users, and invitations neither accepted nor expired, never exceed the plan's limit without a downgrade. */
  lemma SeatsCountUsersAndPending(es: seq<Event>, t: nat)
    requires Clocked(es) && forall k | 0 <= k < |es| :: NeverLowers(Exec(es[..k]), es[k].r)
    requires es != [] && t in Exec(es).limits
    ensures var st, now := Exec(es), es[|es| - 1].now;
      |set u | u in st.users && st.users[u].tenant == t|
      + |set k | k in st.invites && st.invites[k].tenant == t
                 && !st.invites[k].accepted && now < st.invites[k].expiresAt|
      <= st.limits[t]
  {
    var st, now := Exec(es), es[|es| - 1].now;
    SeatsStayWithinThePlan(es, t);
    assert UsersOf(st.users, t) == set u | u in st.users && st.users[u].tenant == t;
    assert LiveOf(st.invites, t, now)
        == set k | k in st.invites && st.invites[k].tenant == t
                   && !st.invites[k].accepted && now < st.invites[k].expiresAt;
  }

  // ---- Invitations ----

  /**
   * An invitation goes through if and only if it is not for an owner, the address has no account anywhere (or that
   * could not be asked), a seat is free, and its token is no one else's. It is good for seven days, and takes the
   * place of the address's earlier one in this tenant, whatever became of that; nothing else changes.
   */
  lemma InviteEffect(st: Teams, r: Request, now: Time)
    requires r.InviteMember?
    ensures CanInvite(st, r, now) <==>
      && r.role != Owner && (r.unchecked || forall u | u in st.users :: st.users[u].email != r.email)
      && r.tenant in st.limits
      && |set u | u in st.users && st.users[u].tenant == r.tenant|
         + |set k | k in st.invites && st.invites[k].tenant == r.tenant
                    && !st.invites[k].accepted && now < st.invites[k].expiresAt|
         < st.limits[r.tenant]
      && (r.token in st.invites ==> st.invites[r.token].tenant == r.tenant && st.invites[r.token].email == r.email)
    ensures var after := Handle(st, r, now);
      if !CanInvite(st, r, now) then after == st
      else
        && after == st.(invites := after.invites)
        && r.token in after.invites
        && after.invites[r.token] == Invite(r.tenant, r.email, r.role, now + 7 * DAY, false)
        && forall k | k != r.token ::
             && (k in after.invites <==>
                   k in st.invites && !(st.invites[k].tenant == r.tenant && st.invites[k].email == r.email))
             && (k in after.invites ==> after.invites[k] == st.invites[k])
  {
    assert UsersOf(st.users, r.tenant) == set u | u in st.users && st.users[u].tenant == r.tenant;
    assert LiveOf(st.invites, r.tenant, now)
        == set k | k in st.invites && st.invites[k].tenant == r.tenant
                   && !st.invites[k].accepted && now < st.invites[k].expiresAt;
  }

  /** A pending invitation, in time and for an address without an account, becomes a user of its tenant and role. */
  lemma AcceptEffect(st: Teams, r: Request, now: Time)
    requires r.AcceptInvitation?
    ensures CanAccept(st, r, now) <==>
      && r.token in st.invites && !st.invites[r.token].accepted && now < st.invites[r.token].expiresAt
      && (forall u | u in st.users :: st.users[u].email != st.invites[r.token].email) && r.user !in st.users
    ensures var after := Handle(st, r, now);
      if !CanAccept(st, r, now) then after == st
      else
        var i := st.invites[r.token];
        after == st.(users := st.users[r.user := User(i.tenant, i.email, i.role)],
                     invites := st.invites[r.token := Invite(i.tenant, i.email, i.role, i.expiresAt, true)])
  {
  }

  /** A tenant's pending invitation is withdrawn; accepted ones and those of other tenants are not. */
  lemma RevokeEffect(st: Teams, r: Request, now: Time, k: string)
    requires r.RevokeInvitation?
    ensures var after := Handle(st, r, now);
      && after == st.(invites := after.invites)
      && (k in after.invites <==>
            k in st.invites && !(k == r.token && st.invites[k].tenant == r.tenant && !st.invites[k].accepted))
      && (k in after.invites ==> after.invites[k] == st.invites[k])
  {
  }

  // ---- Members ----

  /** Exactly another member of the same tenant who is no owner can be removed, and only that one goes. */
  lemma RemoveEffect(st: Teams, r: Request, now: Time, u: nat)
    requires r.RemoveMember?
    ensures var after := Handle(st, r, now);
      && after == st.(users := after.users)
      && (u in after.users <==>
            && u in st.users
            && !(u == r.target && u != r.actor && st.users[u].tenant == r.tenant && st.users[u].role != Owner))
      && (u in after.users ==> after.users[u] == st.users[u])
  {
  }

  /**
   * A role change gives exactly another member of the same tenant who is no owner the role; if the role is owner,
   * whoever asked becomes an admin. No one else's row changes, and no one's tenant or address.
   */
  lemma RoleChangeEffect(st: Teams, r: Request, now: Time, u: nat)
    requires r.ChangeRole? && u in st.users
    ensures var after := Handle(st, r, now);
      var target := st.users[u];
      var goes := r.target != r.actor && r.target in st.users
        && st.users[r.target].tenant == r.tenant && st.users[r.target].role != Owner;
      && after == st.(users := after.users) && after.users.Keys == st.users.Keys
      && after.users[u].tenant == target.tenant && after.users[u].email == target.email
      && after.users[u].role ==
           if goes && u == r.target then r.role
           else if goes && r.role == Owner && u == r.actor && target.tenant == r.tenant then Admin
           else target.role
  {
  }

  /** A new tenant starts with its owner, unless the address has an account already. */
  lemma SignupEffect(st: Teams, r: Request, now: Time)
    requires r.Signup? && r.tenant !in st.limits && r.user !in st.users
    ensures var after := Handle(st, r, now);
      if exists u | u in st.users :: st.users[u].email == r.email then after == st
      else after == st.(limits := st.limits[r.tenant := r.maxMembers],
                        users := st.users[r.user := User(r.tenant, r.email, Owner)])
  {
  }

  /** A known tenant's limit becomes its new plan's, whatever it holds; nothing else changes. */
  lemma PlanChangeEffect(st: Teams, r: Request, now: Time)
    requires r.ChangePlan?
    ensures Handle(st, r, now) ==
      if r.tenant in st.limits then st.(limits := st.limits[r.tenant := r.maxMembers]) else st
  {
  }

  // ---- Everyone else ----

  /** The tenant a request is about. */
  predicate IsAbout(st: Teams, r: Request, t: nat) {
    match r
    case AcceptInvitation(token, _) => token in st.invites && st.invites[token].tenant == t
    case _ => r.tenant == t
  }

  /** A request leaves the limits, users and invitations of every other tenant as they are, and adds none. */
  lemma OtherTenantsUntouched(st: Teams, r: Request, now: Time, t: nat, u: nat, k: string)
    requires Sound(st) && !IsAbout(st, r, t)
    ensures var after := Handle(st, r, now);
      && (t in after.limits <==> t in st.limits) && (t in st.limits ==> after.limits[t] == st.limits[t])
      && (u in st.users && st.users[u].tenant == t ==> u in after.users && after.users[u] == st.users[u])
      && (u in after.users && after.users[u].tenant == t ==> u in st.users && after.users[u] == st.users[u])
      && (k in st.invites && st.invites[k].tenant == t ==> k in after.invites && after.invites[k] == st.invites[k])
      && (k in after.invites && after.invites[k].tenant == t ==> k in st.invites && after.invites[k] == st.invites[k])
  {
  }
}

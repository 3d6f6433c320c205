/** internal/http/team_handlers.go and Signup: invitations, seats and ownership, one request at a time. */
module Team {
  import opened Common

  const INVITE_TTL: Time := 7 * DAY

  datatype Role = Owner | Admin | Member

  datatype User = User(tenant: nat, email: string, role: Role)

  /** A row of invitations; the hash of its token, which is unique, is its key. */
  datatype Invite = Invite(tenant: nat, email: string, role: Role, expiresAt: Time, accepted: bool)

  /** Each tenant's max_members, its users and its invitations. */
  datatype Teams = Teams(limits: map<nat, nat>, users: map<nat, User>, invites: map<string, Invite>)

  datatype Request =
    | Signup(tenant: nat, user: nat, email: string, maxMembers: nat)
    | InviteMember(tenant: nat, email: string, role: Role, token: string, unchecked: bool)
    | RevokeInvitation(tenant: nat, token: string)
    | AcceptInvitation(token: string, user: nat)
    | ChangeRole(tenant: nat, actor: nat, target: nat, role: Role)
    | RemoveMember(tenant: nat, actor: nat, target: nat)
    | ChangePlan(tenant: nat, maxMembers: nat)

  // ---- Seats ----

  function UsersOf(users: map<nat, User>, tenant: nat): set<nat> {
    set u | u in users && users[u].tenant == tenant
  }

  predicate IsLive(i: Invite, now: Time) { !i.accepted && i.expiresAt > now }

  function LiveOf(invites: map<string, Invite>, tenant: nat, now: Time): set<string> {
    set k | k in invites && invites[k].tenant == tenant && IsLive(invites[k], now)
  }

  /** What CheckMember counts: users plus pending invitations. */
  function Seats(st: Teams, tenant: nat, now: Time): nat {
    |UsersOf(st.users, tenant)| + |LiveOf(st.invites, tenant, now)|
  }

  // ---- The requests ----

  predicate EmailTaken(users: map<nat, User>, email: string) {
    exists u | u in users :: users[u].email == email
  }

  /** ON CONFLICT (tenant_id, email) DO UPDATE: the address's row, whatever became of it, is written anew. */
  function Reinvited(invites: map<string, Invite>, token: string, i: Invite): map<string, Invite> {
    Withdrawn(invites, i.tenant, i.email)[token := i]
  }

  function Withdrawn(invites: map<string, Invite>, tenant: nat, email: string): map<string, Invite> {
    map k | k in invites && !(invites[k].tenant == tenant && invites[k].email == email) :: invites[k]
  }

  predicate CanInvite(st: Teams, r: Request, now: Time)
    requires r.InviteMember?
  {
    && r.role != Owner
    && (r.unchecked || !EmailTaken(st.users, r.email))
    && r.tenant in st.limits
    && Seats(st, r.tenant, now) < st.limits[r.tenant]
    && r.token !in Withdrawn(st.invites, r.tenant, r.email)  // UNIQUE (token_hash)
  }

  predicate CanAccept(st: Teams, r: Request, now: Time)
    requires r.AcceptInvitation?
  {
    && r.token in st.invites && IsLive(st.invites[r.token], now)
    && !EmailTaken(st.users, st.invites[r.token].email)
    && r.user !in st.users
  }

  predicate CanChangeRole(st: Teams, r: Request)
    requires r.ChangeRole?
  {
    && r.target != r.actor
    && r.target in st.users && st.users[r.target].tenant == r.tenant && st.users[r.target].role != Owner
  }

  predicate CanRemove(st: Teams, r: Request)
    requires r.RemoveMember?
  {
    && r.target != r.actor
    && r.target in st.users && st.users[r.target].tenant == r.tenant && st.users[r.target].role != Owner
  }

  /** The users after a role change that goes through: a transfer of ownership demotes whoever asked. */
  function Reassigned(users: map<nat, User>, r: Request): map<nat, User>
    requires r.ChangeRole?
  {
    map u | u in users ::
      if u == r.target then users[u].(role := r.role)
      else if r.role == Owner && u == r.actor && users[u].tenant == r.tenant then users[u].(role := Admin)
      else users[u]
  }

  /** A request that is refused changes nothing. */
  function Handle(st: Teams, r: Request, now: Time): Teams {
    match r
    case Signup(t, u, email, maxMembers) =>
      if t in st.limits || u in st.users || EmailTaken(st.users, email) then st
      else st.(limits := st.limits[t := maxMembers], users := st.users[u := User(t, email, Owner)])
    case InviteMember(t, email, role, token, _) =>
      if CanInvite(st, r, now)
      then st.(invites := Reinvited(st.invites, token, Invite(t, email, role, now + INVITE_TTL, false))) else st
    case RevokeInvitation(t, token) =>
      if token in st.invites && st.invites[token].tenant == t && !st.invites[token].accepted
      then st.(invites := st.invites - {token}) else st
    case AcceptInvitation(token, u) =>
      if CanAccept(st, r, now) then
        var i := st.invites[token];
        st.(invites := st.invites[token := i.(accepted := true)],
            users := st.users[u := User(i.tenant, i.email, i.role)])
      else st
    case ChangeRole(_, _, _, _) =>
      if CanChangeRole(st, r) then st.(users := Reassigned(st.users, r)) else st
    case RemoveMember(_, _, target) =>
      if CanRemove(st, r) then st.(users := st.users - {target}) else st
    case ChangePlan(t, maxMembers) =>
      if t in st.limits then st.(limits := st.limits[t := maxMembers]) else st
  }

  class Tables {
    var limits: map<nat, nat>
    var users: map<nat, User>
    var invites: map<string, Invite>

    function State(): Teams
      reads this
    {
      Teams(limits, users, invites)
    }

    /** unchecked: asking for the address's account failed, and an error there passes for "none". */
    method InviteMember(tenant: nat, email: string, role: Role, token: string, unchecked: bool, now: Time)
        returns (status: nat)
      modifies this`invites
      ensures State() == Handle(old(State()), Request.InviteMember(tenant, email, role, token, unchecked), now)
      ensures status == 201 <==>
        CanInvite(old(State()), Request.InviteMember(tenant, email, role, token, unchecked), now)
    {
      if role == Owner {
        return 400;
      }
      if !unchecked && EmailTaken(users, email) {
        return 409;
      }
      if tenant !in limits {
        return 500;
      }
      var count := |UsersOf(users, tenant)| + |LiveOf(invites, tenant, now)|;
      if count >= limits[tenant] {
        return 402;
      }
      var others := Withdrawn(invites, tenant, email);
      if token in others {
        return 500;
      }
      invites := others[token := Invite(tenant, email, role, now + INVITE_TTL, false)];
      return 201;
    }

    method AcceptInvitation(token: string, user: nat, now: Time) returns (status: nat)
      modifies this
      ensures State() == Handle(old(State()), Request.AcceptInvitation(token, user), now)
      ensures status == 201 <==> CanAccept(old(State()), Request.AcceptInvitation(token, user), now)
    {
      var before := invites;
      if token !in invites || !IsLive(invites[token], now) {
        return 400;
      }
      var i := invites[token];
      invites := invites[token := i.(accepted := true)];
      if EmailTaken(users, i.email) || user in users {
        invites := before;  // the transaction rolls back
        return 409;
      }
      users := users[user := User(i.tenant, i.email, i.role)];
      return 201;
    }

    method ChangeRole(tenant: nat, actor: nat, target: nat, role: Role) returns (status: nat)
      modifies this`users
      ensures forall now :: State() == Handle(old(State()), Request.ChangeRole(tenant, actor, target, role), now)
      ensures status == 200 <==> CanChangeRole(old(State()), Request.ChangeRole(tenant, actor, target, role))
    {
      if target == actor {
        return 400;
      }
      var before := users;
      if role == Owner {
        if actor in users && users[actor].tenant == tenant {
          users := users[actor := users[actor].(role := Admin)];
        }
      }
      if target !in users || users[target].tenant != tenant || users[target].role == Owner {
        users := before;  // the transaction rolls back
        return 404;
      }
      users := users[target := users[target].(role := role)];
      assert users == Reassigned(before, Request.ChangeRole(tenant, actor, target, role));
      return 200;
    }

    method RemoveMember(tenant: nat, actor: nat, target: nat) returns (status: nat)
      modifies this`users
      ensures forall now :: State() == Handle(old(State()), Request.RemoveMember(tenant, actor, target), now)
      ensures status == 204 <==> CanRemove(old(State()), Request.RemoveMember(tenant, actor, target))
    {
      if target == actor {
        return 400;
      }
      if target !in users || users[target].tenant != tenant || users[target].role == Owner {
        return 404;
      }
      users := users - {target};
      return 204;
    }

    method RevokeInvitation(tenant: nat, token: string) returns (status: nat)
      modifies this`invites
      ensures forall now :: State() == Handle(old(State()), Request.RevokeInvitation(tenant, token), now)
      ensures status == 204 <==> invites != old(invites)
    {
      if token !in invites || invites[token].tenant != tenant || invites[token].accepted {
        return 404;
      }
      invites := invites - {token};
      assert token !in invites.Keys && token in old(invites).Keys;
      return 204;
    }

    method Signup(tenant: nat, user: nat, email: string, maxMembers: nat) returns (status: nat)
      modifies this
      ensures forall now :: State() == Handle(old(State()), Request.Signup(tenant, user, email, maxMembers), now)
      ensures status == 201 <==> tenant !in old(limits) && user !in old(users) && !EmailTaken(old(users), email)
    {
      var before := limits;
      if tenant in limits {
        return 409;
      }
      limits := limits[tenant := maxMembers];
      if user in users || EmailTaken(users, email) {
        limits := before;  // the transaction rolls back
        return 409;
      }
      users := users[user := User(tenant, email, Owner)];
      return 201;
    }
  }

  // ---- How each request moves the seats of a tenant ----

  lemma UsersAfterJoin(users: map<nat, User>, u: nat, user: User, t: nat)
    requires u !in users
    ensures |UsersOf(users[u := user], t)| == |UsersOf(users, t)| + if user.tenant == t then 1 else 0
  {
    if user.tenant == t {
      assert UsersOf(users[u := user], t) == UsersOf(users, t) + {u};
    } else {
      assert UsersOf(users[u := user], t) == UsersOf(users, t);
    }
  }

  lemma LiveAfterUse(invites: map<string, Invite>, token: string, now: Time, t: nat)
    requires token in invites && IsLive(invites[token], now)
    ensures |LiveOf(invites[token := invites[token].(accepted := true)], t, now)| ==
      |LiveOf(invites, t, now)| - if invites[token].tenant == t then 1 else 0
  {
    var used := invites[token := invites[token].(accepted := true)];
    if invites[token].tenant == t {
      assert LiveOf(used, t, now) == LiveOf(invites, t, now) - {token};
    } else {
      assert LiveOf(used, t, now) == LiveOf(invites, t, now);
    }
  }

  /** Accepting trades the pending invitation for a user, one for one. */
  lemma AcceptConservesSeats(st: Teams, token: string, u: nat, now: Time, t: nat)
    ensures Seats(Handle(st, AcceptInvitation(token, u), now), t, now) == Seats(st, t, now)
  {
    if CanAccept(st, AcceptInvitation(token, u), now) {
      var i := st.invites[token];
      UsersAfterJoin(st.users, u, User(i.tenant, i.email, i.role), t);
      LiveAfterUse(st.invites, token, now, t);
    }
  }

  /** The address's pending invitation in this tenant, if it has one. */
  predicate HasLive(st: Teams, tenant: nat, email: string, now: Time) {
    exists k | k in st.invites ::
      st.invites[k].tenant == tenant && st.invites[k].email == email && IsLive(st.invites[k], now)
  }

  /** UNIQUE (tenant_id, email). */
  ghost predicate OneInvitePerAddress(st: Teams) {
    forall j, k | j in st.invites && k in st.invites && j != k ::
      !(st.invites[j].tenant == st.invites[k].tenant && st.invites[j].email == st.invites[k].email)
  }

  /** The pending invitations of tenant t that a new one for (tenant, email) replaces. */
  function Replaced(invites: map<string, Invite>, tenant: nat, email: string, now: Time, t: nat): set<string> {
    set k |
      k in invites && invites[k].tenant == t && IsLive(invites[k], now) && tenant == t && invites[k].email == email
  }

  lemma LiveAfterWithdrawal(invites: map<string, Invite>, tenant: nat, email: string, now: Time, t: nat)
    ensures |LiveOf(Withdrawn(invites, tenant, email), t, now)| ==
      |LiveOf(invites, t, now)| - |Replaced(invites, tenant, email, now, t)|
  {
    var all, gone := LiveOf(invites, t, now), Replaced(invites, tenant, email, now, t);
    var left := LiveOf(Withdrawn(invites, tenant, email), t, now);
    assert gone <= all && left == all - gone;
    assert all == left + gone;
  }

  lemma LiveAfterPut(invites: map<string, Invite>, token: string, i: Invite, now: Time, t: nat)
    requires token !in invites && IsLive(i, now)
    ensures |LiveOf(invites[token := i], t, now)| == |LiveOf(invites, t, now)| + if i.tenant == t then 1 else 0
  {
    if i.tenant == t {
      assert LiveOf(invites[token := i], t, now) == LiveOf(invites, t, now) + {token};
    } else {
      assert LiveOf(invites[token := i], t, now) == LiveOf(invites, t, now);
    }
  }

  /** An invitation that goes through costs its tenant one seat, or none if it replaces a pending one. */
  lemma InviteCostsOneSeat(st: Teams, r: Request, now: Time, t: nat)
    requires r.InviteMember? && CanInvite(st, r, now) && OneInvitePerAddress(st)
    ensures Seats(Handle(st, r, now), t, now) ==
      Seats(st, t, now) + if t == r.tenant && !HasLive(st, t, r.email, now) then 1 else 0
  {
    var i := Invite(r.tenant, r.email, r.role, now + INVITE_TTL, false);
    var replaced := Replaced(st.invites, r.tenant, r.email, now, t);
    LiveAfterWithdrawal(st.invites, r.tenant, r.email, now, t);
    LiveAfterPut(Withdrawn(st.invites, r.tenant, r.email), r.token, i, now, t);
    if t == r.tenant && HasLive(st, t, r.email, now) {
      var k :| k in st.invites
        && st.invites[k].tenant == t && st.invites[k].email == r.email && IsLive(st.invites[k], now);
      assert replaced == {k};
    } else {
      assert replaced == {};
    }
  }

  /** No other request raises them, and neither does the clock. */
  lemma NothingElseAddsSeats(st: Teams, r: Request, now: Time, t: nat)
    requires !r.InviteMember? && !(r.Signup? && r.tenant == t)
    ensures Seats(Handle(st, r, now), t, now) <= Seats(st, t, now)
  {
    var after := Handle(st, r, now);
    if r.AcceptInvitation? {
      AcceptConservesSeats(st, r.token, r.user, now, t);
    } else {
      NobodyJoins(st, r, now, t);
      SubsetCount(UsersOf(after.users, t), UsersOf(st.users, t));
      SubsetCount(LiveOf(after.invites, t, now), LiveOf(st.invites, t, now));
    }
  }

  lemma NobodyJoins(st: Teams, r: Request, now: Time, t: nat)
    requires !r.InviteMember? && !r.AcceptInvitation? && !(r.Signup? && r.tenant == t)
    ensures var after := Handle(st, r, now);
      UsersOf(after.users, t) <= UsersOf(st.users, t) && LiveOf(after.invites, t, now) <= LiveOf(st.invites, t, now)
  {
  }

  lemma ClockAddsNoSeats(st: Teams, t: nat, now: Time, later: Time)
    requires now <= later
    ensures Seats(st, t, later) <= Seats(st, t, now)
  {
    SubsetCount(LiveOf(st.invites, t, later), LiveOf(st.invites, t, now));
  }

  // ---- Runs ----

  datatype Event = Event(now: Time, r: Request)

  function Exec(es: seq<Event>): Teams {
    if es == [] then Teams(map[], map[], map[])
    else Handle(Exec(es[..|es| - 1]), es[|es| - 1].r, es[|es| - 1].now)
  }

  ghost predicate Clocked(es: seq<Event>) {
    forall j, k | 0 <= j <= k < |es| :: es[j].now <= es[k].now
  }

  /** Every plan has room for an owner, and a plan change never lowers the limit. */
  ghost predicate NeverLowers(st: Teams, r: Request) {
    && (r.Signup? ==> r.maxMembers >= 1)
    && (r.ChangePlan? && r.tenant in st.limits ==> st.limits[r.tenant] <= r.maxMembers)
  }

  ghost predicate Sound(st: Teams) {
    && OneInvitePerAddress(st)
    && (forall u | u in st.users :: st.users[u].tenant in st.limits)
    && (forall k | k in st.invites :: st.invites[k].tenant in st.limits && st.invites[k].role != Owner)
  }

  lemma SoundStep(st: Teams, r: Request, now: Time)
    requires Sound(st)
    ensures Sound(Handle(st, r, now))
  {
  }

  lemma SeatsStep(st: Teams, r: Request, t: nat, then': Time, now: Time)
    requires Sound(st) && then' <= now && NeverLowers(st, r)
    requires t in st.limits ==> Seats(st, t, then') <= st.limits[t]
    ensures var after := Handle(st, r, now); t in after.limits ==> Seats(after, t, now) <= after.limits[t]
  {
    ClockAddsNoSeats(st, t, then', now);
    if r.InviteMember? && CanInvite(st, r, now) {
      InviteCostsOneSeat(st, r, now, t);
    } else if r.Signup? && r.tenant == t && t !in st.limits {
      var after := Handle(st, r, now);
      if t in after.limits {
        assert UsersOf(after.users, t) == {r.user};
        assert LiveOf(after.invites, t, now) == {};
      }
    } else if !r.InviteMember? && !(r.Signup? && r.tenant == t) {
      NothingElseAddsSeats(st, r, now, t);
    }
  }

  /** Over any run without a downgrade, no tenant ever holds more seats than its plan allows. */
  lemma {:induction false} SeatsStayWithinThePlan(es: seq<Event>, t: nat)
    requires Clocked(es) && forall k | 0 <= k < |es| :: NeverLowers(Exec(es[..k]), es[k].r)
    ensures Sound(Exec(es))
    ensures es != [] && t in Exec(es).limits ==> Seats(Exec(es), t, es[|es| - 1].now) <= Exec(es).limits[t]
  {
    if es != [] {
      var before, e := es[..|es| - 1], es[|es| - 1];
      assert forall k | 0 <= k < |before| :: before[..k] == es[..k];
      SeatsStayWithinThePlan(before, t);
      SoundStep(Exec(before), e.r, e.now);
      assert NeverLowers(Exec(before), e.r);
      SeatsStep(Exec(before), e.r, t, if before == [] then e.now else before[|before| - 1].now, e.now);
    }
  }

  // ---- Exactly one owner ----

  function OwnersOf(users: map<nat, User>, tenant: nat): set<nat> {
    set u | u in users && users[u].tenant == tenant && users[u].role == Owner
  }

  ghost predicate OneOwner(st: Teams, t: nat) {
    |OwnersOf(st.users, t)| == 1
  }

  /**
   * A role change keeps a tenant's one owner if and only if it is no transfer, is refused, or is asked
   * for by that owner. The middleware only checks the token's role, which can be out of date.
   */
  lemma TransferKeepsOneOwnerIff(st: Teams, r: Request, now: Time)
    requires r.ChangeRole? && OneOwner(st, r.tenant)
    ensures OneOwner(Handle(st, r, now), r.tenant) <==>
      r.role != Owner || !CanChangeRole(st, r) || r.actor in OwnersOf(st.users, r.tenant)
  {
    var was, now' := OwnersOf(st.users, r.tenant), OwnersOf(Handle(st, r, now).users, r.tenant);
    if !CanChangeRole(st, r) {
    } else if r.role != Owner {
      assert now' == was;
    } else if r.actor in was {
      assert was == {r.actor} by { Singleton(was, r.actor); }
      forall u ensures u in now' <==> u == r.target {
        assert u in was ==> u == r.actor;
      }
      assert now' == {r.target};
    } else {
      assert now' == was + {r.target};
    }
  }

  lemma Singleton<T>(s: set<T>, x: T)
    requires |s| == 1 && x in s
    ensures s == {x}
  {
    assert |s - {x}| == 0;
  }

  /** A transfer that goes through is asked for by the current owner. */
  ghost predicate TransferByOwner(st: Teams, r: Request) {
    r.ChangeRole? && r.role == Owner && CanChangeRole(st, r) ==> r.actor in OwnersOf(st.users, r.tenant)
  }

  lemma OneOwnerStep(st: Teams, r: Request, now: Time, t: nat)
    requires Sound(st) && TransferByOwner(st, r) && (t in st.limits ==> OneOwner(st, t))
    ensures t in Handle(st, r, now).limits ==> OneOwner(Handle(st, r, now), t)
  {
    if r.ChangeRole? {
      if r.tenant != t {
        OwnersElsewhere(st, r, now, t);
      } else if t in st.limits {
        TransferKeepsOneOwnerIff(st, r, now);
      }
    } else {
      OwnersAfterOthers(st, r, now, t);
    }
  }

  lemma OwnersElsewhere(st: Teams, r: Request, now: Time, t: nat)
    requires r.ChangeRole? && r.tenant != t
    ensures OwnersOf(Handle(st, r, now).users, t) == OwnersOf(st.users, t)
  {
  }

  lemma OwnersAfterOthers(st: Teams, r: Request, now: Time, t: nat)
    requires Sound(st) && !r.ChangeRole?
    ensures var after := Handle(st, r, now);
      OwnersOf(after.users, t) == if r.Signup? && after != st && r.tenant == t then {r.user} else OwnersOf(st.users, t)
    ensures var after := Handle(st, r, now);
      t in after.limits ==> t in st.limits || (r.Signup? && after != st && r.tenant == t)
  {
  }

  ghost predicate OwnersTransfer(es: seq<Event>) {
    forall k | 0 <= k < |es| :: TransferByOwner(Exec(es[..k]), es[k].r)
  }

  lemma {:induction false} EveryRunIsSound(es: seq<Event>)
    ensures Sound(Exec(es))
  {
    if es != [] {
      EveryRunIsSound(es[..|es| - 1]);
      SoundStep(Exec(es[..|es| - 1]), es[|es| - 1].r, es[|es| - 1].now);
    }
  }

  /** Over any run whose transfers come from the current owner, every tenant has exactly one owner. */
  lemma {:induction false} EveryTenantHasOneOwner(es: seq<Event>, t: nat)
    requires OwnersTransfer(es)
    ensures t in Exec(es).limits ==> OneOwner(Exec(es), t)
  {
    if es != [] {
      var before, e := es[..|es| - 1], es[|es| - 1];
      assert forall k | 0 <= k < |before| :: before[..k] == es[..k];
      EveryTenantHasOneOwner(before, t);
      EveryRunIsSound(before);
      OneOwnerStep(Exec(before), e.r, e.now, t);
    }
  }

  ghost predicate AllHaveOneOwner(st: Teams) {
    forall t | t in st.limits :: OneOwner(st, t)
  }

  /** And only then: every tenant has exactly one owner all along if and only if transfers come from owners. */
  lemma OneOwnerIff(es: seq<Event>)
    ensures (forall k | 0 <= k <= |es| :: AllHaveOneOwner(Exec(es[..k]))) <==> OwnersTransfer(es)
  {
    if OwnersTransfer(es) {
      forall k | 0 <= k <= |es|
        ensures AllHaveOneOwner(Exec(es[..k]))
      {
        assert forall j | 0 <= j < k :: es[..k][..j] == es[..j];
        forall t | t in Exec(es[..k]).limits
          ensures OneOwner(Exec(es[..k]), t)
        {
          EveryTenantHasOneOwner(es[..k], t);
        }
      }
    } else {
      var k :| 0 <= k < |es| && !TransferByOwner(Exec(es[..k]), es[k].r);
      EveryRunIsSound(es[..k]);
      assert es[..k + 1][..k] == es[..k];
      StaleTransferBreaks(Exec(es[..k]), es[k].r, es[k].now);
    }
  }

  lemma StaleTransferBreaks(st: Teams, r: Request, now: Time)
    requires Sound(st) && !TransferByOwner(st, r)
    ensures !AllHaveOneOwner(st) || !AllHaveOneOwner(Handle(st, r, now))
  {
    assert r.tenant in st.limits && Handle(st, r, now).limits == st.limits;
    if OneOwner(st, r.tenant) { TransferKeepsOneOwnerIff(st, r, now); }
  }

  // ---- Two owners ----

  /**
   * A transfer, and then another by the former owner, whose token still says so: the tenant has two owners,
   * wherever this happens.
   */
  lemma StaleTokenMakesTwoOwners(st: Teams, t: nat, a: nat, b: nat, c: nat, now: Time, later: Time)
    requires OwnersOf(st.users, t) == {a} && b != c && b != a && c != a
    requires b in st.users && st.users[b].tenant == t && c in st.users && st.users[c].tenant == t
    ensures OwnersOf(Handle(st, ChangeRole(t, a, b, Owner), now).users, t) == {b}
    ensures var after := Handle(Handle(st, ChangeRole(t, a, b, Owner), now), ChangeRole(t, a, c, Owner), later);
      OwnersOf(after.users, t) == {b, c} && !OneOwner(after, t)
  {
    assert b !in OwnersOf(st.users, t) && c !in OwnersOf(st.users, t) && a in OwnersOf(st.users, t);
    var once := Handle(st, ChangeRole(t, a, b, Owner), now);
    forall u
      ensures u in OwnersOf(once.users, t) <==> u == b
    {
      assert u in OwnersOf(st.users, t) ==> u == a;
    }
    assert OwnersOf(once.users, t) == {b};
    assert c !in OwnersOf(once.users, t);
    var after := Handle(once, ChangeRole(t, a, c, Owner), later);
    forall u
      ensures u in OwnersOf(after.users, t) <==> u == b || u == c
    {
      assert u in OwnersOf(once.users, t) <==> u == b;
    }
    assert OwnersOf(after.users, t) == {b, c};
    assert |{b, c}| == 2;
  }

  /** A tenant with its owner and two members that accepted their invitations. */
  const TEAM_OF_THREE := [
    Event(0, Signup(1, 1, "a", 3)),
    Event(1, InviteMember(1, "b", Member, "x", false)), Event(2, AcceptInvitation("x", 2)),
    Event(3, InviteMember(1, "c", Member, "y", false)), Event(4, AcceptInvitation("y", 3))]

  const TWO_TRANSFERS := [Event(5, ChangeRole(1, 1, 2, Owner)), Event(6, ChangeRole(1, 1, 3, Owner))]

  const ALICE := User(1, "a", Owner)
  const BOB := User(1, "b", Member)
  const CAROL := User(1, "c", Member)

  lemma SignedUp()
    ensures Exec(TEAM_OF_THREE[..1]) == Teams(map[1 := 3], map[1 := ALICE], map[])
  {
    assert TEAM_OF_THREE[..1][..0] == [];
    assert Exec([]) == Teams(map[], map[], map[]);
  }

  lemma BobJoins()
    ensures Exec(TEAM_OF_THREE[..3]) ==
      Teams(map[1 := 3], map[1 := ALICE, 2 := BOB], map["x" := Invite(1, "b", Member, 1 + INVITE_TTL, true)])
  {
    var st := Exec(TEAM_OF_THREE[..1]);
    SignedUp();
    assert TEAM_OF_THREE[..2][..1] == TEAM_OF_THREE[..1] && TEAM_OF_THREE[..3][..2] == TEAM_OF_THREE[..2];
    assert UsersOf(st.users, 1) == {1} && LiveOf(st.invites, 1, 1) == {};
    assert Withdrawn(st.invites, 1, "b") == map[];
    var invited := Handle(st, InviteMember(1, "b", Member, "x", false), 1);
    assert invited == st.(invites := map["x" := Invite(1, "b", Member, 1 + INVITE_TTL, false)]);
  }

  lemma CarolJoins()
    ensures Exec(TEAM_OF_THREE).users == map[1 := ALICE, 2 := BOB, 3 := CAROL]
  {
    CarolIsInvited();
    assert TEAM_OF_THREE[..4] == TEAM_OF_THREE[..|TEAM_OF_THREE| - 1];
  }

  lemma CarolIsInvited()
    ensures var st := Exec(TEAM_OF_THREE[..4]);
      && st.users == map[1 := ALICE, 2 := BOB]
      && "y" in st.invites && st.invites["y"] == Invite(1, "c", Member, 3 + INVITE_TTL, false)
  {
    var st := Exec(TEAM_OF_THREE[..3]);
    BobJoins();
    assert TEAM_OF_THREE[..4][..3] == TEAM_OF_THREE[..3];
    assert UsersOf(st.users, 1) == {1, 2} && LiveOf(st.invites, 1, 3) == {};
    assert Withdrawn(st.invites, 1, "c") == st.invites;
    var invited := Handle(st, InviteMember(1, "c", Member, "y", false), 3);
    assert invited == st.(invites := st.invites["y" := Invite(1, "c", Member, 3 + INVITE_TTL, false)]);
  }

  /** From signup: two members join, ownership is transferred, and the former owner transfers it again. */
  lemma StaleTokenRun()
    ensures |OwnersOf(Exec(TEAM_OF_THREE + TWO_TRANSFERS).users, 1)| == 2
  {
    var es := TEAM_OF_THREE + TWO_TRANSFERS;
    assert es[..6][..5] == TEAM_OF_THREE && es[..|es| - 1] == es[..6];
    CarolJoins();
    var st := Exec(TEAM_OF_THREE);
    assert OwnersOf(st.users, 1) == {1};
    StaleTokenMakesTwoOwners(st, 1, 1, 2, 3, 5, 6);
    assert |{2, 3}| == 2;
  }
}

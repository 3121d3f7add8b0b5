/** Profile invitations: issue under rate limits, resend, revoke, accept, decline, and the three-step
    delivery that runs after the commit. A token stands for the one row that carries its digest. */
module Invitations {
  import opened Prelude
  import opened Tenancy
  import opened Organisation
  import opened Deliveries

  type InvitationId = nat

  datatype Status = Pending | Accepted | Declined | Revoked | Expired

  /** A terminal timestamp and its user, set together. */
  datatype Stamp = Stamp(at: Time, user: UserId)

  /** `email` is the canonical address. */
  datatype Invitation = Invitation(
    profile: ProfileId, email: string, recipient: Option<UserId>, role: ProfileRole, inviter: MembershipId,
    status: Status, createdAt: Time, expiresAt: Time, mail: Mail,
    accepted: Option<Stamp>, declined: Option<Stamp>, revoked: Option<Stamp>, expiredAt: Option<Time>,
    predecessor: Option<InvitationId>)

  /** Invitations are listed in insertion order, each beside the phase of its delivery. */
  datatype Office = Office(tenant: Tenant, rows: seq<Invitation>, phases: seq<Phase>)

  const TTL: nat := 168 * HOUR
  const WINDOW: nat := 24 * HOUR
  const MAX_PER_RECIPIENT := 5
  const MAX_PER_INVITER := 30

  // ----- who may issue -----

  predicate CanIssue(manager: ProfileRole, requested: ProfileRole) {
    if manager.Owner? then !requested.Owner? else manager.Admin? && requested.Member?
  }

  function LockManager(seen: Tenant, t: Tenant, actor: UserId, profile: ProfileId, requested: Option<ProfileRole>):
      Result<MembershipId, ServiceError> {
    match ResolveProfile(seen, actor, profile)
    case None => Err(NotFound)
    case Some(scope) =>
      if profile !in t.profiles then Err(NotFound)
      else if !t.profiles[profile].Active? then Err(Forbidden)
      else if !LiveMembership(t, scope.membership, actor, profile) || !IsManager(t.memberships[scope.membership].role)
      then Err(if scope.role.Member? then Forbidden else NotFound)
      else if requested.Some? && !CanIssue(t.memberships[scope.membership].role, requested.value) then Err(Forbidden)
      else Ok(scope.membership)
  }

  function ResolveUnique(t: Tenant, matches: set<UserId>, email: string): Result<Option<UserId>, ServiceError> {
    UniqueMatch(map u | u in t.users :: t.users[u].email, matches, email)
  }

  predicate HasActiveMembership(t: Tenant, profile: ProfileId, user: UserId) {
    exists id ::
      id in t.memberships && t.memberships[id].profile == profile && t.memberships[id].user == user
          && t.memberships[id].active
  }

  // ----- rate limits -----

  datatype Counted = ByRecipient(email: string) | ByInviter(user: UserId)

  function Limit(who: Counted): nat { if who.ByRecipient? then MAX_PER_RECIPIENT else MAX_PER_INVITER }

  predicate Counts(t: Tenant, row: Invitation, who: Counted) {
    match who
    case ByRecipient(email) => row.email == email
    case ByInviter(user) => row.inviter in t.memberships && t.memberships[row.inviter].user == user
  }

  /** The rows created at `from` or later. */
  function CountSince(t: Tenant, rows: seq<Invitation>, who: Counted, from: int): nat {
    if rows == [] then 0
    else
      var last := rows[|rows| - 1];
      CountSince(t, rows[..|rows| - 1], who, from) + if Counts(t, last, who) && last.createdAt >= from then 1 else 0
  }

  /** Counting looks only at the address, the inviter and the creation time of a row. */
  lemma {:induction false} CountsAlike(t: Tenant, rows: seq<Invitation>, later: seq<Invitation>, who: Counted,
                                       from: int)
    requires |later| == |rows|
    requires forall i :: 0 <= i < |rows| ==> later[i].email == rows[i].email && later[i].inviter == rows[i].inviter
                                             && later[i].createdAt == rows[i].createdAt
    ensures CountSince(t, later, who, from) == CountSince(t, rows, who, from)
  {
    if rows != [] {
      var front, moved := rows[..|rows| - 1], later[..|rows| - 1];
      assert forall i :: 0 <= i < |front| ==> front[i] == rows[i] && moved[i] == later[i];
      CountsAlike(t, front, moved, who, from);
    }
  }

  predicate LimitReached(t: Tenant, rows: seq<Invitation>, actor: UserId, email: string, now: Time) {
    CountSince(t, rows, ByInviter(actor), now - WINDOW) >= MAX_PER_INVITER
    || CountSince(t, rows, ByRecipient(email), now - WINDOW) >= MAX_PER_RECIPIENT
  }

  // ----- expiry -----

  predicate Overdue(row: Invitation, now: Time) { row.status.Pending? && row.expiresAt <= now }

  function Expire(row: Invitation, now: Time): Invitation { row.(status := Expired, expiredAt := Some(now)) }

  function Revoke(row: Invitation, now: Time, user: UserId): Invitation {
    row.(status := Revoked, revoked := Some(Stamp(now, user)))
  }

  function PendingForEmail(rows: seq<Invitation>, profile: ProfileId, email: string): (r: Option<InvitationId>)
    ensures r.Some? ==> r.value < |rows| && rows[r.value].status.Pending?
  {
    First(set i | 0 <= i < |rows| && rows[i].profile == profile && rows[i].email == email
          && rows[i].status.Pending? :: i)
  }

  function PendingForUser(rows: seq<Invitation>, profile: ProfileId, user: Option<UserId>): (r: Option<InvitationId>)
    ensures r.Some? ==> r.value < |rows| && rows[r.value].status.Pending?
  {
    if user.None? then None
    else First(set i | 0 <= i < |rows| && rows[i].profile == profile && rows[i].recipient == user
               && rows[i].status.Pending? :: i)
  }

  /** A pending row in the way must be overdue, and is then expired. */
  function Clear(rows: seq<Invitation>, found: Option<InvitationId>, now: Time): Result<seq<Invitation>, ServiceError>
    requires found.Some? ==> found.value < |rows|
  {
    if found.None? then Ok(rows)
    else if !Overdue(rows[found.value], now) then Err(Conflict)
    else Ok(rows[found.value := Expire(rows[found.value], now)])
  }

  // ----- issuing -----

  /** The constraints an inserted pending row meets; its creation time is read at the insert. */
  predicate Insertable(rows: seq<Invitation>, row: Invitation) {
    (forall i :: 0 <= i < |rows| && rows[i].status.Pending? && rows[i].profile == row.profile ==>
       rows[i].email != row.email && (row.recipient.Some? ==> rows[i].recipient != row.recipient))
    && (row.predecessor.Some? ==> forall i :: 0 <= i < |rows| ==> rows[i].predecessor != row.predecessor)
    && row.createdAt < row.expiresAt
  }

  function NewRow(profile: ProfileId, inviter: MembershipId, email: string, role: ProfileRole,
                  recipient: Option<UserId>,
                  now: Time, insertedAt: Time, predecessor: Option<InvitationId>): Invitation {
    Invitation(profile, email, recipient, role, inviter, Pending, insertedAt, now + TTL, QUEUED,
               None, None, None, None, predecessor)
  }

  function Issue(office: Office, rows: seq<Invitation>, row: Invitation): Result<Office, ServiceError> {
    if Insertable(rows, row) then Ok(office.(rows := rows + [row], phases := office.phases + [Scheduled]))
        else Err(Conflict)
  }

  /** The pending row for the address, then the pending row for the account behind it, make way. */
  function MakeWay(t: Tenant, rows: seq<Invitation>, profile: ProfileId, email: string, matches: set<UserId>,
                   now: Time):
      Result<(seq<Invitation>, Option<UserId>), ServiceError> {
    match Clear(rows, PendingForEmail(rows, profile, email), now)
    case Err(e) => Err(e)
    case Ok(cleared) =>
      match ResolveUnique(t, matches, email)
      case Err(e) => Err(e)
      case Ok(recipient) =>
        if recipient.Some? && HasActiveMembership(t, profile, recipient.value) then Err(Conflict)
        else
          match Clear(cleared, PendingForUser(cleared, profile, recipient), now)
          case Err(e) => Err(e)
          case Ok(both) => Ok((both, recipient))
  }

  function Create(office: Office, seen: Tenant, actor: UserId, profile: ProfileId, email: string, role: ProfileRole,
                  available: bool, matches: set<UserId>, now: Time, insertedAt: Time): Result<Office, ServiceError> {
    var t := office.tenant;
    if email == "" || role.Owner? then Err(Invalid)
    else
      match LockManager(seen, t, actor, profile, Some(role))
      case Err(e) => Err(e)
      case Ok(inviter) =>
        if !available then Err(Unavailable)
        else if LimitReached(t, office.rows, actor, email, now) then Err(RateLimited)
        else
          match MakeWay(t, office.rows, profile, email, matches, now)
          case Err(e) => Err(e)
          case Ok((rows, recipient)) =>
            Issue(office, rows, NewRow(profile, inviter, email, role, recipient, now, insertedAt, None))
  }

  /** The invitation a manager names, within the roles the manager may issue. */
  function LockInvitation(office: Office, seen: Tenant, actor: UserId, profile: ProfileId, id: InvitationId):
      (r: Result<MembershipId, ServiceError>)
    ensures r.Ok? ==> id < |office.rows|
  {
    match LockManager(seen, office.tenant, actor, profile, None)
    case Err(e) => Err(e)
    case Ok(manager) =>
      if id >= |office.rows| || office.rows[id].profile != profile then Err(NotFound)
      else if !CanIssue(office.tenant.memberships[manager].role, office.rows[id].role) then Err(NotFound)
      else Ok(manager)
  }

  /** The row a resend starts from: expired if overdue, then revoked if still pending. */
  function Retired(row: Invitation, now: Time, user: UserId): Invitation {
    if Overdue(row, now) then Expire(row, now) else if row.status.Pending? then Revoke(row, now, user) else row
  }

  function Resend(office: Office, seen: Tenant, actor: UserId, profile: ProfileId, id: InvitationId, available: bool,
                  matches: set<UserId>, now: Time, insertedAt: Time): Result<Office, ServiceError> {
    var t := office.tenant;
    match LockInvitation(office, seen, actor, profile, id)
    case Err(e) => Err(e)
    case Ok(manager) =>
      var row := office.rows[id];
      if !available then Err(Unavailable)
      else if !row.status.Pending? && !row.status.Expired? then Err(Conflict)
      else if exists i :: 0 <= i < |office.rows| && office.rows[i].predecessor == Some(id) then Err(Conflict)
      else if LimitReached(t, office.rows, actor, row.email, now) then Err(RateLimited)
      else
        match ResolveUnique(t, matches, row.email)
        case Err(e) => Err(e)
        case Ok(recipient) =>
          if recipient.Some? && HasActiveMembership(t, profile, recipient.value) then Err(Conflict)
          else Issue(office, office.rows[id := Retired(row, now, actor)],
                     NewRow(profile, manager, row.email, row.role, recipient, now, insertedAt, Some(id)))
  }

  // ----- ending -----

  /** A call may fail and still have expired the row it met. */
  datatype Outcome = Outcome(next: Office, error: Option<ServiceError>)

  function WithRow(office: Office, id: InvitationId, row: Invitation): Office
    requires id < |office.rows|
  {
    office.(rows := office.rows[id := row])
  }

  function RevokeInvitation(office: Office, seen: Tenant, actor: UserId, profile: ProfileId, id: InvitationId,
                            now: Time): Outcome {
    match LockInvitation(office, seen, actor, profile, id)
    case Err(e) => Outcome(office, Some(e))
    case Ok(_) =>
      var row := office.rows[id];
      if Overdue(row, now) then Outcome(WithRow(office, id, Expire(row, now)), Some(Conflict))
      else if !row.status.Pending? then Outcome(office, Some(Conflict))
      else Outcome(WithRow(office, id, Revoke(row, now, actor)), None)
  }

  /** The checks that accepting and declining share, before expiry is looked at. */
  predicate Usable(office: Office, actor: UserId, id: InvitationId, matches: set<UserId>) {
    var t := office.tenant;
    id < |office.rows|
    && (var row := office.rows[id];
        row.profile in t.profiles && t.profiles[row.profile].Active? && row.status.Pending? && row.mail.delivery.Sent?
        && ActiveUser(t, actor) && t.users[actor].email.canonical == row.email
        && ResolveUnique(t, matches, row.email) == Ok(Some(actor))
        && (row.recipient.Some? ==> row.recipient.value == actor))
  }

  predicate InviterStands(t: Tenant, row: Invitation) {
    row.inviter in t.memberships && LiveMembership(t, row.inviter, t.memberships[row.inviter].user, row.profile)
    && CanIssue(t.memberships[row.inviter].role, row.role)
  }

  /** `token` is `None` where no row carries the digest; `spare` is the fresh key of a new membership. */
  function Accept(office: Office, actor: UserId, token: Option<InvitationId>, matches: set<UserId>, now: Time,
                  spare: MembershipId): Outcome {
    if token.None? || !Usable(office, actor, token.value, matches) then Outcome(office, Some(Conflict))
    else
      var row := office.rows[token.value];
      if Overdue(row, now) then Outcome(WithRow(office, token.value, Expire(row, now)), Some(Conflict))
      else if !InviterStands(office.tenant, row) then Outcome(office, Some(Conflict))
      else
        match Admit(office.tenant, actor, row.profile, row.role, spare)
        case Err(e) => Outcome(office, Some(e))
        case Ok(tenant) =>
          var done := row.(status := Accepted, accepted := Some(Stamp(now, actor)), recipient := Some(actor));
          Outcome(WithRow(office, token.value, done).(tenant := tenant), None)
  }

  function Decline(office: Office, actor: UserId, token: Option<InvitationId>, matches: set<UserId>,
                   now: Time): Outcome {
    if token.None? || !Usable(office, actor, token.value, matches) then Outcome(office, Some(Conflict))
    else
      var row := office.rows[token.value];
      if Overdue(row, now) then Outcome(WithRow(office, token.value, Expire(row, now)), Some(Conflict))
      else
        var done := row.(status := Declined, declined := Some(Stamp(now, actor)), recipient := Some(actor));
        Outcome(WithRow(office, token.value, done), None)
  }

  // ----- delivery -----

  function ClaimDelivery(office: Office, id: InvitationId, at: Time): Office {
    if id >= |office.rows| || id >= |office.phases| then office
    else
      var row := office.rows[id];
      var (mail, phase) := Claim(row.mail, office.phases[id], row.status.Pending? && row.expiresAt > at, at);
      WithRow(office, id, row.(mail := mail)).(phases := office.phases[id := phase])
  }

  function FinishDelivery(office: Office, id: InvitationId, sent: bool, at: Time): Office {
    if id >= |office.rows| || id >= |office.phases| then office
    else
      var row := office.rows[id];
      var (mail, phase) := Finish(row.mail, office.phases[id], row.status.Pending?, sent, at);
      WithRow(office, id, row.(mail := mail)).(phases := office.phases[id := phase])
  }

  // ----- runs -----

  /** Clock reads, lookups, fresh keys and unlocked reads are whatever the call meets. */
  datatype Event =
    | OrgEvent(call: OrgCall)
    | CreateEvent(seen: Tenant, actor: UserId, profile: ProfileId, email: string, role: ProfileRole, available: bool,
                  matches: set<UserId>, now: Time, insertedAt: Time)
    | ResendEvent(seen: Tenant, actor: UserId, profile: ProfileId, id: InvitationId, available: bool,
                  matches: set<UserId>, now: Time, insertedAt: Time)
    | RevokeEvent(seen: Tenant, actor: UserId, profile: ProfileId, id: InvitationId, now: Time)
    | AcceptEvent(actor: UserId, token: Option<InvitationId>, matches: set<UserId>, now: Time, spare: MembershipId)
    | DeclineEvent(actor: UserId, token: Option<InvitationId>, matches: set<UserId>, now: Time)
    | ClaimEvent(id: InvitationId, at: Time)
    | FinishEvent(id: InvitationId, sent: bool, at: Time)

  /** The clock does not run backwards inside a call. */
  predicate Clocked(e: Event) { (e.CreateEvent? || e.ResendEvent?) ==> e.now <= e.insertedAt }

  function Kept(office: Office, r: Result<Office, ServiceError>): Office { if r.Ok? then r.value else office }

  function Step(office: Office, e: Event): Office {
    match e
    case OrgEvent(call) =>
      (match Serve(office.tenant, call)
       case Ok(tenant) => office.(tenant := tenant)
       case Err(_) => office)
    case CreateEvent(seen, actor, profile, email, role, available, matches, now, insertedAt) =>
      Kept(office, Create(office, seen, actor, profile, email, role, available, matches, now, insertedAt))
    case ResendEvent(seen, actor, profile, id, available, matches, now, insertedAt) =>
      Kept(office, Resend(office, seen, actor, profile, id, available, matches, now, insertedAt))
    case RevokeEvent(seen, actor, profile, id, now) => RevokeInvitation(office, seen, actor, profile, id, now).next
    case AcceptEvent(actor, token, matches, now, spare) => Accept(office, actor, token, matches, now, spare).next
    case DeclineEvent(actor, token, matches, now) => Decline(office, actor, token, matches, now).next
    case ClaimEvent(id, at) => ClaimDelivery(office, id, at)
    case FinishEvent(id, sent, at) => FinishDelivery(office, id, sent, at)
  }

  function Run(office: Office, events: seq<Event>): Office {
    if events == [] then office else Step(Run(office, events[..|events| - 1]), events[|events| - 1])
  }

  /** Nothing but accounts. */
  function Start(users: map<UserId, User>): Office { Office(Tenant(users, map[], map[], map[], map[]), [], []) }
}

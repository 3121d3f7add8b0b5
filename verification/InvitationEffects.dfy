/** When each invitation service succeeds, what it leaves in every column and what it answers otherwise,
    said of the rows, the roles and the clock. */
module InvitationEffects {
  import opened Prelude
  import opened Tenancy
  import opened Authority
  import opened Organisation
  import opened OrganisationInvariants
  import opened OrganisationEffects
  import opened Deliveries
  import opened Invitations
  import opened InvitationInvariants

  const ONE_HOUR: nat := 3600 * 1_000_000

  // ----- who may issue -----

  /** An Owner invites Admins and Members, an Admin only Members. */
  predicate MayInvite(role: ProfileRole, requested: ProfileRole) {
    (role == Owner && requested in {Admin, Member}) || (role == Admin && requested == Member)
  }

  /** A manager of a live Profile, seen as a member before. */
  ghost predicate Inviter(seen: Tenant, t: Tenant, actor: UserId, profile: ProfileId, id: MembershipId,
                          role: ProfileRole) {
    Live(t, profile) && ActsAs(seen, t, id, actor, profile, role) && role in {Owner, Admin}
  }

  lemma InviterLocked(seen: Tenant, t: Tenant, actor: UserId, profile: ProfileId, requested: Option<ProfileRole>,
                      id: MembershipId)
    requires UniqueActive(seen)
    ensures LockManager(seen, t, actor, profile, requested) == Ok(id)
            <==> exists role :: Inviter(seen, t, actor, profile, id, role)
                                && (requested.Some? ==> MayInvite(role, requested.value))
    ensures forall role :: Inviter(seen, t, actor, profile, id, role) && requested.Some?
                           && !MayInvite(role, requested.value) ==>
              LockManager(seen, t, actor, profile, requested) == Err(Forbidden)
  {
    var scope := ResolveProfile(seen, actor, profile);
    LookedUp(seen, id, actor, profile);
    if scope.Some? { LookedUp(seen, scope.value.membership, actor, profile); }
    if LockManager(seen, t, actor, profile, requested) == Ok(id) {
      assert Inviter(seen, t, actor, profile, id, t.memberships[id].role);
    }
  }

  /** Whoever is not seen as a member is told that there is no such Profile; a seen Member is refused. */
  ghost function Exclusion(seen: Tenant, t: Tenant, actor: UserId, profile: ProfileId): ServiceError {
    if profile !in t.profiles then NotFound
    else if (exists id :: WasHeld(seen, id, actor, profile))
            && (!Live(t, profile) || exists id :: Holds(seen, id, actor, profile, Member))
    then Forbidden else NotFound
  }

  lemma InviterDenied(seen: Tenant, t: Tenant, actor: UserId, profile: ProfileId, requested: Option<ProfileRole>)
    requires UniqueActive(seen) && forall id, role :: !Inviter(seen, t, actor, profile, id, role)
    ensures LockManager(seen, t, actor, profile, requested) == Err(Exclusion(seen, t, actor, profile))
  {
    var scope := ResolveProfile(seen, actor, profile);
    if scope.Some? {
      var id := scope.value.membership;
      LookedUp(seen, id, actor, profile);
      assert forall other :: Holds(seen, other, actor, profile, Member) ==> other == id;
      assert id in t.memberships ==> !Inviter(seen, t, actor, profile, id, t.memberships[id].role);
    }
    forall id | WasHeld(seen, id, actor, profile) ensures scope.Some? { LookedUp(seen, id, actor, profile); }
  }

  // ----- rate limits -----

  predicate SentBy(t: Tenant, row: Invitation, user: UserId) {
    row.inviter in t.memberships && t.memberships[row.inviter].user == user
  }

  function SentSince(t: Tenant, rows: seq<Invitation>, user: UserId, from: int): set<nat> {
    set i | 0 <= i < |rows| && SentBy(t, rows[i], user) && rows[i].createdAt >= from
  }

  function ReceivedSince(rows: seq<Invitation>, email: string, from: int): set<nat> {
    set i | 0 <= i < |rows| && rows[i].email == email && rows[i].createdAt >= from
  }

  lemma SentStep(t: Tenant, rows: seq<Invitation>, user: UserId, from: int)
    requires rows != []
    ensures var n := |rows| - 1;
            |SentSince(t, rows, user, from)|
            == |SentSince(t, rows[..n], user, from)|
               + if SentBy(t, rows[n], user) && rows[n].createdAt >= from then 1 else 0
  {
    var n := |rows| - 1;
    var before := SentSince(t, rows[..n], user, from);
    assert n !in before;
    assert SentSince(t, rows, user, from)
           == before + if SentBy(t, rows[n], user) && rows[n].createdAt >= from then {n} else {};
  }

  lemma ReceivedStep(rows: seq<Invitation>, email: string, from: int)
    requires rows != []
    ensures var n := |rows| - 1;
            |ReceivedSince(rows, email, from)|
            == |ReceivedSince(rows[..n], email, from)|
               + if rows[n].email == email && rows[n].createdAt >= from then 1 else 0
  {
    var n := |rows| - 1;
    var before := ReceivedSince(rows[..n], email, from);
    assert n !in before;
    assert ReceivedSince(rows, email, from)
           == before + if rows[n].email == email && rows[n].createdAt >= from then {n} else {};
  }

  lemma {:induction false} CountIs(t: Tenant, rows: seq<Invitation>, who: Counted, from: int)
    ensures CountSince(t, rows, who, from) == match who case ByInviter(user) => |SentSince(t, rows, user, from)|
                                              case ByRecipient(email) => |ReceivedSince(rows, email, from)|
  {
    if rows != [] {
      CountIs(t, rows[..|rows| - 1], who, from);
      match who
      case ByInviter(user) => SentStep(t, rows, user, from);
      case ByRecipient(email) => ReceivedStep(rows, email, from);
    }
  }

  /** In the last 24 hours fewer than 30 invitations by the actor and fewer than 5 to the address. */
  predicate UnderLimits(t: Tenant, rows: seq<Invitation>, actor: UserId, email: string, now: Time) {
    |SentSince(t, rows, actor, now - 24 * ONE_HOUR)| < 30 && |ReceivedSince(rows, email, now - 24 * ONE_HOUR)| < 5
  }

  lemma LimitsAre(t: Tenant, rows: seq<Invitation>, actor: UserId, email: string, now: Time)
    ensures LimitReached(t, rows, actor, email, now) <==> !UnderLimits(t, rows, actor, email, now)
  {
    CountIs(t, rows, ByInviter(actor), now - WINDOW);
    CountIs(t, rows, ByRecipient(email), now - WINDOW);
  }

  // ----- the account behind an address -----

  predicate Matched(t: Tenant, matches: set<UserId>, user: UserId) { user in matches && user in t.users }

  /** The only match, if its address is the one asked for. */
  ghost predicate IsRecipient(t: Tenant, matches: set<UserId>, email: string, recipient: Option<UserId>) {
    (forall u, v :: Matched(t, matches, u) && Matched(t, matches, v) ==> u == v)
    && match recipient
       case Some(u) => Matched(t, matches, u) && t.users[u].email.canonical == email
       case None => forall u :: Matched(t, matches, u) ==> t.users[u].email.canonical != email
  }

  lemma RecipientIs(t: Tenant, matches: set<UserId>, email: string, recipient: Option<UserId>)
    ensures ResolveUnique(t, matches, email) == Ok(recipient) <==> IsRecipient(t, matches, email, recipient)
    ensures ResolveUnique(t, matches, email).Err? ==> ResolveUnique(t, matches, email) == Err(Conflict)
  {
    var emails := map u | u in t.users :: t.users[u].email;
    assert emails.Keys == t.users.Keys;
    LookupIs(emails, matches, email);
    var found := matches * emails.Keys;
    assert forall u :: Matched(t, matches, u) <==> u in found;
    if IsRecipient(t, matches, email, recipient) && recipient.Some? { assert found == {recipient.value}; }
    NoneFound(emails, matches, email);
  }

  lemma NoneFound(emails: map<UserId, Email>, matches: set<UserId>, canonical: string)
    ensures UniqueMatch(emails, matches, canonical) == Ok(None) ==>
              forall u :: u in matches * emails.Keys ==> emails[u].canonical != canonical
  {
    LookupIs(emails, matches, canonical);
    forall u | UniqueMatch(emails, matches, canonical) == Ok(None) && u in matches * emails.Keys
      ensures emails[u].canonical != canonical
    {
      assert matches * emails.Keys == {u};
    }
  }

  ghost predicate Joins(t: Tenant, user: Option<UserId>, profile: ProfileId) {
    user.Some? && exists id :: IsOf(t, id, user.value, profile) && t.memberships[id].active
  }

  // ----- what stands in the way -----

  /** A waiting invitation of the Profile to the same address or the same account. */
  predicate InTheWay(row: Invitation, profile: ProfileId, email: string, recipient: Option<UserId>) {
    row.status == Pending && row.profile == profile
    && (row.email == email || (recipient.Some? && row.recipient == recipient))
  }

  predicate AllDue(rows: seq<Invitation>, profile: ProfileId, email: string, recipient: Option<UserId>, now: Time) {
    forall i :: 0 <= i < |rows| && InTheWay(rows[i], profile, email, recipient) ==> rows[i].expiresAt <= now
  }

  /** The rows in the way have expired; the others are as before. */
  predicate Cleared(rows: seq<Invitation>, later: seq<Invitation>, profile: ProfileId, email: string,
                    recipient: Option<UserId>, now: Time) {
    |later| == |rows|
    && forall i :: 0 <= i < |rows| ==>
         later[i] == if InTheWay(rows[i], profile, email, recipient)
                     then rows[i].(status := Expired, expiredAt := Some(now)) else rows[i]
  }

  /** What waits for the address makes way. */
  lemma AddressCleared(rows: seq<Invitation>, profile: ProfileId, email: string, now: Time)
    requires OnePending(rows)
    ensures var r := Clear(rows, PendingForEmail(rows, profile, email), now);
            (r.Ok? <==> AllDue(rows, profile, email, None, now)) && (r.Err? ==> r.error == Conflict)
            && (r.Ok? ==> Cleared(rows, r.value, profile, email, None, now))
  {
    var found := PendingForEmail(rows, profile, email);
    forall i | 0 <= i < |rows| && InTheWay(rows[i], profile, email, None) ensures found == Some(i) {
      AmongPendingForEmail(rows, profile, email, i);
      assert Clash(rows[i], rows[found.value]);
    }
    FoundInTheWay(rows, profile, email);
  }

  lemma FoundInTheWay(rows: seq<Invitation>, profile: ProfileId, email: string)
    ensures var found := PendingForEmail(rows, profile, email);
            found.Some? ==> InTheWay(rows[found.value], profile, email, None)
  {
  }

  predicate WaitsForUser(row: Invitation, profile: ProfileId, user: Option<UserId>) {
    row.status == Pending && row.profile == profile && user.Some? && row.recipient == user
  }

  /** What waits for the account makes way. */
  lemma AccountCleared(rows: seq<Invitation>, profile: ProfileId, user: Option<UserId>, now: Time)
    requires OnePending(rows)
    ensures var r := Clear(rows, PendingForUser(rows, profile, user), now);
            (r.Ok? <==> forall i ::
               0 <= i < |rows| && WaitsForUser(rows[i], profile, user) ==> rows[i].expiresAt <= now)
            && (r.Err? ==> r.error == Conflict)
            && (r.Ok? ==> |r.value| == |rows| && forall i :: 0 <= i < |rows| ==>
                  r.value[i] == if WaitsForUser(rows[i], profile, user)
                                then rows[i].(status := Expired, expiredAt := Some(now)) else rows[i])
  {
    var found := PendingForUser(rows, profile, user);
    forall i | 0 <= i < |rows| && WaitsForUser(rows[i], profile, user) ensures found == Some(i) {
      AmongPendingForUser(rows, profile, user, i);
      assert Clash(rows[i], rows[found.value]);
    }
    FoundForUser(rows, profile, user);
  }

  lemma FoundForUser(rows: seq<Invitation>, profile: ProfileId, user: Option<UserId>)
    ensures var found := PendingForUser(rows, profile, user);
            found.Some? ==> WaitsForUser(rows[found.value], profile, user)
  {
  }

  lemma ClearedKeepsPending(rows: seq<Invitation>, later: seq<Invitation>, profile: ProfileId, email: string, now: Time)
    requires OnePending(rows) && Cleared(rows, later, profile, email, None, now)
    ensures OnePending(later)
  {
  }

  /** Making way succeeds exactly when all that waits is due, the lookup is not ambiguous and the account is
      no member yet; then all of it has expired. */
  lemma WayIsMade(t: Tenant, rows: seq<Invitation>, profile: ProfileId, email: string, matches: set<UserId>, now: Time,
                  recipient: Option<UserId>)
    requires OnePending(rows) && IsRecipient(t, matches, email, recipient)
    ensures var r := MakeWay(t, rows, profile, email, matches, now);
            (r.Ok? <==> AllDue(rows, profile, email, recipient, now) && !Joins(t, recipient, profile))
            && (r.Err? ==> r.error == Conflict)
            && (r.Ok? ==> r.value.1 == recipient && Cleared(rows, r.value.0, profile, email, recipient, now))
  {
    RecipientIs(t, matches, email, recipient);
    AddressCleared(rows, profile, email, now);
    var first := Clear(rows, PendingForEmail(rows, profile, email), now);
    if recipient.Some? {
      assert HasActiveMembership(t, profile, recipient.value) <==> Joins(t, recipient, profile);
    }
    if first.Ok? {
      ClearedKeepsPending(rows, first.value, profile, email, now);
      AccountCleared(first.value, profile, recipient, now);
      TwiceCleared(rows, first.value, profile, email, recipient, now);
    } else {
      var i :| 0 <= i < |rows| && InTheWay(rows[i], profile, email, None) && rows[i].expiresAt > now;
      assert InTheWay(rows[i], profile, email, recipient);
    }
  }

  lemma TwiceCleared(rows: seq<Invitation>, first: seq<Invitation>, profile: ProfileId, email: string,
                     recipient: Option<UserId>, now: Time)
    requires Cleared(rows, first, profile, email, None, now) && AllDue(rows, profile, email, None, now)
    ensures AllDue(rows, profile, email, recipient, now)
            <==> forall i ::
                   0 <= i < |first| && WaitsForUser(first[i], profile, recipient) ==> first[i].expiresAt <= now
    ensures forall later: seq<Invitation> ::
              |later| == |first| && (forall i :: 0 <= i < |first| ==>
                later[i] == if WaitsForUser(first[i], profile, recipient)
                            then first[i].(status := Expired, expiredAt := Some(now)) else first[i]) ==>
              Cleared(rows, later, profile, email, recipient, now)
  {
  }

  // ----- issuing -----

  /** The row a call inserts: waiting, undelivered, and good for a week from the moment it was asked for. */
  function Fresh(profile: ProfileId, email: string, recipient: Option<UserId>, role: ProfileRole,
                 inviter: MembershipId, now: Time, insertedAt: Time, predecessor: Option<InvitationId>): Invitation {
    Invitation(profile, email, recipient, role, inviter, Pending, insertedAt, now + 168 * ONE_HOUR,
               Mail(Queued, None, None), None, None, None, None, predecessor)
  }

  /** An invitation of this kind may be issued now. */
  ghost predicate Issuable(office: Office, actor: UserId, profile: ProfileId, email: string,
                           recipient: Option<UserId>, now: Time, insertedAt: Time) {
    UnderLimits(office.tenant, office.rows, actor, email, now) && !Joins(office.tenant, recipient, profile)
    && insertedAt < now + 168 * ONE_HOUR
  }

  /** An invitation is created exactly by a manager who may give the role, within the limits, for an account
      that is no member, when all that waits for it is due. */
  lemma CreatingIs(office: Office, seen: Tenant, actor: UserId, profile: ProfileId, email: string, role: ProfileRole,
                   available: bool, matches: set<UserId>, now: Time, insertedAt: Time, through: MembershipId,
                   own: ProfileRole, recipient: Option<UserId>)
    requires UniqueActive(seen) && OnePending(office.rows) && Inviter(seen, office.tenant, actor, profile, through, own)
    requires IsRecipient(office.tenant, matches, email, recipient)
    ensures var r := Create(office, seen, actor, profile, email, role, available, matches, now, insertedAt);
            (r.Ok? <==> email != "" && MayInvite(own, role) && available
                        && Issuable(office, actor, profile, email, recipient, now, insertedAt)
                        && AllDue(office.rows, profile, email, recipient, now))
            && (r.Err? ==>
                  r.error == if email == "" || role == Owner then Invalid
                             else if !MayInvite(own, role) then Forbidden
                             else if !available then Unavailable
                             else if !UnderLimits(office.tenant, office.rows, actor, email, now) then RateLimited
                             else Conflict)
  {
    InviterLocked(seen, office.tenant, actor, profile, Some(role), through);
    LimitsAre(office.tenant, office.rows, actor, email, now);
    WayIsMade(office.tenant, office.rows, profile, email, matches, now, recipient);
    if MakeWay(office.tenant, office.rows, profile, email, matches, now).Ok? {
      MakeWaySuffices(office.tenant, office.rows, profile, through, email, role, matches, now, insertedAt);
    }
  }

  /** Nobody but a manager creates one. */
  lemma CreatingNeedsInviter(office: Office, seen: Tenant, actor: UserId, profile: ProfileId, email: string,
                             role: ProfileRole, available: bool, matches: set<UserId>, now: Time, insertedAt: Time)
    requires UniqueActive(seen) && forall m, own :: !Inviter(seen, office.tenant, actor, profile, m, own)
    ensures Create(office, seen, actor, profile, email, role, available, matches, now, insertedAt)
            == Err(if email == "" || role == Owner then Invalid else Exclusion(seen, office.tenant, actor, profile))
  {
    InviterDenied(seen, office.tenant, actor, profile, Some(role));
  }

  /** An address behind which several accounts are found gets none. */
  lemma AmbiguousAddress(office: Office, seen: Tenant, actor: UserId, profile: ProfileId, email: string,
                         role: ProfileRole, matches: set<UserId>, now: Time, insertedAt: Time, through: MembershipId,
                         own: ProfileRole)
    requires UniqueActive(seen) && Inviter(seen, office.tenant, actor, profile, through, own) && MayInvite(own, role)
    requires email != "" && UnderLimits(office.tenant, office.rows, actor, email, now)
    requires forall recipient :: !IsRecipient(office.tenant, matches, email, recipient)
    ensures Create(office, seen, actor, profile, email, role, true, matches, now, insertedAt) == Err(Conflict)
    ensures forall id: InvitationId :: Within(office, profile, id, own) && office.rows[id].email == email ==>
              Resend(office, seen, actor, profile, id, true, matches, now, insertedAt) == Err(Conflict)
  {
    InviterLocked(seen, office.tenant, actor, profile, Some(role), through);
    InviterLocked(seen, office.tenant, actor, profile, None, through);
    LimitsAre(office.tenant, office.rows, actor, email, now);
    var found := ResolveUnique(office.tenant, matches, email);
    if found.Ok? { RecipientIs(office.tenant, matches, email, found.value); }
    RecipientIs(office.tenant, matches, email, None);
  }

  /** The overdue rows in the way expire and the new row is appended with all its columns. */
  lemma CreatingTakesEffect(office: Office, seen: Tenant, actor: UserId, profile: ProfileId, email: string,
                            role: ProfileRole, available: bool, matches: set<UserId>, now: Time, insertedAt: Time,
                            next: Office)
      returns (through: MembershipId, recipient: Option<UserId>)
    requires UniqueActive(seen) && OnePending(office.rows)
    requires Create(office, seen, actor, profile, email, role, available, matches, now, insertedAt) == Ok(next)
    ensures exists own :: Inviter(seen, office.tenant, actor, profile, through, own) && MayInvite(own, role)
    ensures IsRecipient(office.tenant, matches, email, recipient)
    ensures next.tenant == office.tenant && next.phases == office.phases + [Scheduled]
    ensures |next.rows| == |office.rows| + 1
            && Cleared(office.rows, next.rows[..|office.rows|], profile, email, recipient, now)
            && next.rows[|office.rows|] == Fresh(profile, email, recipient, role, through, now, insertedAt, None)
  {
    through := LockManager(seen, office.tenant, actor, profile, Some(role)).value;
    recipient := ResolveUnique(office.tenant, matches, email).value;
    InviterLocked(seen, office.tenant, actor, profile, Some(role), through);
    RecipientIs(office.tenant, matches, email, recipient);
    WayIsMade(office.tenant, office.rows, profile, email, matches, now, recipient);
    assert next.rows[..|office.rows|] == MakeWay(office.tenant, office.rows, profile, email, matches, now).value.0;
  }

  // ----- an invitation a manager names -----

  /** The invitation is one of the Profile and offers a role the manager may give. */
  predicate Within(office: Office, profile: ProfileId, id: InvitationId, own: ProfileRole) {
    id < |office.rows| && office.rows[id].profile == profile && MayInvite(own, office.rows[id].role)
  }

  lemma InvitationLocked(office: Office, seen: Tenant, actor: UserId, profile: ProfileId, id: InvitationId,
                         through: MembershipId, own: ProfileRole)
    requires UniqueActive(seen) && Inviter(seen, office.tenant, actor, profile, through, own)
    ensures LockInvitation(office, seen, actor, profile, id)
            == if Within(office, profile, id, own) then Ok(through) else Err(NotFound)
  {
    InviterLocked(seen, office.tenant, actor, profile, None, through);
  }

  /** Nobody but a manager reaches any invitation. */
  lemma NeedsInviter(office: Office, seen: Tenant, actor: UserId, profile: ProfileId, id: InvitationId)
    requires UniqueActive(seen) && forall m, role :: !Inviter(seen, office.tenant, actor, profile, m, role)
    ensures var e := Exclusion(seen, office.tenant, actor, profile);
            (forall now :: RevokeInvitation(office, seen, actor, profile, id, now)
                           == Invitations.Outcome(office, Some(e)))
            && forall available, matches, now, insertedAt ::
                 Resend(office, seen, actor, profile, id, available, matches, now, insertedAt) == Err(e)
  {
    InviterDenied(seen, office.tenant, actor, profile, None);
  }

  // ----- replacing -----

  /** Another waiting invitation, due or not, that the replacement would clash with. */
  predicate OtherWaits(rows: seq<Invitation>, id: InvitationId, recipient: Option<UserId>)
    requires id < |rows|
  {
    exists i :: 0 <= i < |rows| && i != id && InTheWay(rows[i], rows[id].profile, rows[id].email, recipient)
  }

  predicate NeverReplaced(rows: seq<Invitation>, id: InvitationId) {
    forall i :: 0 <= i < |rows| ==> rows[i].predecessor != Some(id)
  }

  /** A waiting row expires if it is due and is revoked by the actor otherwise; an expired one stays. */
  predicate RetiredBy(before: Invitation, after: Invitation, now: Time, actor: UserId) {
    after == if before.status != Pending then before
             else if before.expiresAt <= now then before.(status := Expired, expiredAt := Some(now))
             else before.(status := Revoked, revoked := Some(Stamp(now, actor)))
  }

  lemma ReplacementFits(rows: seq<Invitation>, id: InvitationId, actor: UserId, now: Time, insertedAt: Time,
                        through: MembershipId, recipient: Option<UserId>)
    requires id < |rows| && NeverReplaced(rows, id)
    ensures var row := rows[id];
            Insertable(rows[id := Retired(row, now, actor)],
                       NewRow(row.profile, through, row.email, row.role, recipient, now, insertedAt, Some(id)))
            <==> !OtherWaits(rows, id, recipient) && insertedAt < now + 168 * ONE_HOUR
  {
    var later := rows[id := Retired(rows[id], now, actor)];
    assert forall i :: 0 <= i < |rows| ==> later[i].predecessor == rows[i].predecessor;
    assert forall i :: 0 <= i < |rows| && i != id ==> later[i] == rows[i];
  }

  /** An invitation that waits or has expired is replaced once, within the limits, unless another one waits. */
  lemma ReplacingIs(office: Office, seen: Tenant, actor: UserId, profile: ProfileId, id: InvitationId, available: bool,
                    matches: set<UserId>, now: Time, insertedAt: Time, through: MembershipId, own: ProfileRole,
                    recipient: Option<UserId>)
    requires UniqueActive(seen) && Inviter(seen, office.tenant, actor, profile, through, own)
    requires Within(office, profile, id, own)
             && IsRecipient(office.tenant, matches, office.rows[id].email, recipient)
    ensures var r := Resend(office, seen, actor, profile, id, available, matches, now, insertedAt);
            var row := office.rows[id];
            (r.Ok? <==> available && row.status in {Pending, Expired} && NeverReplaced(office.rows, id)
                        && Issuable(office, actor, profile, row.email, recipient, now, insertedAt)
                        && !OtherWaits(office.rows, id, recipient))
            && (r.Err? ==>
                  r.error == if !available then Unavailable
                             else if row.status !in {Pending, Expired} || !NeverReplaced(office.rows, id) then Conflict
                             else if !UnderLimits(office.tenant, office.rows, actor, row.email, now) then RateLimited
                             else Conflict)
  {
    InvitationLocked(office, seen, actor, profile, id, through, own);
    LimitsAre(office.tenant, office.rows, actor, office.rows[id].email, now);
    RecipientIs(office.tenant, matches, office.rows[id].email, recipient);
    if recipient.Some? {
      assert HasActiveMembership(office.tenant, profile, recipient.value) <==> Joins(office.tenant, recipient, profile);
    }
    if NeverReplaced(office.rows, id) {
      ReplacementFits(office.rows, id, actor, now, insertedAt, through, recipient);
    }
  }

  /** The replaced row ends, the new one repeats its offer and names it, and no other row changes. */
  lemma ReplacingTakesEffect(office: Office, seen: Tenant, actor: UserId, profile: ProfileId, id: InvitationId,
                             available: bool, matches: set<UserId>, now: Time, insertedAt: Time, next: Office)
      returns (through: MembershipId, recipient: Option<UserId>)
    requires UniqueActive(seen)
    requires Resend(office, seen, actor, profile, id, available, matches, now, insertedAt) == Ok(next)
    ensures exists own :: Inviter(seen, office.tenant, actor, profile, through, own) && Within(office, profile, id, own)
    ensures IsRecipient(office.tenant, matches, office.rows[id].email, recipient)
    ensures next.tenant == office.tenant && next.phases == office.phases + [Scheduled]
    ensures |next.rows| == |office.rows| + 1 && RetiredBy(office.rows[id], next.rows[id], now, actor)
            && (forall i :: 0 <= i < |office.rows| && i != id ==> next.rows[i] == office.rows[i])
            && next.rows[|office.rows|] == Fresh(profile, office.rows[id].email, recipient, office.rows[id].role,
                                                 through, now, insertedAt, Some(id))
  {
    through := LockManager(seen, office.tenant, actor, profile, None).value;
    recipient := ResolveUnique(office.tenant, matches, office.rows[id].email).value;
    InviterLocked(seen, office.tenant, actor, profile, None, through);
    RecipientIs(office.tenant, matches, office.rows[id].email, recipient);
    var own :| Inviter(seen, office.tenant, actor, profile, through, own);
    InvitationLocked(office, seen, actor, profile, id, through, own);
  }

  // ----- ending -----

  /** The state with one row replaced. */
  function With(office: Office, id: InvitationId, row: Invitation): Office
    requires id < |office.rows|
  {
    Office(office.tenant, office.rows[id := row], office.phases)
  }

  /** A waiting invitation is revoked by the actor, a due one expires although the call fails. */
  lemma RevokingIs(office: Office, seen: Tenant, actor: UserId, profile: ProfileId, id: InvitationId, now: Time,
                   through: MembershipId, own: ProfileRole)
    requires UniqueActive(seen) && Inviter(seen, office.tenant, actor, profile, through, own)
    ensures RevokeInvitation(office, seen, actor, profile, id, now)
            == if !Within(office, profile, id, own) then Invitations.Outcome(office, Some(NotFound))
               else
                 var row := office.rows[id];
                 if row.status != Pending then Invitations.Outcome(office, Some(Conflict))
                 else if row.expiresAt <= now
                 then Invitations.Outcome(With(office, id, row.(status := Expired, expiredAt := Some(now))),
                                          Some(Conflict))
                 else Invitations.Outcome(With(office, id, row.(status := Revoked,
                                                                revoked := Some(Stamp(now, actor)))), None)
  {
    InvitationLocked(office, seen, actor, profile, id, through, own);
  }

  /** A sent invitation of a live Profile that waits for the actor, whose account alone its address finds. */
  ghost predicate Addressed(office: Office, actor: UserId, id: InvitationId, matches: set<UserId>) {
    id < |office.rows|
    && var row := office.rows[id];
       Live(office.tenant, row.profile) && row.status == Pending && row.mail.delivery == Sent
       && IsActive(office.tenant, actor) && IsRecipient(office.tenant, matches, row.email, Some(actor))
       && row.recipient in {None, Some(actor)}
  }

  lemma AddressedMeans(office: Office, actor: UserId, id: InvitationId, matches: set<UserId>)
    ensures Invitations.Usable(office, actor, id, matches) <==> Addressed(office, actor, id, matches)
  {
    if id < |office.rows| { RecipientIs(office.tenant, matches, office.rows[id].email, Some(actor)); }
  }

  /** Whoever invited could still do so. */
  ghost predicate StillInvites(t: Tenant, row: Invitation) {
    exists user, role :: Holds(t, row.inviter, user, row.profile, role) && MayInvite(role, row.role)
  }

  lemma StillInvitesMeans(t: Tenant, row: Invitation)
    ensures InviterStands(t, row) <==> StillInvites(t, row)
  {
    if row.inviter in t.memberships {
      var m := t.memberships[row.inviter];
      assert InviterStands(t, row)
             <==> Holds(t, row.inviter, m.user, row.profile, m.role) && MayInvite(m.role, row.role);
    }
  }

  /** An invitation is accepted exactly by the account it waits for, in time, while the inviter could still
      give the role and the account may join in it. */
  lemma AcceptingIs(office: Office, actor: UserId, token: Option<InvitationId>, matches: set<UserId>, now: Time,
                    spare: MembershipId)
    ensures var r := Accept(office, actor, token, matches, now, spare);
            var addressed := token.Some? && Addressed(office, actor, token.value, matches);
            (r.error == None <==>
             addressed && now < office.rows[token.value].expiresAt
             && StillInvites(office.tenant, office.rows[token.value])
             && MayJoin(office.tenant, actor, office.rows[token.value].profile, office.rows[token.value].role, spare))
            && (addressed && office.rows[token.value].expiresAt <= now ==>
                  r == Invitations.Outcome(With(office, token.value, office.rows[token.value].(
                                                  status := Expired, expiredAt := Some(now))), Some(Conflict)))
            && (r.error.Some? && !(addressed && office.rows[token.value].expiresAt <= now) ==>
                  r == Invitations.Outcome(office, Some(Conflict)))
  {
    if token.Some? {
      AddressedMeans(office, actor, token.value, matches);
      if token.value < |office.rows| {
        var row := office.rows[token.value];
        StillInvitesMeans(office.tenant, row);
        JoiningIs(office.tenant, actor, row.profile, row.role, spare);
      }
    }
  }

  /** The account is a member in the role the invitation offers, without any earlier Workspace role, and the
      invitation says who accepted it and when; every other row is as before. */
  lemma AcceptingTakesEffect(office: Office, actor: UserId, token: Option<InvitationId>, matches: set<UserId>,
                             now: Time, spare: MembershipId, next: Office)
      returns (id: MembershipId)
    requires Accept(office, actor, token, matches, now, spare) == Invitations.Outcome(next, None)
    ensures token.Some? && token.value < |office.rows|
    ensures var row := office.rows[token.value];
            Joined(office.tenant, next.tenant, actor, row.profile, row.role, id)
            && (if exists m :: IsOf(office.tenant, m, actor, row.profile)
                then Returns(office.tenant, actor, row.profile, row.role, id) else id == spare)
            && next.rows == office.rows[token.value := row.(status := Accepted, accepted := Some(Stamp(now, actor)),
                                                            recipient := Some(actor))]
            && next.phases == office.phases
  {
    var row := office.rows[token.value];
    id := JoiningTakesEffect(office.tenant, actor, row.profile, row.role, spare, next.tenant);
  }

  lemma DecliningIs(office: Office, actor: UserId, token: Option<InvitationId>, matches: set<UserId>, now: Time)
    ensures Decline(office, actor, token, matches, now)
            == if token == None || !Addressed(office, actor, token.value, matches)
               then Invitations.Outcome(office, Some(Conflict))
               else
                 var row := office.rows[token.value];
                 if row.expiresAt <= now
                 then Invitations.Outcome(With(office, token.value, row.(status := Expired, expiredAt := Some(now))),
                                          Some(Conflict))
                 else Invitations.Outcome(With(office, token.value,
                                               row.(status := Declined, declined := Some(Stamp(now, actor)),
                                                    recipient := Some(actor))), None)
  {
    if token.Some? { AddressedMeans(office, actor, token.value, matches); }
  }

  // ----- delivering -----

  /** The callback claims an invitation that still waits and is not due; otherwise it is over. */
  lemma ClaimTakesEffect(office: Office, id: InvitationId, at: Time)
    requires RowsInv(office.rows, office.phases) && id < |office.rows|
    ensures var next, row := ClaimDelivery(office, id, at), office.rows[id];
            if office.phases[id] != Scheduled then next == office
            else if row.status == Pending && at < row.expiresAt
            then next == Office(office.tenant, office.rows[id := row.(mail := Mail(Queued, Some(at), None))],
                                office.phases[id := Claimed(at)])
            else next == Office(office.tenant, office.rows, office.phases[id := Done])
  {
  }

  /** A claimed delivery ends as sent or failed, if its invitation still waits. */
  lemma FinishTakesEffect(office: Office, id: InvitationId, sent: bool, at: Time)
    requires RowsInv(office.rows, office.phases) && id < |office.rows|
    ensures var next, row := FinishDelivery(office, id, sent, at), office.rows[id];
            match office.phases[id]
            case Scheduled => next == office
            case Done => next == office
            case Claimed(start) =>
              var mail := if sent then Mail(Sent, Some(start), Some(at)) else Mail(Failed, Some(start), None);
              next == Office(office.tenant,
                             if row.status == Pending then office.rows[id := row.(mail := mail)] else office.rows,
                             office.phases[id := Done])
  {
  }
}

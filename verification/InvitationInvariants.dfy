/** What every interleaving of invitation services, deliveries and organisation services keeps. */
module InvitationInvariants {
  import opened Prelude
  import opened Tenancy
  import opened Organisation
  import opened OrganisationInvariants
  import opened Deliveries
  import opened Invitations

  // ----- one row -----

  /** The timestamps say which way a row ended. */
  predicate EndsFit(row: Invitation) {
    (row.accepted.Some? <==> row.status.Accepted?) && (row.declined.Some? <==> row.status.Declined?)
    && (row.revoked.Some? <==> row.status.Revoked?) && (row.expiredAt.Some? <==> row.status.Expired?)
  }

  predicate Shape(row: Invitation) {
    EndsFit(row) && MailFits(row.mail) && (row.status.Accepted? || row.status.Declined? ==> row.mail.delivery.Sent?)
    && row.createdAt < row.expiresAt && !row.role.Owner?
  }

  predicate SameOffer(a: Invitation, b: Invitation) {
    a.profile == b.profile && a.email == b.email && a.role == b.role && a.inviter == b.inviter
    && a.createdAt == b.createdAt && a.expiresAt == b.expiresAt && a.predecessor == b.predecessor
  }

  /** A pending row may end, keeping its delivery state, or stay pending for the same account; any
      other row never changes. */
  predicate Moves(a: Invitation, b: Invitation) {
    a == b
    || (a.status.Pending? && SameOffer(a, b) && (b.status.Pending? ==> b.recipient == a.recipient)
        && (!b.status.Pending? ==> b.mail == a.mail))
  }

  // ----- all rows -----

  predicate Clash(a: Invitation, b: Invitation) {
    a.status.Pending? && b.status.Pending? && a.profile == b.profile
    && (a.email == b.email || (a.recipient.Some? && a.recipient == b.recipient))
  }

  ghost predicate OnePending(rows: seq<Invitation>) {
    forall i, j :: 0 <= i < |rows| && 0 <= j < |rows| && Clash(rows[i], rows[j]) ==> i == j
  }

  /** A replacement comes later, for the same offer, and what it replaces has ended. */
  predicate Succeeds(earlier: seq<Invitation>, row: Invitation) {
    row.predecessor.Some? ==>
      row.predecessor.value < |earlier|
      && (var prior := earlier[row.predecessor.value];
          !prior.status.Pending? && prior.profile == row.profile && prior.email == row.email && prior.role == row.role)
  }

  predicate Follows(rows: seq<Invitation>, i: nat)
    requires i < |rows|
  {
    Succeeds(rows[..i], rows[i])
  }

  ghost predicate Chained(rows: seq<Invitation>) {
    (forall i :: 0 <= i < |rows| ==> Follows(rows, i))
    && (forall i, j ::
          (0 <= i < |rows| && 0 <= j < |rows| && rows[i].predecessor.Some?
           && rows[i].predecessor == rows[j].predecessor)
          ==> i == j)
  }

  ghost predicate RowsInv(rows: seq<Invitation>, phases: seq<Phase>) {
    |phases| == |rows| && OnePending(rows) && Chained(rows)
    && forall i :: 0 <= i < |rows| ==> Shape(rows[i]) && PhaseFits(rows[i].mail, phases[i])
  }

  // ----- windows -----

  predicate InWindow(row: Invitation, start: int) { start <= row.createdAt <= start + WINDOW }

  /** The rows created in the closed 24-hour window that begins at `start`. */
  function CountWindow(t: Tenant, rows: seq<Invitation>, who: Counted, start: int): nat {
    if rows == [] then 0
    else
      var last := rows[|rows| - 1];
      CountWindow(t, rows[..|rows| - 1], who, start) + if Counts(t, last, who) && InWindow(last, start) then 1 else 0
  }

  ghost predicate RatesHeld(t: Tenant, rows: seq<Invitation>) {
    forall who: Counted, start: int :: CountWindow(t, rows, who, start) <= Limit(who)
  }

  ghost predicate Issued(t: Tenant, rows: seq<Invitation>) {
    forall i :: 0 <= i < |rows| ==> rows[i].inviter in t.memberships
  }

  lemma {:induction false} WindowWithin(t: Tenant, rows: seq<Invitation>, who: Counted, start: int, from: int)
    requires from <= start
    ensures CountWindow(t, rows, who, start) <= CountSince(t, rows, who, from)
  {
    if rows != [] { WindowWithin(t, rows[..|rows| - 1], who, start, from); }
  }

  /** A row that passed the limits fills no window beyond its limit: every earlier row of a window it
      falls in was counted, because the clock was read before the row was inserted. */
  lemma OneMoreInWindow(t: Tenant, rows: seq<Invitation>, row: Invitation, who: Counted, start: int, now: Time)
    requires CountWindow(t, rows, who, start) <= Limit(who) && now <= row.createdAt
    requires Counts(t, row, who) ==> CountSince(t, rows, who, now - WINDOW) < Limit(who)
    ensures CountWindow(t, rows + [row], who, start) <= Limit(who)
  {
    assert (rows + [row])[..|rows|] == rows;
    if Counts(t, row, who) && InWindow(row, start) { WindowWithin(t, rows, who, start, now - WINDOW); }
  }

  /** Counting looks only at what never changes about a row and a membership. */
  lemma {:induction false} SameCount(t: Tenant, rows: seq<Invitation>, next: Tenant, later: seq<Invitation>,
                                     who: Counted, start: int)
    requires Issued(t, rows) && MembershipsStay(t, next) && |later| == |rows|
    requires forall i :: 0 <= i < |rows| ==> SameOffer(rows[i], later[i])
    ensures CountWindow(next, later, who, start) == CountWindow(t, rows, who, start)
  {
    if rows != [] {
      var front, moved := rows[..|rows| - 1], later[..|rows| - 1];
      assert forall i :: 0 <= i < |front| ==> front[i] == rows[i] && moved[i] == later[i];
      SameCount(t, front, next, moved, who, start);
    }
  }

  lemma RatesStay(t: Tenant, rows: seq<Invitation>, next: Tenant, later: seq<Invitation>)
    requires Issued(t, rows) && RatesHeld(t, rows) && MembershipsStay(t, next) && |later| == |rows|
    requires forall i :: 0 <= i < |rows| ==> SameOffer(rows[i], later[i])
    ensures RatesHeld(next, later) && Issued(next, later)
  {
    forall who: Counted, start: int ensures CountWindow(next, later, who, start) <= Limit(who) {
      SameCount(t, rows, next, later, who, start);
    }
    forall i | 0 <= i < |later| ensures later[i].inviter in next.memberships { assert SameOffer(rows[i], later[i]); }
  }

  // ----- rows move -----

  ghost predicate AllMove(rows: seq<Invitation>, later: seq<Invitation>) {
    |later| == |rows| && forall i :: 0 <= i < |rows| ==> Moves(rows[i], later[i])
  }

  lemma MovesKeepPending(rows: seq<Invitation>, later: seq<Invitation>)
    requires OnePending(rows) && AllMove(rows, later)
    ensures OnePending(later)
  {
  }

  lemma MovesKeepChains(rows: seq<Invitation>, later: seq<Invitation>)
    requires Chained(rows) && AllMove(rows, later)
    ensures Chained(later)
  {
    forall i | 0 <= i < |later| ensures Follows(later, i) {
      assert Moves(rows[i], later[i]) && Follows(rows, i);
      if rows[i].predecessor.Some? { assert Moves(rows[rows[i].predecessor.value], later[rows[i].predecessor.value]); }
    }
    forall i, j | 0 <= i < |later| && 0 <= j < |later| && later[i].predecessor.Some?
        && later[i].predecessor == later[j].predecessor
      ensures i == j
    {
      assert Moves(rows[i], later[i]) && Moves(rows[j], later[j]);
    }
  }

  // ----- a row is added -----

  lemma AppendKeepsPending(rows: seq<Invitation>, row: Invitation)
    requires OnePending(rows) && Insertable(rows, row)
    ensures OnePending(rows + [row])
  {
  }

  lemma AppendKeepsChains(rows: seq<Invitation>, row: Invitation)
    requires Chained(rows) && Insertable(rows, row)
    requires Succeeds(rows, row)
    ensures Chained(rows + [row])
  {
    var more := rows + [row];
    forall i | 0 <= i < |more| ensures Follows(more, i) {
      if i < |rows| { assert Follows(rows, i); }
    }
  }

  // ----- what a call does to the rows -----

  /** Rows, phases and counts are in order. */
  ghost predicate Sound(t: Tenant, rows: seq<Invitation>, phases: seq<Phase>) {
    RowsInv(rows, phases) && RatesHeld(t, rows) && Issued(t, rows)
  }

  /** Rows stay in place; an ended one is never touched again, and no offer changes. */
  ghost predicate Endure(rows: seq<Invitation>, later: seq<Invitation>) {
    |rows| <= |later|
    && forall i :: 0 <= i < |rows| ==>
         SameOffer(rows[i], later[i]) && (!rows[i].status.Pending? ==> later[i] == rows[i])
  }

  lemma RowChanges(t: Tenant, rows: seq<Invitation>, phases: seq<Phase>, id: InvitationId, row: Invitation,
                   phase: Phase,
                   later: seq<Invitation>, laterPhases: seq<Phase>)
    requires Sound(t, rows, phases) && id < |rows| && Moves(rows[id], row) && Shape(row) && PhaseFits(row.mail, phase)
    requires later == rows[id := row] && laterPhases == phases[id := phase]
    ensures Sound(t, later, laterPhases) && Endure(rows, later)
  {
    assert AllMove(rows, later);
    MovesKeepPending(rows, later);
    MovesKeepChains(rows, later);
    RatesStay(t, rows, t, later);
  }

  /** A pending row ends and keeps its delivery state. */
  lemma RowEnds(t: Tenant, rows: seq<Invitation>, phases: seq<Phase>, id: InvitationId, row: Invitation)
    requires Sound(t, rows, phases) && id < |rows| && rows[id].status.Pending? && Moves(rows[id], row) && Shape(row)
             && !row.status.Pending?
    ensures Sound(t, rows[id := row], phases) && Endure(rows, rows[id := row])
  {
    assert phases[id := phases[id]] == phases;
    RowChanges(t, rows, phases, id, row, phases[id], rows[id := row], phases);
  }

  lemma ClearKeeps(t: Tenant, rows: seq<Invitation>, phases: seq<Phase>, found: Option<InvitationId>, now: Time)
    requires Sound(t, rows, phases) && (found.Some? ==> found.value < |rows|) && Clear(rows, found, now).Ok?
    ensures Sound(t, Clear(rows, found, now).value, phases) && Endure(rows, Clear(rows, found, now).value)
    ensures |Clear(rows, found, now).value| == |rows|
  {
    if found.Some? { RowEnds(t, rows, phases, found.value, Expire(rows[found.value], now)); }
  }

  lemma MakeWayKeeps(t: Tenant, rows: seq<Invitation>, phases: seq<Phase>, profile: ProfileId, email: string,
                     matches: set<UserId>, now: Time)
    requires Sound(t, rows, phases) && MakeWay(t, rows, profile, email, matches, now).Ok?
    ensures var later := MakeWay(t, rows, profile, email, matches, now).value.0;
            Sound(t, later, phases) && Endure(rows, later) && |later| == |rows|
  {
    var found := PendingForEmail(rows, profile, email);
    ClearKeeps(t, rows, phases, found, now);
    var cleared := Clear(rows, found, now).value;
    ClearKeeps(t, cleared, phases, PendingForUser(cleared, profile, ResolveUnique(t, matches, email).value), now);
  }

  /** What made way was all that stood in the way: only the expiry can still refuse the new row. */
  lemma MakeWaySuffices(t: Tenant, rows: seq<Invitation>, profile: ProfileId, inviter: MembershipId, email: string,
                        role: ProfileRole,
                        matches: set<UserId>, now: Time, insertedAt: Time)
    requires OnePending(rows) && MakeWay(t, rows, profile, email, matches, now).Ok?
    ensures var (later, recipient) := MakeWay(t, rows, profile, email, matches, now).value;
            var row := NewRow(profile, inviter, email, role, recipient, now, insertedAt, None);
            Insertable(later, row) <==> insertedAt < now + TTL
  {
    var byEmail := PendingForEmail(rows, profile, email);
    var cleared := Clear(rows, byEmail, now).value;
    var recipient := ResolveUnique(t, matches, email).value;
    var byUser := PendingForUser(cleared, profile, recipient);
    var (later, _) := MakeWay(t, rows, profile, email, matches, now).value;
    forall i | 0 <= i < |later| && later[i].status.Pending? && later[i].profile == profile
      ensures later[i].email != email && (recipient.Some? ==> later[i].recipient != recipient)
    {
      assert later[i] == cleared[i] == rows[i];
      AmongPendingForEmail(rows, profile, email, i);
      AmongPendingForUser(cleared, profile, recipient, i);
      assert rows[i].email == email ==> Clash(rows[i], rows[byEmail.value]);
      assert recipient.Some? && rows[i].recipient == recipient ==> Clash(rows[i], rows[byUser.value]);
    }
  }

  lemma AmongPendingForEmail(rows: seq<Invitation>, profile: ProfileId, email: string, i: nat)
    requires i < |rows|
    ensures var r := PendingForEmail(rows, profile, email);
            rows[i].profile == profile && rows[i].email == email && rows[i].status.Pending? ==>
              r.Some? && rows[r.value].profile == profile && rows[r.value].email == email
  {
    var found := set j | 0 <= j < |rows| && rows[j].profile == profile && rows[j].email == email
        && rows[j].status.Pending? :: j;
    assert rows[i].profile == profile && rows[i].email == email && rows[i].status.Pending? ==> i in found;
  }

  lemma AmongPendingForUser(rows: seq<Invitation>, profile: ProfileId, user: Option<UserId>, i: nat)
    requires i < |rows|
    ensures var r := PendingForUser(rows, profile, user);
            user.Some? && rows[i].profile == profile && rows[i].recipient == user && rows[i].status.Pending? ==>
              r.Some? && rows[r.value].profile == profile && rows[r.value].recipient == user
  {
    var found := set j | 0 <= j < |rows| && rows[j].profile == profile && rows[j].recipient == user
        && rows[j].status.Pending? :: j;
    assert rows[i].profile == profile && rows[i].recipient == user && rows[i].status.Pending? ==> i in found;
  }

  /** Adding a row that passed the limits, checked on the rows before they made way. */
  lemma RowAdded(t: Tenant, before: seq<Invitation>, rows: seq<Invitation>, phases: seq<Phase>, row: Invitation,
                 actor: UserId, now: Time)
    requires Sound(t, rows, phases) && Endure(before, rows) && |before| == |rows|
    requires Insertable(rows, row) && Shape(row) && row.mail == QUEUED && Succeeds(rows, row)
    requires now <= row.createdAt && row.inviter in t.memberships && t.memberships[row.inviter].user == actor
    requires !LimitReached(t, before, actor, row.email, now)
    ensures Sound(t, rows + [row], phases + [Scheduled]) && Endure(before, rows + [row])
  {
    AppendKeepsPending(rows, row);
    AppendKeepsChains(rows, row);
    forall who: Counted, start: int ensures CountWindow(t, rows + [row], who, start) <= Limit(who) {
      CountsAlike(t, before, rows, who, now - WINDOW);
      OneMoreInWindow(t, rows, row, who, start, now);
    }
  }

  lemma CreateKeeps(office: Office, seen: Tenant, actor: UserId, profile: ProfileId, email: string, role: ProfileRole,
                    available: bool, matches: set<UserId>, now: Time, insertedAt: Time)
    requires Sound(office.tenant, office.rows, office.phases) && now <= insertedAt
    requires Create(office, seen, actor, profile, email, role, available, matches, now, insertedAt).Ok?
    ensures var next := Create(office, seen, actor, profile, email, role, available, matches, now, insertedAt).value;
            Sound(next.tenant, next.rows, next.phases) && Endure(office.rows, next.rows) && next.tenant == office.tenant
  {
    var t := office.tenant;
    var inviter := LockManager(seen, t, actor, profile, Some(role)).value;
    MakeWayKeeps(t, office.rows, office.phases, profile, email, matches, now);
    var (rows, recipient) := MakeWay(t, office.rows, profile, email, matches, now).value;
    RowAdded(t, office.rows, rows, office.phases,
             NewRow(profile, inviter, email, role, recipient, now, insertedAt, None), actor, now);
  }

  lemma RetireKeeps(t: Tenant, rows: seq<Invitation>, phases: seq<Phase>, id: InvitationId, now: Time, actor: UserId)
    requires Sound(t, rows, phases) && id < |rows|
    ensures var later := rows[id := Retired(rows[id], now, actor)]; Sound(t, later, phases) && Endure(rows, later)
  {
    if rows[id].status.Pending? {
      RowEnds(t, rows, phases, id, Retired(rows[id], now, actor));
    } else {
      assert rows[id := rows[id]] == rows;
    }
  }

  lemma ResendKeeps(office: Office, seen: Tenant, actor: UserId, profile: ProfileId, id: InvitationId, available: bool,
                    matches: set<UserId>, now: Time, insertedAt: Time)
    requires Sound(office.tenant, office.rows, office.phases) && now <= insertedAt
    requires Resend(office, seen, actor, profile, id, available, matches, now, insertedAt).Ok?
    ensures var next := Resend(office, seen, actor, profile, id, available, matches, now, insertedAt).value;
            Sound(next.tenant, next.rows, next.phases) && Endure(office.rows, next.rows) && next.tenant == office.tenant
  {
    var t, row := office.tenant, office.rows[id];
    var manager := LockInvitation(office, seen, actor, profile, id).value;
    var recipient := ResolveUnique(t, matches, row.email).value;
    RetireKeeps(t, office.rows, office.phases, id, now, actor);
    assert Shape(row);
    RowAdded(t, office.rows, office.rows[id := Retired(row, now, actor)], office.phases,
             NewRow(profile, manager, row.email, row.role, recipient, now, insertedAt, Some(id)), actor, now);
  }

  lemma RevokeKeeps(office: Office, seen: Tenant, actor: UserId, profile: ProfileId, id: InvitationId, now: Time)
    requires Sound(office.tenant, office.rows, office.phases)
    ensures var next := RevokeInvitation(office, seen, actor, profile, id, now).next;
            Sound(next.tenant, next.rows, next.phases) && Endure(office.rows, next.rows) && next.tenant == office.tenant
  {
    if LockInvitation(office, seen, actor, profile, id).Ok? && office.rows[id].status.Pending? {
      RowEnds(office.tenant, office.rows, office.phases, id, Retired(office.rows[id], now, actor));
    }
  }

  lemma DeclineKeeps(office: Office, actor: UserId, token: Option<InvitationId>, matches: set<UserId>, now: Time)
    requires Sound(office.tenant, office.rows, office.phases)
    ensures var next := Decline(office, actor, token, matches, now).next;
            Sound(next.tenant, next.rows, next.phases) && Endure(office.rows, next.rows) && next.tenant == office.tenant
  {
    var next := Decline(office, actor, token, matches, now).next;
    if next != office { RowEnds(office.tenant, office.rows, office.phases, token.value, next.rows[token.value]); }
  }

  /** Accepting ends the row, and lets its user in, in the role offered, exactly when no error is returned. */
  lemma AcceptKeeps(office: Office, actor: UserId, token: Option<InvitationId>, matches: set<UserId>, now: Time,
                    spare: MembershipId)
      returns (id: MembershipId)
    requires Sound(office.tenant, office.rows, office.phases)
    ensures var done := Accept(office, actor, token, matches, now, spare);
            Sound(office.tenant, done.next.rows, done.next.phases) && Endure(office.rows, done.next.rows)
            && (if done.error.Some? then done.next.tenant == office.tenant
                else token.Some? && token.value < |office.rows|
                     && office.rows[token.value].profile in office.tenant.profiles
                     && Admits(office.tenant, done.next.tenant, actor, office.rows[token.value].profile, id)
                     && done.next.tenant.memberships[id].role == office.rows[token.value].role)
  {
    var done := Accept(office, actor, token, matches, now, spare);
    if done.next != office {
      RowEnds(office.tenant, office.rows, office.phases, token.value, done.next.rows[token.value]);
    }
    id := spare;
    if done.error.None? {
      var row := office.rows[token.value];
      id := AdmitMeans(office.tenant, actor, row.profile, row.role, spare);
    }
  }

  /** A delivery step moves only a pending row; afterwards it can move nothing any more. */
  lemma DeliveryKeeps(office: Office, id: InvitationId, sent: bool, at: Time)
    requires Sound(office.tenant, office.rows, office.phases)
    ensures var next := ClaimDelivery(office, id, at);
            Sound(next.tenant, next.rows, next.phases) && Endure(office.rows, next.rows) && next.tenant == office.tenant
    ensures var next := FinishDelivery(office, id, sent, at);
            Sound(next.tenant, next.rows, next.phases) && Endure(office.rows, next.rows) && next.tenant == office.tenant
  {
    if id < |office.rows| {
      var row := office.rows[id];
      DeliveryStepsFit(row.mail, office.phases[id], row.status.Pending?, row.expiresAt <= at, sent, at);
      var claimed, finished := ClaimDelivery(office, id, at), FinishDelivery(office, id, sent, at);
      RowChanges(office.tenant, office.rows, office.phases, id, claimed.rows[id], claimed.phases[id], claimed.rows,
                 claimed.phases);
      RowChanges(office.tenant, office.rows, office.phases, id, finished.rows[id], finished.phases[id], finished.rows,
                 finished.phases);
    }
  }

  // ----- runs -----

  ghost predicate OfficeInv(office: Office) {
    OrgInv(office.tenant) && Sound(office.tenant, office.rows, office.phases)
  }

  lemma SoundStays(t: Tenant, next: Tenant, rows: seq<Invitation>, phases: seq<Phase>)
    requires Sound(t, rows, phases) && MembershipsStay(t, next)
    ensures Sound(next, rows, phases)
  {
    RatesStay(t, rows, next, rows);
  }

  lemma OrgEventKeeps(office: Office, call: OrgCall)
    requires OfficeInv(office) && Serve(office.tenant, call).Ok?
    ensures OfficeInv(office.(tenant := Serve(office.tenant, call).value))
  {
    var t, next := office.tenant, Serve(office.tenant, call).value;
    ServeMeans(t, call);
    WritesKeep(t, next, call);
    WritesStay(t, next, call);
    SoundStays(t, next, office.rows, office.phases);
  }

  lemma AcceptEventKeeps(office: Office, actor: UserId, token: Option<InvitationId>, matches: set<UserId>, now: Time,
                         spare: MembershipId)
    requires OfficeInv(office)
    ensures var next := Accept(office, actor, token, matches, now, spare).next;
            OfficeInv(next) && Endure(office.rows, next.rows)
  {
    var done := Accept(office, actor, token, matches, now, spare);
    var id := AcceptKeeps(office, actor, token, matches, now, spare);
    if done.error.None? {
      var profile := office.rows[token.value].profile;
      AdmitKeeps(office.tenant, done.next.tenant, actor, profile, id);
      AdmitStays(office.tenant, done.next.tenant, actor, profile, id);
      SoundStays(office.tenant, done.next.tenant, done.next.rows, done.next.phases);
    }
  }

  lemma StepKeeps(office: Office, e: Event)
    requires OfficeInv(office) && Clocked(e)
    ensures OfficeInv(Step(office, e)) && Endure(office.rows, Step(office, e).rows)
  {
    if e.AcceptEvent? {
      AcceptEventKeeps(office, e.actor, e.token, e.matches, e.now, e.spare);
    } else if e.OrgEvent? && Serve(office.tenant, e.call).Ok? {
      OrgEventKeeps(office, e.call);
    } else {
      RowEventKeeps(office, e);
    }
  }

  lemma StepResurrectsNothing(office: Office, e: Event, w: Watch)
    requires OfficeInv(office) && Clocked(e) && NoResurrection(office.tenant, w)
    ensures NoResurrection(Step(office, e).tenant, Observe(w, office.tenant, Step(office, e).tenant))
  {
    var next := Step(office, e).tenant;
    StepKeeps(office, e);
    if e.AcceptEvent? && Accept(office, e.actor, e.token, e.matches, e.now, e.spare).error.None? {
      var id := AcceptKeeps(office, e.actor, e.token, e.matches, e.now, e.spare);
      AdmittingResurrectsNothing(office.tenant, w, next, e.actor, office.rows[e.token.value].profile, id);
    } else if e.OrgEvent? && Serve(office.tenant, e.call).Ok? {
      ServeMeans(office.tenant, e.call);
      ServingResurrectsNothing(office.tenant, w, next, e.call);
    } else {
      TenantStays(office, e);
      NothingStarts(office.tenant, w, office.tenant);
    }
  }

  lemma TenantStays(office: Office, e: Event)
    requires Sound(office.tenant, office.rows, office.phases) && Clocked(e)
    requires e.OrgEvent? ==> Serve(office.tenant, e.call).Err?
    requires e.AcceptEvent? ==> Accept(office, e.actor, e.token, e.matches, e.now, e.spare).error.Some?
    ensures Step(office, e).tenant == office.tenant
  {
    if e.AcceptEvent? {
      var _ := AcceptKeeps(office, e.actor, e.token, e.matches, e.now, e.spare);
    } else {
      RowEventKeeps(office, e);
    }
  }

  lemma RowEventKeeps(office: Office, e: Event)
    requires Sound(office.tenant, office.rows, office.phases) && Clocked(e)
    requires !e.AcceptEvent? && (e.OrgEvent? ==> Serve(office.tenant, e.call).Err?)
    ensures var next := Step(office, e);
            Sound(next.tenant, next.rows, next.phases) && Endure(office.rows, next.rows) && next.tenant == office.tenant
  {
    match e
    case OrgEvent(_) =>
    case CreateEvent(seen, actor, profile, email, role, available, matches, now, insertedAt) =>
      if Create(office, seen, actor, profile, email, role, available, matches, now, insertedAt).Ok? {
        CreateKeeps(office, seen, actor, profile, email, role, available, matches, now, insertedAt);
      }
    case ResendEvent(seen, actor, profile, id, available, matches, now, insertedAt) =>
      if Resend(office, seen, actor, profile, id, available, matches, now, insertedAt).Ok? {
        ResendKeeps(office, seen, actor, profile, id, available, matches, now, insertedAt);
      }
    case RevokeEvent(seen, actor, profile, id, now) => RevokeKeeps(office, seen, actor, profile, id, now);
    case DeclineEvent(actor, token, matches, now) => DeclineKeeps(office, actor, token, matches, now);
    case ClaimEvent(id, at) => DeliveryKeeps(office, id, false, at);
    case FinishEvent(id, sent, at) => DeliveryKeeps(office, id, sent, at);
  }

  /** The observer's notes along a run. */
  function Notes(office: Office, events: seq<Event>): Watch {
    if events == [] then Watch(0, map[], map[])
    else
      var front := events[..|events| - 1];
      Observe(Notes(office, front), Run(office, front).tenant, Run(office, events).tenant)
  }

  /** Every run, from accounts alone, keeps owners, managers and single memberships; keeps invitations
      well-shaped, unique while pending and linearly chained; exceeds no rate in any 24-hour window;
      and gives back no Workspace role by rejoining. */
  lemma {:induction false} EveryRunKeepsOffice(users: map<UserId, User>, events: seq<Event>)
    requires forall i :: 0 <= i < |events| ==> Clocked(events[i])
    ensures OfficeInv(Run(Start(users), events))
    ensures NoResurrection(Run(Start(users), events).tenant, Notes(Start(users), events))
  {
    if events != [] {
      var front := events[..|events| - 1];
      assert forall i :: 0 <= i < |front| ==> front[i] == events[i];
      EveryRunKeepsOffice(users, front);
      StepKeeps(Run(Start(users), front), events[|events| - 1]);
      StepResurrectsNothing(Run(Start(users), front), events[|events| - 1], Notes(Start(users), front));
    }
  }

  /** An ended invitation keeps every field for the rest of the run. */
  lemma {:induction false} EndedRowsStay(users: map<UserId, User>, events: seq<Event>, k: nat)
    requires k <= |events| && forall i :: 0 <= i < |events| ==> Clocked(events[i])
    ensures Endure(Run(Start(users), events[..k]).rows, Run(Start(users), events).rows)
  {
    if k == |events| {
      assert events[..k] == events;
    } else {
      var front := events[..|events| - 1];
      assert front[..k] == events[..k] && forall i :: 0 <= i < |front| ==> front[i] == events[i];
      EndedRowsStay(users, front, k);
      EveryRunKeepsOffice(users, front);
      StepKeeps(Run(Start(users), front), events[|events| - 1]);
    }
  }
}

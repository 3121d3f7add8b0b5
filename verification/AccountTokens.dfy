/** Mailed account tokens: e-mail verification and password reset, bound to the address and the
    password they were issued for, and the `User.save` that invalidates them. */
module AccountTokens {
  import opened Prelude
  import opened Tenancy
  import opened Deliveries

  type TokenId = nat

  /** An encoded password; its fingerprint is taken to identify it. */
  datatype Password = Password(encoded: nat, usable: bool)

  /** When which canonical address was verified; the two columns are set together. */
  datatype Verified = Verified(at: Time, email: string)

  datatype Account = Account(email: Email, password: Password, active: bool, verified: Option<Verified>)
  datatype Field = EmailField | PasswordField | ActiveField | VerifiedField

  datatype Purpose = EmailVerification | PasswordReset
  datatype Status = Pending | Consumed | Revoked | Expired

  datatype Token = Token(
    user: UserId, purpose: Purpose, email: string, fingerprint: Option<Password>, status: Status,
    createdAt: Time, expiresAt: Time, mail: Mail,
    consumedAt: Option<Time>, revokedAt: Option<Time>, expiredAt: Option<Time>, predecessor: Option<TokenId>)

  /** Tokens are listed in insertion order, each beside the phase of its delivery. */
  datatype Vault = Vault(accounts: map<UserId, Account>, tokens: seq<Token>, phases: seq<Phase>)

  const VERIFICATION_TTL: nat := 24 * HOUR
  const RESET_TTL: nat := HOUR

  // ----- accounts -----

  function ResolveAddress(accounts: map<UserId, Account>, matches: set<UserId>,
                          canonical: string): Result<Option<UserId>, ServiceError> {
    UniqueMatch(map u | u in accounts :: accounts[u].email, matches, canonical)
  }

  predicate IsVerified(a: Account) { a.verified.Some? && a.verified.value.email == a.email.canonical }

  /** `unique` on the address and on the verified identity. */
  predicate Distinct(a: Account, b: Account) {
    a.email.spelling != b.email.spelling
    && (a.verified.Some? && b.verified.Some? ==> a.verified.value.email != b.verified.value.email)
  }

  predicate Unique(accounts: map<UserId, Account>, id: UserId, row: Account) {
    forall other :: other in accounts && other != id ==> Distinct(row, accounts[other])
  }

  /** `update_fields`; `None` writes every column. */
  predicate Writes(fields: Option<set<Field>>, f: Field) { fields.None? || f in fields.value }

  function Overwritten(row: Account, instance: Account, fields: Option<set<Field>>): Account {
    Account(if Writes(fields, EmailField) then instance.email else row.email,
            if Writes(fields, PasswordField) then instance.password else row.password,
            if Writes(fields, ActiveField) then instance.active else row.active,
            if Writes(fields, VerifiedField) then instance.verified else row.verified)
  }

  predicate EmailChanges(row: Account, instance: Account, fields: Option<set<Field>>) {
    Writes(fields, EmailField) && row.email.canonical != instance.email.canonical
  }

  predicate PasswordChanges(row: Account, instance: Account, fields: Option<set<Field>>) {
    Writes(fields, PasswordField) && row.password != instance.password
  }

  /** A changed address is no longer verified, whether or not that column was to be written. */
  function SavedRow(row: Account, instance: Account, fields: Option<set<Field>>): Account {
    var written := Overwritten(row, instance, fields);
    if EmailChanges(row, instance, fields) then written.(verified := None) else written
  }

  // ----- tokens -----

  predicate Overdue(token: Token, now: Time) { token.status.Pending? && token.expiresAt <= now }

  function Expire(token: Token, now: Time): Token { token.(status := Expired, expiredAt := Some(now)) }

  function Revoke(token: Token, now: Time): Token { token.(status := Revoked, revokedAt := Some(now)) }

  function Consume(token: Token, now: Time): Token { token.(status := Consumed, consumedAt := Some(now)) }

  predicate Waits(token: Token, user: UserId, purposes: set<Purpose>) {
    token.user == user && token.status.Pending? && token.purpose in purposes
  }

  /** One `UPDATE` over the pending tokens of a user. */
  function Invalidate(tokens: seq<Token>, user: UserId, purposes: set<Purpose>, now: Time): (r: seq<Token>)
    ensures |r| == |tokens|
    ensures forall i :: 0 <= i < |tokens| ==>
              r[i] == if Waits(tokens[i], user, purposes) then Revoke(tokens[i], now) else tokens[i]
  {
    seq(|tokens|, i requires 0 <= i < |tokens| =>
      if Waits(tokens[i], user, purposes) then Revoke(tokens[i], now) else tokens[i])
  }

  function Invalidated(tokens: seq<Token>, user: UserId, emailChanged: bool, passwordChanged: bool, now: Time,
                       later: Time): seq<Token> {
    var first := if emailChanged then Invalidate(tokens, user, {EmailVerification, PasswordReset}, now) else tokens;
    if passwordChanged then Invalidate(first, user, {PasswordReset}, later) else first
  }

  /** `User.save` of a possibly stale instance of an existing account. */
  function SaveUser(v: Vault, id: UserId, instance: Account, fields: Option<set<Field>>, now: Time,
                    later: Time): Result<Vault, ServiceError> {
    if id !in v.accounts then Err(NotFound)
    else
      var row := v.accounts[id];
      var saved := SavedRow(row, instance, fields);
      if !Unique(v.accounts, id, saved) then Err(Conflict)
      else Ok(v.(accounts := v.accounts[id := saved],
                 tokens :=
                     Invalidated(v.tokens, id, EmailChanges(row, instance, fields),
                                 PasswordChanges(row, instance, fields), now, later)))
  }

  function SignUp(v: Vault, id: UserId, row: Account): Result<Vault, ServiceError> {
    if id in v.accounts || !Unique(v.accounts, id, row) then Err(Conflict)
        else Ok(v.(accounts := v.accounts[id := row]))
  }

  // ----- issuing -----

  function PendingOf(tokens: seq<Token>, user: UserId, purpose: Purpose): (r: Option<TokenId>)
    ensures r.Some? ==> r.value < |tokens| && Waits(tokens[r.value], user, {purpose})
    ensures r.None? ==> forall i :: 0 <= i < |tokens| ==> !Waits(tokens[i], user, {purpose})
  {
    var found := set i | 0 <= i < |tokens| && Waits(tokens[i], user, {purpose}) :: i;
    assert forall i :: 0 <= i < |tokens| && Waits(tokens[i], user, {purpose}) ==> i in found;
    First(found)
  }

  /** The constraints an inserted pending token meets; its creation time is read at the insert. */
  predicate Insertable(tokens: seq<Token>, row: Token) {
    (forall i :: 0 <= i < |tokens| ==> !Waits(tokens[i], row.user, {row.purpose}))
    && (row.predecessor.Some? ==> forall i :: 0 <= i < |tokens| ==> tokens[i].predecessor != row.predecessor)
    && row.createdAt < row.expiresAt
  }

  function Lifetime(purpose: Purpose): nat { if purpose.EmailVerification? then VERIFICATION_TTL else RESET_TTL }

  function NewToken(user: UserId, a: Account, purpose: Purpose, now: Time, insertedAt: Time,
                    previous: Option<TokenId>): Token {
    Token(user, purpose, a.email.canonical, if purpose.PasswordReset? then Some(a.password) else None, Pending,
          insertedAt, now + Lifetime(purpose), QUEUED, None, None, None, previous)
  }

  function Retired(token: Token, now: Time): Token {
    if Overdue(token, now) then Expire(token, now) else Revoke(token, now)
  }

  /** Retire the pending token of the purpose, then insert its replacement. */
  function Issue(v: Vault, user: UserId, purpose: Purpose, now: Time, insertedAt: Time): Result<Vault, ServiceError>
    requires user in v.accounts
  {
    var previous := PendingOf(v.tokens, user, purpose);
    var tokens := if previous.None? then v.tokens
        else v.tokens[previous.value := Retired(v.tokens[previous.value], now)];
    var row := NewToken(user, v.accounts[user], purpose, now, insertedAt, previous);
    if !Insertable(tokens, row) then Err(Conflict)
    else Ok(v.(tokens := tokens + [row], phases := v.phases + [Scheduled]))
  }

  function RequestVerification(v: Vault, user: UserId, matches: set<UserId>, available: bool, now: Time,
                               insertedAt: Time): Result<Vault, ServiceError> {
    if !available then Err(Unavailable)
    else if user !in v.accounts || !v.accounts[user].active
            || ResolveAddress(v.accounts, matches, v.accounts[user].email.canonical) != Ok(Some(user))
               then Err(Conflict)
    else if IsVerified(v.accounts[user]) then Ok(v)
    else Issue(v, user, EmailVerification, now, insertedAt)
  }

  /** Accounts that may reset: active, with a password, and still behind the address. */
  predicate MayReset(accounts: map<UserId, Account>, user: UserId) {
    user in accounts && accounts[user].active && accounts[user].password.usable
  }

  /** Resolved first without locks and again under them; a miss looks like success. */
  function RequestReset(seen: Vault, v: Vault, email: string, seenMatches: set<UserId>, matches: set<UserId>,
                        available: bool,
                        now: Time, insertedAt: Time): Result<Vault, ServiceError> {
    if !available then Err(Unavailable)
    else
      match ResolveAddress(seen.accounts, seenMatches, email)
      case Err(_) => Ok(v)
      case Ok(None) => Ok(v)
      case Ok(Some(user)) =>
        if !MayReset(seen.accounts, user) || !MayReset(v.accounts, user) || v.accounts[user].email.canonical != email
           || ResolveAddress(v.accounts, matches, email) != Ok(Some(user)) then Ok(v)
        else Issue(v, user, PasswordReset, now, insertedAt)
  }

  // ----- confirming -----

  /** A call may fail and still have expired the token it met. */
  datatype Outcome = Outcome(next: Vault, error: Option<ServiceError>)

  function WithToken(v: Vault, id: TokenId, token: Token): Vault
    requires id < |v.tokens|
  {
    v.(tokens := v.tokens[id := token])
  }

  predicate Candidate(v: Vault, id: TokenId, purpose: Purpose) {
    id < |v.tokens| && v.tokens[id].purpose == purpose && v.tokens[id].user in v.accounts
        && v.accounts[v.tokens[id].user].active
    && v.tokens[id].status.Pending? && v.tokens[id].mail.delivery.Sent?
  }

  predicate ValidIdentity(v: Vault, token: Token, matches: set<UserId>)
    requires token.user in v.accounts
  {
    v.accounts[token.user].email.canonical == token.email
        && ResolveAddress(v.accounts, matches, token.email) == Ok(Some(token.user))
  }

  /** `token` is `None` where no row carries the digest. */
  function ConfirmVerification(v: Vault, actor: UserId, token: Option<TokenId>, matches: set<UserId>,
                               now: Time): Outcome {
    if token.None? || !Candidate(v, token.value, EmailVerification) || v.tokens[token.value].user != actor
    then Outcome(v, Some(Conflict))
    else
      var row := v.tokens[token.value];
      if Overdue(row, now) then Outcome(WithToken(v, token.value, Expire(row, now)), Some(Conflict))
      else if !ValidIdentity(v, row, matches) then Outcome(v, Some(Conflict))
      else
        match SaveUser(v, row.user, v.accounts[row.user].(verified := Some(Verified(now, row.email))),
                       Some({VerifiedField}), now, now)
        case Err(_) => Outcome(v, Some(Conflict))
        case Ok(saved) => Outcome(WithToken(saved, token.value, Consume(row, now)), None)
  }

  /** The token is consumed before the password is saved, so that the save revokes only the others. */
  function ConfirmReset(v: Vault, token: Option<TokenId>, encoded: nat, valid: bool, matches: set<UserId>, now: Time,
                        later: Time): Outcome {
    if token.None? || !Candidate(v, token.value, PasswordReset) then Outcome(v, Some(Conflict))
    else
      var row := v.tokens[token.value];
      var a := v.accounts[row.user];
      if Overdue(row, now) then Outcome(WithToken(v, token.value, Expire(row, now)), Some(Conflict))
      else if !ValidIdentity(v, row, matches) || !a.password.usable || row.fingerprint != Some(a.password)
          then Outcome(v, Some(Conflict))
      else if !valid then Outcome(v, Some(Invalid))
      else
        match SaveUser(WithToken(v, token.value, Consume(row, now)), row.user, a.(password := Password(encoded, true)),
                       Some({PasswordField}), now, later)
        case Err(e) => Outcome(v, Some(e))
        case Ok(saved) => Outcome(saved, None)
  }

  // ----- delivery -----

  function ClaimDelivery(v: Vault, id: TokenId, at: Time): Vault {
    if id >= |v.tokens| || id >= |v.phases| then v
    else
      var row := v.tokens[id];
      var (mail, phase) := Claim(row.mail, v.phases[id], row.status.Pending? && row.expiresAt > at, at);
      WithToken(v, id, row.(mail := mail)).(phases := v.phases[id := phase])
  }

  function FinishDelivery(v: Vault, id: TokenId, sent: bool, at: Time): Vault {
    if id >= |v.tokens| || id >= |v.phases| then v
    else
      var row := v.tokens[id];
      var (mail, phase) := Finish(row.mail, v.phases[id], row.status.Pending?, sent, at);
      WithToken(v, id, row.(mail := mail)).(phases := v.phases[id := phase])
  }

  // ----- runs -----

  /** Instances, clock reads, lookups and unlocked reads are whatever the call meets. */
  datatype Event =
    | SignUpEvent(user: UserId, row: Account)
    | SaveEvent(user: UserId, row: Account, fields: Option<set<Field>>, now: Time, later: Time)
    | VerifyRequest(user: UserId, matches: set<UserId>, available: bool, now: Time, later: Time)
    | ResetRequest(seen: Vault, email: string, seenMatches: set<UserId>, matches: set<UserId>, available: bool,
                   now: Time, later: Time)
    | VerifyConfirm(actor: UserId, token: Option<TokenId>, matches: set<UserId>, now: Time)
    | ResetConfirm(token: Option<TokenId>, encoded: nat, valid: bool, matches: set<UserId>, now: Time, later: Time)
    | ClaimEvent(id: TokenId, at: Time)
    | FinishEvent(id: TokenId, sent: bool, at: Time)

  function Kept(v: Vault, r: Result<Vault, ServiceError>): Vault { if r.Ok? then r.value else v }

  function Step(v: Vault, e: Event): Vault {
    match e
    case SignUpEvent(user, row) => Kept(v, SignUp(v, user, row))
    case SaveEvent(user, row, fields, now, later) => Kept(v, SaveUser(v, user, row, fields, now, later))
    case VerifyRequest(user, matches, available, now, later) =>
      Kept(v, RequestVerification(v, user, matches, available, now, later))
    case ResetRequest(seen, email, seenMatches, matches, available, now, later) =>
      Kept(v, RequestReset(seen, v, email, seenMatches, matches, available, now, later))
    case VerifyConfirm(actor, token, matches, now) => ConfirmVerification(v, actor, token, matches, now).next
    case ResetConfirm(token, encoded, valid, matches, now, later) =>
      ConfirmReset(v, token, encoded, valid, matches, now, later).next
    case ClaimEvent(id, at) => ClaimDelivery(v, id, at)
    case FinishEvent(id, sent, at) => FinishDelivery(v, id, sent, at)
  }

  function Run(v: Vault, events: seq<Event>): Vault {
    if events == [] then v else Step(Run(v, events[..|events| - 1]), events[|events| - 1])
  }

  const NOTHING := Vault(map[], [], [])
}

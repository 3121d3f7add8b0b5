/** When saving, issuing and confirming succeed, what they leave in every column of accounts and tokens,
    and what they answer otherwise. */
module AccountEffects {
  import opened Prelude
  import opened Tenancy
  import opened Authority
  import opened Deliveries
  import opened AccountTokens
  import opened AccountInvariants

  const ONE_HOUR: nat := 3600 * 1_000_000

  // ----- saving -----

  /** A column is written from the instance if it is named or all are, and otherwise kept. */
  predicate Written<T(==)>(fields: Option<set<Field>>, f: Field, before: T, instance: T, after: T) {
    after == if fields == None || f in fields.value then instance else before
  }

  /** The new row: written columns, except that another address takes its verification away. */
  predicate SavedAs(before: Account, instance: Account, fields: Option<set<Field>>, after: Account) {
    Written(fields, EmailField, before.email, instance.email, after.email)
    && Written(fields, PasswordField, before.password, instance.password, after.password)
    && Written(fields, ActiveField, before.active, instance.active, after.active)
    && if after.email.canonical != before.email.canonical then after.verified == None
       else Written(fields, VerifiedField, before.verified, instance.verified, after.verified)
  }

  /** No other account has this spelling or this verified identity. */
  predicate Free(accounts: map<UserId, Account>, id: UserId, row: Account) {
    forall other :: other in accounts && other != id ==>
      accounts[other].email.spelling != row.email.spelling
      && (accounts[other].verified.None? || row.verified.None?
          || accounts[other].verified.value.email != row.verified.value.email)
  }

  /** Waiting tokens of the user end as revoked: all of them when the address changed, the reset tokens when
      the password changed. Every other token is as before. */
  predicate RevokedFor(tokens: seq<Token>, next: seq<Token>, id: UserId, address: bool, password: bool, now: Time,
                       later: Time) {
    |next| == |tokens|
    && forall i :: 0 <= i < |tokens| ==>
         next[i] == if tokens[i].user == id && tokens[i].status == Pending && address
                    then tokens[i].(status := Revoked, revokedAt := Some(now))
                    else if tokens[i].user == id && tokens[i].status == Pending && password
                            && tokens[i].purpose == PasswordReset
                    then tokens[i].(status := Revoked, revokedAt := Some(later))
                    else tokens[i]
  }

  lemma RevokedExactly(tokens: seq<Token>, id: UserId, address: bool, password: bool, now: Time, later: Time)
    ensures RevokedFor(tokens, Invalidated(tokens, id, address, password, now, later), id, address, password, now,
                       later)
  {
    forall i | 0 <= i < |tokens| ensures tokens[i].purpose in {EmailVerification, PasswordReset} {
      assert tokens[i].purpose.EmailVerification? || tokens[i].purpose.PasswordReset?;
    }
  }

  lemma SaveTakesEffect(v: Vault, id: UserId, instance: Account, fields: Option<set<Field>>, now: Time, later: Time,
                        next: Vault)
    requires SaveUser(v, id, instance, fields, now, later) == Ok(next)
    ensures id in v.accounts && next.accounts.Keys == v.accounts.Keys && next.phases == v.phases
    ensures SavedAs(v.accounts[id], instance, fields, next.accounts[id])
    ensures forall other :: other in v.accounts && other != id ==> next.accounts[other] == v.accounts[other]
    ensures RevokedFor(v.tokens, next.tokens, id,
                       next.accounts[id].email.canonical != v.accounts[id].email.canonical,
                       next.accounts[id].password != v.accounts[id].password, now, later)
  {
    RevokedExactly(v.tokens, id, EmailChanges(v.accounts[id], instance, fields),
                   PasswordChanges(v.accounts[id], instance, fields), now, later);
  }

  /** Saving succeeds exactly when the row exists and what is saved is free. */
  lemma SaveSucceedsWhen(v: Vault, id: UserId, instance: Account, fields: Option<set<Field>>, now: Time, later: Time,
                         row: Account)
    requires id in v.accounts ==> SavedAs(v.accounts[id], instance, fields, row)
    ensures var r := SaveUser(v, id, instance, fields, now, later);
            (r.Ok? <==> id in v.accounts && Free(v.accounts, id, row))
            && (r.Err? ==> r.error == if id in v.accounts then Conflict else NotFound)
  {
  }

  lemma SignUpIs(v: Vault, id: UserId, row: Account)
    ensures SignUp(v, id, row) == if id !in v.accounts && Free(v.accounts, id, row)
                                  then Ok(Vault(v.accounts[id := row], v.tokens, v.phases)) else Err(Conflict)
  {
  }

  // ----- looking up -----

  /** The lookup by address finds this account alone. */
  predicate Found(accounts: map<UserId, Account>, matches: set<UserId>, email: string, user: UserId) {
    user in accounts && matches * accounts.Keys == {user} && accounts[user].email.canonical == email
  }

  lemma FoundMeans(accounts: map<UserId, Account>, matches: set<UserId>, email: string, user: UserId)
    ensures ResolveAddress(accounts, matches, email) == Ok(Some(user)) <==> Found(accounts, matches, email, user)
  {
    var emails := map u | u in accounts :: accounts[u].email;
    assert emails.Keys == accounts.Keys;
    LookupIs(emails, matches, email);
  }

  // ----- issuing -----

  predicate WaitsFor(token: Token, user: UserId, purpose: Purpose) {
    token.user == user && token.purpose == purpose && token.status == Pending
  }

  /** The token that waited ends: expired if it was due, revoked otherwise. */
  predicate EndedAt(before: Token, after: Token, now: Time) {
    after == if before.expiresAt <= now then before.(status := Expired, expiredAt := Some(now))
             else before.(status := Revoked, revokedAt := Some(now))
  }

  /** A new token for the address and the password of the account, good for a day or for an hour. */
  function Fresh(user: UserId, a: Account, purpose: Purpose, now: Time, insertedAt: Time,
                 previous: Option<TokenId>): Token {
    Token(user, purpose, a.email.canonical, if purpose == PasswordReset then Some(a.password) else None, Pending,
          insertedAt, now + (if purpose == PasswordReset then ONE_HOUR else 24 * ONE_HOUR), Mail(Queued, None, None),
          None, None, None, previous)
  }

  /** Its predecessor is the token that waited until now. */
  ghost predicate Replaced(v: Vault, next: Vault, user: UserId, purpose: Purpose, now: Time, insertedAt: Time,
                           previous: Option<TokenId>) {
    user in v.accounts && next.accounts == v.accounts && next.phases == v.phases + [Scheduled]
    && |next.tokens| == |v.tokens| + 1
    && next.tokens[|v.tokens|] == Fresh(user, v.accounts[user], purpose, now, insertedAt, previous)
    && (previous.Some? ==> previous.value < |v.tokens| && WaitsFor(v.tokens[previous.value], user, purpose))
    && forall i :: 0 <= i < |v.tokens| ==>
         if previous == Some(i) then EndedAt(v.tokens[i], next.tokens[i], now)
         else next.tokens[i] == v.tokens[i] && !WaitsFor(v.tokens[i], user, purpose)
  }

  lemma OneWaits(v: Vault, user: UserId, purpose: Purpose, i: TokenId, j: TokenId)
    requires VaultInv(v) && i < |v.tokens| && j < |v.tokens|
    requires WaitsFor(v.tokens[i], user, purpose) && WaitsFor(v.tokens[j], user, purpose)
    ensures i == j
  {
  }

  /** Whichever token waited is retired, and the new one is bound to the account as it is now. */
  lemma IssueTakesEffect(v: Vault, user: UserId, purpose: Purpose, now: Time, insertedAt: Time, next: Vault)
      returns (previous: Option<TokenId>)
    requires VaultInv(v) && user in v.accounts && Issue(v, user, purpose, now, insertedAt) == Ok(next)
    ensures Replaced(v, next, user, purpose, now, insertedAt, previous)
  {
    previous := PendingOf(v.tokens, user, purpose);
    forall i | 0 <= i < |v.tokens| && previous != Some(i) ensures !WaitsFor(v.tokens[i], user, purpose) {
      if previous.Some? && WaitsFor(v.tokens[i], user, purpose) { OneWaits(v, user, purpose, i, previous.value); }
      assert WaitsFor(v.tokens[i], user, purpose) ==> Waits(v.tokens[i], user, {purpose});
    }
  }

  /** A verification is issued for an active account that its own address finds, unless it is verified. */
  lemma VerificationIsIssued(v: Vault, user: UserId, matches: set<UserId>, available: bool, now: Time, insertedAt: Time)
    requires VaultInv(v) && insertedAt < now + 24 * ONE_HOUR
    ensures var r := RequestVerification(v, user, matches, available, now, insertedAt);
            var eligible := user in v.accounts && v.accounts[user].active
                            && Found(v.accounts, matches, v.accounts[user].email.canonical, user);
            var verified := eligible && v.accounts[user].verified.Some?
                            && v.accounts[user].verified.value.email == v.accounts[user].email.canonical;
            (!available ==> r == Err(Unavailable))
            && (available && !eligible ==> r == Err(Conflict))
            && (available && verified ==> r == Ok(v))
            && (available && eligible && !verified ==>
                  r.Ok? && exists previous :: Replaced(v, r.value, user, EmailVerification, now, insertedAt, previous))
  {
    if user in v.accounts {
      FoundMeans(v.accounts, matches, v.accounts[user].email.canonical, user);
      IssueSucceedsWhen(v, user, EmailVerification, now, insertedAt);
      if Issue(v, user, EmailVerification, now, insertedAt).Ok? {
        var _ := IssueTakesEffect(v, user, EmailVerification, now, insertedAt,
                                  Issue(v, user, EmailVerification, now, insertedAt).value);
      }
    }
  }

  /** An active account with a password, behind the address. */
  predicate Resettable(v: Vault, matches: set<UserId>, email: string, user: UserId) {
    Found(v.accounts, matches, email, user) && v.accounts[user].active && v.accounts[user].password.usable
  }

  /** Both the unlocked and the locked lookup find this account, fit for a reset. */
  predicate ResetFor(seen: Vault, seenMatches: set<UserId>, v: Vault, matches: set<UserId>, email: string,
                     user: UserId) {
    Resettable(seen, seenMatches, email, user) && Resettable(v, matches, email, user)
  }

  /** Then a reset is issued to it. */
  lemma ResetIsIssued(seen: Vault, v: Vault, email: string, seenMatches: set<UserId>, matches: set<UserId>,
                      now: Time, insertedAt: Time, user: UserId)
    requires VaultInv(v) && insertedAt < now + ONE_HOUR && ResetFor(seen, seenMatches, v, matches, email, user)
    ensures var r := RequestReset(seen, v, email, seenMatches, matches, true, now, insertedAt);
            r.Ok? && exists previous :: Replaced(v, r.value, user, PasswordReset, now, insertedAt, previous)
  {
    FoundMeans(seen.accounts, seenMatches, email, user);
    FoundMeans(v.accounts, matches, email, user);
    IssueSucceedsWhen(v, user, PasswordReset, now, insertedAt);
    var _ := IssueTakesEffect(v, user, PasswordReset, now, insertedAt,
                              Issue(v, user, PasswordReset, now, insertedAt).value);
  }

  /** Otherwise nothing changes, and no error says so; a switched-off service says it always. */
  lemma ResetIsSilent(seen: Vault, v: Vault, email: string, seenMatches: set<UserId>, matches: set<UserId>,
                      available: bool, now: Time, insertedAt: Time)
    requires !available || forall user :: !ResetFor(seen, seenMatches, v, matches, email, user)
    ensures RequestReset(seen, v, email, seenMatches, matches, available, now, insertedAt)
            == if available then Ok(v) else Err(Unavailable)
  {
    var found := ResolveAddress(seen.accounts, seenMatches, email);
    if available && found.Ok? && found.value.Some? {
      FoundMeans(seen.accounts, seenMatches, email, found.value.value);
      FoundMeans(v.accounts, matches, email, found.value.value);
      assert !ResetFor(seen, seenMatches, v, matches, email, found.value.value);
    }
  }

  // ----- confirming -----

  /** A sent token of this purpose that waits, of an active account. */
  predicate Usable(v: Vault, id: TokenId, purpose: Purpose) {
    id < |v.tokens| && v.tokens[id].purpose == purpose && v.tokens[id].status == Pending
    && v.tokens[id].mail.delivery == Sent && v.tokens[id].user in v.accounts && v.accounts[v.tokens[id].user].active
  }

  /** A confirmed reset stores the chosen password, uses the token up and revokes the other reset tokens of
      the user; no other account and no other token changes. */
  lemma ResetTakesEffect(v: Vault, token: Option<TokenId>, encoded: nat, valid: bool, matches: set<UserId>, now: Time,
                         later: Time, next: Vault)
    requires VaultInv(v) && ConfirmReset(v, token, encoded, valid, matches, now, later) == Outcome(next, None)
    ensures token.Some? && token.value < |v.tokens| && v.tokens[token.value].user in v.accounts
    ensures var user := v.tokens[token.value].user;
            next.accounts == v.accounts[user := v.accounts[user].(password := Password(encoded, true))]
            && next.phases == v.phases
            && next.tokens
               == v.tokens[token.value := v.tokens[token.value].(status := Consumed, consumedAt := Some(now))]
  {
  }

  /** It happens exactly for a usable token in time, whose address finds its user, with a valid password. */
  lemma ResetIs(v: Vault, token: Option<TokenId>, encoded: nat, valid: bool, matches: set<UserId>, now: Time,
                later: Time)
    requires VaultInv(v)
    ensures var r := ConfirmReset(v, token, encoded, valid, matches, now, later);
            var usable := token.Some? && Usable(v, token.value, PasswordReset);
            var due := usable && v.tokens[token.value].expiresAt <= now;
            var found := usable && Found(v.accounts, matches, v.tokens[token.value].email, v.tokens[token.value].user);
            (r.error == None <==> usable && !due && found && valid)
            && (due ==> r == Outcome(v.(tokens := v.tokens[token.value :=
                                          v.tokens[token.value].(status := Expired, expiredAt := Some(now))]),
                                     Some(Conflict)))
            && (!usable || (!due && !found) ==> r == Outcome(v, Some(Conflict)))
            && (usable && !due && found && !valid ==> r == Outcome(v, Some(Invalid)))
  {
    if token.Some? && Usable(v, token.value, PasswordReset) {
      FoundMeans(v.accounts, matches, v.tokens[token.value].email, v.tokens[token.value].user);
    }
    ResetSucceedsWhen(v, token, encoded, valid, matches, now, later);
  }

  /** In any rows, reachable or not, a token works only while it is bound to the account as it is: a reset
      token to its address and usable password, and what is saved must be free. */
  lemma ResetChecksBinding(v: Vault, token: Option<TokenId>, encoded: nat, valid: bool, matches: set<UserId>,
                           now: Time, later: Time)
    ensures ConfirmReset(v, token, encoded, valid, matches, now, later).error == None
            <==> token.Some? && Usable(v, token.value, PasswordReset) && now < v.tokens[token.value].expiresAt && valid
                 && var row := v.tokens[token.value];
                    var a := v.accounts[row.user];
                    Found(v.accounts, matches, row.email, row.user)
                    && a.password.usable && row.fingerprint == Some(a.password)
                    && Free(v.accounts, row.user, a.(password := Password(encoded, true)))
  {
    if token.Some? && Usable(v, token.value, PasswordReset) {
      FoundMeans(v.accounts, matches, v.tokens[token.value].email, v.tokens[token.value].user);
    }
  }

  lemma VerificationChecksBinding(v: Vault, actor: UserId, token: Option<TokenId>, matches: set<UserId>, now: Time)
    ensures ConfirmVerification(v, actor, token, matches, now).error == None
            <==> token.Some? && Usable(v, token.value, EmailVerification) && now < v.tokens[token.value].expiresAt
                 && v.tokens[token.value].user == actor
                 && Found(v.accounts, matches, v.tokens[token.value].email, actor)
                 && Free(v.accounts, actor, v.accounts[actor].(verified := Some(Verified(now,
                                                                          v.tokens[token.value].email))))
  {
    if token.Some? && Usable(v, token.value, EmailVerification) {
      FoundMeans(v.accounts, matches, v.tokens[token.value].email, actor);
    }
  }

  /** A confirmed address is verified now, and only that and the token change. */
  lemma VerificationTakesEffect(v: Vault, actor: UserId, token: Option<TokenId>, matches: set<UserId>, now: Time,
                                next: Vault)
    requires VaultInv(v) && ConfirmVerification(v, actor, token, matches, now) == Outcome(next, None)
    ensures token.Some? && token.value < |v.tokens| && actor in v.accounts
    ensures next.accounts == v.accounts[actor := v.accounts[actor].(
                                          verified := Some(Verified(now, v.accounts[actor].email.canonical)))]
            && next.phases == v.phases
            && next.tokens
               == v.tokens[token.value := v.tokens[token.value].(status := Consumed, consumedAt := Some(now))]
  {
  }

  lemma VerificationIs(v: Vault, actor: UserId, token: Option<TokenId>, matches: set<UserId>, now: Time)
    requires VaultInv(v)
    ensures var r := ConfirmVerification(v, actor, token, matches, now);
            var usable := token.Some? && Usable(v, token.value, EmailVerification)
                          && v.tokens[token.value].user == actor;
            var due := usable && v.tokens[token.value].expiresAt <= now;
            (r.error == None <==>
             usable && !due && Found(v.accounts, matches, v.tokens[token.value].email, actor)
             && forall other :: other in v.accounts && other != actor && v.accounts[other].verified.Some? ==>
                  v.accounts[other].verified.value.email != v.tokens[token.value].email)
            && (due ==> r == Outcome(v.(tokens := v.tokens[token.value :=
                                          v.tokens[token.value].(status := Expired, expiredAt := Some(now))]),
                                     Some(Conflict)))
            && (r.error.Some? && !due ==> r == Outcome(v, Some(Conflict)))
  {
    if token.Some? && token.value < |v.tokens| {
      FoundMeans(v.accounts, matches, v.tokens[token.value].email, actor);
    }
    VerificationSucceedsWhen(v, actor, token, matches, now);
  }

  // ----- delivering -----

  /** The callback claims a token that still waits and is not due; otherwise it is over without an attempt. */
  lemma ClaimTakesEffect(v: Vault, id: TokenId, at: Time)
    requires VaultInv(v) && id < |v.tokens|
    ensures var next := ClaimDelivery(v, id, at);
            if v.phases[id] != Scheduled then next == v
            else if v.tokens[id].status == Pending && at < v.tokens[id].expiresAt
            then next == Vault(v.accounts, v.tokens[id := v.tokens[id].(mail := Mail(Queued, Some(at), None))],
                               v.phases[id := Claimed(at)])
            else next == Vault(v.accounts, v.tokens, v.phases[id := Done])
  {
  }

  /** A claimed delivery ends as sent or failed, with the times of the attempt and of the delivery, if its
      token still waits; a token that has ended keeps its columns. */
  lemma FinishTakesEffect(v: Vault, id: TokenId, sent: bool, at: Time)
    requires VaultInv(v) && id < |v.tokens|
    ensures var next := FinishDelivery(v, id, sent, at);
            match v.phases[id]
            case Scheduled => next == v
            case Done => next == v
            case Claimed(start) =>
              var mail := if sent then Mail(Sent, Some(start), Some(at)) else Mail(Failed, Some(start), None);
              next == Vault(v.accounts,
                            if v.tokens[id].status == Pending then v.tokens[id := v.tokens[id].(mail := mail)]
                            else v.tokens,
                            v.phases[id := Done])
  {
  }
}

/** `User.save` and the token services as they run, column by column and row by row. Each method
    leaves exactly the state its function in AccountTokens says. */
module AccountStore {
  import opened Prelude
  import opened Tenancy
  import opened Deliveries
  import opened AccountTokens
  import opened AccountInvariants

  /** A transaction: the specified next state, or the state before it. */
  predicate Committed(spec: Result<Vault, ServiceError>, before: Vault, after: Vault, error: Option<ServiceError>) {
    match spec
    case Ok(next) => after == next && error.None?
    case Err(e) => after == before && error == Some(e)
  }

  class Accounts {
    var accounts: map<UserId, Account>
    var tokens: seq<Token>
    var deliveries: seq<Phase>

    function State(): Vault reads this { Vault(accounts, tokens, deliveries) }

    ghost predicate Valid() reads this { VaultInv(State()) }

    constructor ()
      ensures State() == NOTHING && Valid()
    {
      accounts, tokens, deliveries := map[], [], [];
    }

    method Rollback(saved: Vault)
      modifies this
      ensures State() == saved
    {
      accounts, tokens, deliveries := saved.accounts, saved.tokens, saved.phases;
    }

    /** The bulk update of the pending tokens of a user. */
    method RevokePending(user: UserId, purposes: set<Purpose>, now: Time)
      modifies this`tokens
      ensures tokens == Invalidate(old(tokens), user, purposes, now)
    {
      ghost var before := tokens;
      for i := 0 to |tokens|
        invariant |tokens| == |before| && forall k :: i <= k < |before| ==> tokens[k] == before[k]
        invariant forall k :: 0 <= k < i ==>
                    tokens[k] == if Waits(before[k], user, purposes) then Revoke(before[k], now) else before[k]
      {
        if Waits(tokens[i], user, purposes) {
          tokens := tokens[i := tokens[i].(status := Revoked, revokedAt := Some(now))];
        }
      }
    }

    method Save(id: UserId, instance: Account, fields: Option<set<Field>>, now: Time, later: Time)
        returns (error: Option<ServiceError>)
      requires Valid()
      modifies this`accounts, this`tokens
      ensures Committed(SaveUser(old(State()), id, instance, fields, now, later), old(State()), State(), error)
      ensures Valid()
      ensures State() == Step(old(State()), SaveEvent(id, instance, fields, now, later))
    {
      StepKeeps(State(), SaveEvent(id, instance, fields, now, later));
      error := SaveRow(id, instance, fields, now, later);
    }

    method Register(id: UserId, row: Account) returns (error: Option<ServiceError>)
      requires Valid()
      modifies this`accounts
      ensures Committed(SignUp(old(State()), id, row), old(State()), State(), error)
      ensures Valid()
      ensures State() == Step(old(State()), SignUpEvent(id, row))
    {
      StepKeeps(State(), SignUpEvent(id, row));
      if id in accounts || !Unique(accounts, id, row) { return Some(Conflict); }
      accounts := accounts[id := row];
      return None;
    }

    /** `User.save`, also as a part of another transaction. */
    method SaveRow(id: UserId, instance: Account, fields: Option<set<Field>>, now: Time, later: Time)
        returns (error: Option<ServiceError>)
      modifies this`accounts, this`tokens
      ensures Committed(SaveUser(old(State()), id, instance, fields, now, later), old(State()), State(), error)
    {
      if id !in accounts { return Some(NotFound); }
      var previous := accounts[id];
      var emailChanged := Writes(fields, EmailField) && previous.email.canonical != instance.email.canonical;
      var passwordChanged := Writes(fields, PasswordField) && previous.password != instance.password;
      var written, columns := instance, fields;
      if emailChanged {
        written := written.(verified := None);
        if columns.Some? { columns := Some(columns.value + {VerifiedField}); }
      }
      var row := Overwritten(previous, written, columns);
      assert row == SavedRow(previous, instance, fields);
      if !Unique(accounts, id, row) { return Some(Conflict); }
      accounts := accounts[id := row];
      if emailChanged { RevokePending(id, {EmailVerification, PasswordReset}, now); }
      if passwordChanged { RevokePending(id, {PasswordReset}, later); }
      return None;
    }

    /** `_materialize_expiration`. */
    method Materialize(id: TokenId, now: Time) returns (expired: bool)
      requires id < |tokens|
      modifies this`tokens
      ensures expired == Overdue(old(tokens)[id], now)
      ensures tokens == if expired then old(tokens)[id := Expire(old(tokens)[id], now)] else old(tokens)
    {
      expired := tokens[id].status.Pending? && tokens[id].expiresAt <= now;
      if expired { tokens := tokens[id := Expire(tokens[id], now)]; }
    }

    method IssueLocked(user: UserId, purpose: Purpose, now: Time, insertedAt: Time)
        returns (error: Option<ServiceError>)
      requires user in accounts
      modifies this
      ensures Committed(Issue(old(State()), user, purpose, now, insertedAt), old(State()), State(), error)
    {
      var saved := State();
      var previous := PendingOf(tokens, user, purpose);
      if previous.Some? {
        var expired := Materialize(previous.value, now);
        if !expired { tokens := tokens[previous.value := Revoke(tokens[previous.value], now)]; }
      }
      var row := NewToken(user, accounts[user], purpose, now, insertedAt, previous);
      if !Insertable(tokens, row) {
        Rollback(saved);
        return Some(Conflict);
      }
      tokens, deliveries := tokens + [row], deliveries + [Scheduled];
      return None;
    }

    method RequestEmailVerification(user: UserId, matches: set<UserId>, available: bool, now: Time, insertedAt: Time)
        returns (error: Option<ServiceError>)
      requires Valid()
      modifies this
      ensures Committed(RequestVerification(old(State()), user, matches, available, now, insertedAt), old(State()),
                        State(), error)
      ensures Valid()
      ensures State() == Step(old(State()), VerifyRequest(user, matches, available, now, insertedAt))
    {
      StepKeeps(State(), VerifyRequest(user, matches, available, now, insertedAt));
      if !available { return Some(Unavailable); }
      if user !in accounts || !accounts[user].active { return Some(Conflict); }
      if ResolveAddress(accounts, matches, accounts[user].email.canonical) != Ok(Some(user)) { return Some(Conflict); }
      if IsVerified(accounts[user]) { return None; }
      error := IssueLocked(user, EmailVerification, now, insertedAt);
    }

    method RequestPasswordReset(seen: Vault, email: string, seenMatches: set<UserId>, matches: set<UserId>,
                                available: bool,
                                now: Time, insertedAt: Time) returns (error: Option<ServiceError>)
      requires Valid()
      modifies this
      ensures Committed(RequestReset(seen, old(State()), email, seenMatches, matches, available, now, insertedAt),
                        old(State()), State(), error)
      ensures Valid()
      ensures State() == Step(old(State()), ResetRequest(seen, email, seenMatches, matches, available, now, insertedAt))
    {
      StepKeeps(State(), ResetRequest(seen, email, seenMatches, matches, available, now, insertedAt));
      if !available { return Some(Unavailable); }
      var found := ResolveAddress(seen.accounts, seenMatches, email);
      if found.Err? || found.value.None? { return None; }
      var user := found.value.value;
      if !MayReset(seen.accounts, user) { return None; }
      if !MayReset(accounts, user) || accounts[user].email.canonical != email { return None; }
      if ResolveAddress(accounts, matches, email) != Ok(Some(user)) { return None; }
      error := IssueLocked(user, PasswordReset, now, insertedAt);
    }

    method ConfirmEmailVerification(actor: UserId, token: Option<TokenId>, matches: set<UserId>, now: Time)
        returns (error: Option<ServiceError>)
      requires Valid()
      modifies this
      ensures Outcome(State(), error) == ConfirmVerification(old(State()), actor, token, matches, now)
      ensures Valid()
      ensures State() == Step(old(State()), VerifyConfirm(actor, token, matches, now))
    {
      StepKeeps(State(), VerifyConfirm(actor, token, matches, now));
      if token.None? || !Candidate(State(), token.value, EmailVerification) { return Some(Conflict); }
      var id := token.value;
      if tokens[id].user != actor { return Some(Conflict); }
      var expired := Materialize(id, now);
      if expired { return Some(Conflict); }
      var row := tokens[id];
      if !ValidIdentity(State(), row, matches) { return Some(Conflict); }
      error := SaveRow(actor, accounts[actor].(verified := Some(Verified(now, row.email))), Some({VerifiedField}), now,
                       now);
      if error.Some? { return Some(Conflict); }
      tokens := tokens[id := Consume(row, now)];
    }

    method ConfirmPasswordReset(token: Option<TokenId>, encoded: nat, valid: bool, matches: set<UserId>, now: Time,
                                later: Time)
        returns (error: Option<ServiceError>)
      requires Valid()
      modifies this
      ensures Outcome(State(), error) == ConfirmReset(old(State()), token, encoded, valid, matches, now, later)
      ensures Valid()
      ensures State() == Step(old(State()), ResetConfirm(token, encoded, valid, matches, now, later))
    {
      StepKeeps(State(), ResetConfirm(token, encoded, valid, matches, now, later));
      var saved := State();
      if token.None? || !Candidate(State(), token.value, PasswordReset) { return Some(Conflict); }
      var id := token.value;
      var expired := Materialize(id, now);
      if expired { return Some(Conflict); }
      var row := tokens[id];
      var user := accounts[row.user];
      if !ValidIdentity(State(), row, matches) { return Some(Conflict); }
      if !user.password.usable || row.fingerprint != Some(user.password) { return Some(Conflict); }
      if !valid { return Some(Invalid); }
      tokens := tokens[id := Consume(row, now)];
      error := SaveRow(row.user, user.(password := Password(encoded, true)), Some({PasswordField}), now, later);
      if error.Some? { Rollback(saved); }
    }

    method ClaimDelivery(id: TokenId, at: Time)
      requires Valid()
      modifies this`tokens, this`deliveries
      ensures State() == AccountTokens.ClaimDelivery(old(State()), id, at)
      ensures Valid()
      ensures State() == Step(old(State()), ClaimEvent(id, at))
    {
      DeliveryKeeps(State(), id, false, at);
      if id >= |tokens| || id >= |deliveries| || !deliveries[id].Scheduled? { return; }
      var row := tokens[id];
      if row.status.Pending? && row.expiresAt > at {
        tokens := tokens[id := row.(mail := row.mail.(delivery := Queued, attemptedAt := Some(at)))];
        deliveries := deliveries[id := Claimed(at)];
      } else {
        deliveries := deliveries[id := Done];
      }
    }

    method FinishDelivery(id: TokenId, sent: bool, at: Time)
      requires Valid()
      modifies this`tokens, this`deliveries
      ensures State() == AccountTokens.FinishDelivery(old(State()), id, sent, at)
      ensures Valid()
      ensures State() == Step(old(State()), FinishEvent(id, sent, at))
    {
      DeliveryKeeps(State(), id, sent, at);
      ghost var next := AccountTokens.FinishDelivery(State(), id, sent, at);
      if id >= |tokens| || id >= |deliveries| || !deliveries[id].Claimed? { return; }
      var row, claimed := tokens[id], deliveries[id].at;
      deliveries := deliveries[id := Done];
      if row.status.Pending? {
        var mail := if sent then Mail(Sent, Some(claimed), Some(at)) else Mail(Failed, Some(claimed), None);
        tokens := tokens[id := row.(mail := mail)];
      }
      assert State() == next;
    }
  }
}

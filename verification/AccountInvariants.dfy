/** What every run of `User.save`, issue, confirm and delivery keeps about account tokens. */
module AccountInvariants {
  import opened Prelude
  import opened Tenancy
  import opened Deliveries
  import opened AccountTokens

  /** The timestamps say which way a token ended; only a delivered token was consumed. */
  predicate Shape(token: Token) {
    (token.consumedAt.Some? <==> token.status.Consumed?) && (token.revokedAt.Some? <==> token.status.Revoked?)
    && (token.expiredAt.Some? <==> token.status.Expired?) && MailFits(token.mail)
    && (token.status.Consumed? ==> token.mail.delivery.Sent?)
    && token.createdAt < token.expiresAt && (token.fingerprint.Some? <==> token.purpose.PasswordReset?)
  }

  /** A waiting token was issued for the address and the password its user has now. */
  predicate Bound(accounts: map<UserId, Account>, token: Token) {
    token.status.Pending? ==>
      token.user in accounts && token.email == accounts[token.user].email.canonical
      && (token.purpose.PasswordReset? ==>
            token.fingerprint == Some(accounts[token.user].password) && accounts[token.user].password.usable)
  }

  predicate Clash(a: Token, b: Token) {
    a.status.Pending? && b.status.Pending? && a.user == b.user && a.purpose == b.purpose
  }

  ghost predicate OnePending(tokens: seq<Token>) {
    forall i, j :: 0 <= i < |tokens| && 0 <= j < |tokens| && Clash(tokens[i], tokens[j]) ==> i == j
  }

  /** A replacement comes later, for the same user and purpose, and what it replaces has ended. */
  predicate Succeeds(earlier: seq<Token>, token: Token) {
    token.predecessor.Some? ==>
      token.predecessor.value < |earlier|
      && (var prior := earlier[token.predecessor.value];
          !prior.status.Pending? && prior.user == token.user && prior.purpose == token.purpose)
  }

  ghost predicate Chained(tokens: seq<Token>) {
    (forall i :: 0 <= i < |tokens| ==> Succeeds(tokens[..i], tokens[i]))
    && (forall i, j ::
          (0 <= i < |tokens| && 0 <= j < |tokens| && tokens[i].predecessor.Some?
           && tokens[i].predecessor == tokens[j].predecessor)
          ==> i == j)
  }

  ghost predicate TokensInv(tokens: seq<Token>, phases: seq<Phase>) {
    |phases| == |tokens| && OnePending(tokens) && Chained(tokens)
    && forall i :: 0 <= i < |tokens| ==> Shape(tokens[i]) && PhaseFits(tokens[i].mail, phases[i])
  }

  ghost predicate AllBound(accounts: map<UserId, Account>, tokens: seq<Token>) {
    forall i :: 0 <= i < |tokens| ==> Bound(accounts, tokens[i])
  }

  ghost predicate AccountsUnique(accounts: map<UserId, Account>) {
    forall id :: id in accounts ==> Unique(accounts, id, accounts[id])
  }

  ghost predicate VaultInv(v: Vault) {
    TokensInv(v.tokens, v.phases) && AllBound(v.accounts, v.tokens) && AccountsUnique(v.accounts)
  }

  // ----- tokens move -----

  predicate SameOffer(a: Token, b: Token) {
    a.user == b.user && a.purpose == b.purpose && a.email == b.email && a.fingerprint == b.fingerprint
    && a.createdAt == b.createdAt && a.expiresAt == b.expiresAt && a.predecessor == b.predecessor
  }

  /** A waiting token may end, keeping its delivery state, or go on waiting; an ended one never changes. */
  predicate Moves(a: Token, b: Token) {
    a == b || (a.status.Pending? && SameOffer(a, b) && (!b.status.Pending? ==> b.mail == a.mail))
  }

  ghost predicate AllMove(tokens: seq<Token>, later: seq<Token>) {
    |later| == |tokens| && forall i :: 0 <= i < |tokens| ==> Moves(tokens[i], later[i])
  }

  /** Tokens stay in place; an ended one is never touched again, and no binding changes. */
  ghost predicate Endure(tokens: seq<Token>, later: seq<Token>) {
    |tokens| <= |later|
    && forall i :: 0 <= i < |tokens| ==>
         SameOffer(tokens[i], later[i]) && (!tokens[i].status.Pending? ==> later[i] == tokens[i])
  }

  lemma TokenChanges(tokens: seq<Token>, phases: seq<Phase>, id: TokenId, token: Token, phase: Phase, later: seq<Token>,
                     next: seq<Phase>)
    requires TokensInv(tokens, phases) && id < |tokens| && Moves(tokens[id], token) && Shape(token)
             && PhaseFits(token.mail, phase)
    requires later == tokens[id := token] && next == phases[id := phase]
    ensures TokensInv(later, next) && Endure(tokens, later)
  {
  }

  lemma TokenEnds(tokens: seq<Token>, phases: seq<Phase>, id: TokenId, token: Token)
    requires TokensInv(tokens, phases) && id < |tokens| && Moves(tokens[id], token) && Shape(token)
             && token.mail == tokens[id].mail
    ensures TokensInv(tokens[id := token], phases) && Endure(tokens, tokens[id := token])
  {
  }

  lemma TokenAdded(tokens: seq<Token>, phases: seq<Phase>, token: Token)
    requires TokensInv(tokens, phases) && Insertable(tokens, token) && Shape(token) && token.mail == QUEUED
             && Succeeds(tokens, token)
    ensures TokensInv(tokens + [token], phases + [Scheduled]) && Endure(tokens, tokens + [token])
  {
  }

  // ----- saving a user -----

  lemma InvalidateMoves(tokens: seq<Token>, phases: seq<Phase>, user: UserId, purposes: set<Purpose>, now: Time)
    requires TokensInv(tokens, phases)
    ensures TokensInv(Invalidate(tokens, user, purposes, now), phases)
            && Endure(tokens, Invalidate(tokens, user, purposes, now))
  {
  }

  lemma EndureTwice(a: seq<Token>, b: seq<Token>, c: seq<Token>)
    requires Endure(a, b) && Endure(b, c)
    ensures Endure(a, c)
  {
  }

  lemma InvalidatedKeeps(tokens: seq<Token>, phases: seq<Phase>, user: UserId, emailChanged: bool,
                         passwordChanged: bool, now: Time, later: Time)
    requires TokensInv(tokens, phases)
    ensures var r := Invalidated(tokens, user, emailChanged, passwordChanged, now, later);
            TokensInv(r, phases) && Endure(tokens, r)
  {
    InvalidateMoves(tokens, phases, user, {EmailVerification, PasswordReset}, now);
    var first := if emailChanged then Invalidate(tokens, user, {EmailVerification, PasswordReset}, now) else tokens;
    InvalidateMoves(first, phases, user, {PasswordReset}, later);
  }

  /** Whatever is saved, tokens bound to what changed have stopped waiting. */
  lemma InvalidatedBound(accounts: map<UserId, Account>, tokens: seq<Token>, id: UserId, saved: Account,
                         emailChanged: bool, passwordChanged: bool, now: Time, later: Time, i: nat)
    requires id in accounts && i < |tokens| && Bound(accounts, tokens[i])
    requires !emailChanged ==> saved.email.canonical == accounts[id].email.canonical
    requires !passwordChanged ==> saved.password == accounts[id].password
    ensures Bound(accounts[id := saved], Invalidated(tokens, id, emailChanged, passwordChanged, now, later)[i])
  {
  }

  lemma SaveKeeps(v: Vault, id: UserId, instance: Account, fields: Option<set<Field>>, now: Time, later: Time)
    requires VaultInv(v) && SaveUser(v, id, instance, fields, now, later).Ok?
    ensures var next := SaveUser(v, id, instance, fields, now, later).value;
            VaultInv(next) && Endure(v.tokens, next.tokens) && next.phases == v.phases
  {
    var row := v.accounts[id];
    var saved := SavedRow(row, instance, fields);
    var email, password := EmailChanges(row, instance, fields), PasswordChanges(row, instance, fields);
    InvalidatedKeeps(v.tokens, v.phases, id, email, password, now, later);
    var next := SaveUser(v, id, instance, fields, now, later).value;
    forall i | 0 <= i < |next.tokens| ensures Bound(next.accounts, next.tokens[i]) {
      InvalidatedBound(v.accounts, v.tokens, id, saved, email, password, now, later, i);
    }
    StillUnique(v.accounts, id, saved);
  }

  lemma StillUnique(accounts: map<UserId, Account>, id: UserId, row: Account)
    requires AccountsUnique(accounts) && Unique(accounts, id, row)
    ensures AccountsUnique(accounts[id := row])
  {
  }

  // ----- issuing -----

  lemma IssueKeeps(v: Vault, user: UserId, purpose: Purpose, now: Time, insertedAt: Time)
    requires VaultInv(v) && user in v.accounts && (purpose.PasswordReset? ==> v.accounts[user].password.usable)
    requires Issue(v, user, purpose, now, insertedAt).Ok?
    ensures var next := Issue(v, user, purpose, now, insertedAt).value;
            VaultInv(next) && Endure(v.tokens, next.tokens)
  {
    var previous := PendingOf(v.tokens, user, purpose);
    var row := NewToken(user, v.accounts[user], purpose, now, insertedAt, previous);
    var tokens := Rotated(v.tokens, previous, now);
    RotatedKeeps(v, user, purpose, now);
    TokenAdded(tokens, v.phases, row);
    EndureTwice(v.tokens, tokens, tokens + [row]);
  }

  function Rotated(tokens: seq<Token>, previous: Option<TokenId>, now: Time): seq<Token>
    requires previous.Some? ==> previous.value < |tokens|
  {
    if previous.None? then tokens else tokens[previous.value := Retired(tokens[previous.value], now)]
  }

  lemma RotatedKeeps(v: Vault, user: UserId, purpose: Purpose, now: Time)
    requires VaultInv(v)
    ensures var later := Rotated(v.tokens, PendingOf(v.tokens, user, purpose), now);
            TokensInv(later, v.phases) && Endure(v.tokens, later) && AllBound(v.accounts, later)
  {
    var previous := PendingOf(v.tokens, user, purpose);
    if previous.Some? {
      TokenEnds(v.tokens, v.phases, previous.value, Retired(v.tokens[previous.value], now));
    }
  }

  /** The one pending token makes way and was never replaced before, so no constraint but the expiry
      can refuse the replacement. */
  lemma IssueSucceedsWhen(v: Vault, user: UserId, purpose: Purpose, now: Time, insertedAt: Time)
    requires VaultInv(v) && user in v.accounts
    ensures Issue(v, user, purpose, now, insertedAt).Ok? <==> insertedAt < now + Lifetime(purpose)
  {
  }

  // ----- confirming -----

  lemma VerificationKeeps(v: Vault, actor: UserId, token: Option<TokenId>, matches: set<UserId>, now: Time)
    requires VaultInv(v)
    ensures var next := ConfirmVerification(v, actor, token, matches, now).next;
            VaultInv(next) && Endure(v.tokens, next.tokens)
  {
    var done := ConfirmVerification(v, actor, token, matches, now);
    if done.next != v {
      var id := token.value;
      if done.error.Some? {
        TokenEnds(v.tokens, v.phases, id, Expire(v.tokens[id], now));
      } else {
        var a := v.accounts[v.tokens[id].user].(verified := Some(Verified(now, v.tokens[id].email)));
        SaveKeeps(v, v.tokens[id].user, a, Some({VerifiedField}), now, now);
        TokenEnds(v.tokens, v.phases, id, Consume(v.tokens[id], now));
      }
    }
  }

  lemma ResetKeeps(v: Vault, token: Option<TokenId>, encoded: nat, valid: bool, matches: set<UserId>, now: Time,
                   later: Time)
    requires VaultInv(v)
    ensures var next := ConfirmReset(v, token, encoded, valid, matches, now, later).next;
            VaultInv(next) && Endure(v.tokens, next.tokens)
  {
    var done := ConfirmReset(v, token, encoded, valid, matches, now, later);
    if done.next != v {
      var id := token.value;
      if done.error.Some? {
        TokenEnds(v.tokens, v.phases, id, Expire(v.tokens[id], now));
      } else {
        var row := v.tokens[id];
        var consumed := WithToken(v, id, Consume(row, now));
        TokenEnds(v.tokens, v.phases, id, Consume(row, now));
        SaveKeeps(consumed, row.user, v.accounts[row.user].(password := Password(encoded, true)), Some({PasswordField}),
                  now, later);
        EndureTwice(v.tokens, consumed.tokens, done.next.tokens);
      }
    }
  }

  lemma DeliveryKeeps(v: Vault, id: TokenId, sent: bool, at: Time)
    requires VaultInv(v)
    ensures VaultInv(ClaimDelivery(v, id, at)) && Endure(v.tokens, ClaimDelivery(v, id, at).tokens)
    ensures VaultInv(FinishDelivery(v, id, sent, at)) && Endure(v.tokens, FinishDelivery(v, id, sent, at).tokens)
  {
    if id < |v.tokens| {
      var row := v.tokens[id];
      DeliveryStepsFit(row.mail, v.phases[id], row.status.Pending?, row.expiresAt <= at, sent, at);
      var claimed, finished := ClaimDelivery(v, id, at), FinishDelivery(v, id, sent, at);
      TokenChanges(v.tokens, v.phases, id, claimed.tokens[id], claimed.phases[id], claimed.tokens, claimed.phases);
      TokenChanges(v.tokens, v.phases, id, finished.tokens[id], finished.phases[id], finished.tokens, finished.phases);
    }
  }

  // ----- runs -----

  lemma StepKeeps(v: Vault, e: Event)
    requires VaultInv(v)
    ensures VaultInv(Step(v, e)) && Endure(v.tokens, Step(v, e).tokens)
  {
    match e
    case SignUpEvent(user, row) =>
      if SignUp(v, user, row).Ok? { StillUnique(v.accounts, user, row); }
    case SaveEvent(user, row, fields, now, later) =>
      if SaveUser(v, user, row, fields, now, later).Ok? { SaveKeeps(v, user, row, fields, now, later); }
    case VerifyRequest(user, matches, available, now, later) =>
      if Step(v, e) != v { IssueKeeps(v, user, EmailVerification, now, later); }
    case ResetRequest(seen, email, seenMatches, matches, available, now, later) =>
      if Step(v, e) != v {
        IssueKeeps(v, ResolveAddress(seen.accounts, seenMatches, email).value.value, PasswordReset, now, later);
      }
    case VerifyConfirm(actor, token, matches, now) => VerificationKeeps(v, actor, token, matches, now);
    case ResetConfirm(token, encoded, valid, matches, now, later) =>
      ResetKeeps(v, token, encoded, valid, matches, now, later);
    case ClaimEvent(id, at) => DeliveryKeeps(v, id, false, at);
    case FinishEvent(id, sent, at) => DeliveryKeeps(v, id, sent, at);
  }

  /** In every run each waiting token is bound to the current address and password of its user, at
      most one waits per user and purpose, tokens are well-shaped and replacements form chains. */
  lemma {:induction false} EveryRunKeepsVault(v: Vault, events: seq<Event>)
    requires VaultInv(v)
    ensures VaultInv(Run(v, events)) && Endure(v.tokens, Run(v, events).tokens)
  {
    if events != [] {
      var front := events[..|events| - 1];
      EveryRunKeepsVault(v, front);
      StepKeeps(Run(v, front), events[|events| - 1]);
      EndureTwice(v.tokens, Run(v, front).tokens, Run(v, events).tokens);
    }
  }

  lemma NothingIsFine()
    ensures VaultInv(NOTHING)
  {
  }

  // ----- confirming never fails on the bindings -----

  /** A reset succeeds exactly for a delivered token that still waits, of an active account the lookup
      resolves, with a valid password: the comparisons with the address, with the fingerprint and with
      a usable password decide nothing, and neither does saving. */
  lemma ResetSucceedsWhen(v: Vault, token: Option<TokenId>, encoded: nat, valid: bool, matches: set<UserId>, now: Time,
                          later: Time)
    requires VaultInv(v)
    ensures ConfirmReset(v, token, encoded, valid, matches, now, later).error.None? <==>
            token.Some? && Candidate(v, token.value, PasswordReset) && !Overdue(v.tokens[token.value], now)
            && ResolveAddress(v.accounts, matches, v.tokens[token.value].email) == Ok(Some(v.tokens[token.value].user))
            && valid
  {
  }

  /** A verification also needs that nobody else has verified the address. */
  lemma VerificationSucceedsWhen(v: Vault, actor: UserId, token: Option<TokenId>, matches: set<UserId>, now: Time)
    requires VaultInv(v)
    ensures ConfirmVerification(v, actor, token, matches, now).error.None? <==>
            token.Some? && Candidate(v, token.value, EmailVerification) && !Overdue(v.tokens[token.value], now)
            && v.tokens[token.value].user == actor
            && ResolveAddress(v.accounts, matches, v.tokens[token.value].email) == Ok(Some(actor))
            && forall other :: other in v.accounts && other != actor && v.accounts[other].verified.Some? ==>
                 v.accounts[other].verified.value.email != v.tokens[token.value].email
    ensures var done := ConfirmVerification(v, actor, token, matches, now);
            done.error.None? ==> actor in done.next.accounts && IsVerified(done.next.accounts[actor])
  {
  }

  /** After a completed reset, in whatever follows, no reset token issued before it can be used. */
  lemma ResetEndsEarlierTokens(v: Vault, token: Option<TokenId>, encoded: nat, valid: bool, matches: set<UserId>,
                               now: Time, later: Time,
                               events: seq<Event>, i: TokenId)
    requires VaultInv(v) && ConfirmReset(v, token, encoded, valid, matches, now, later).error.None?
    requires i < |v.tokens| && v.tokens[i].purpose.PasswordReset? && v.tokens[i].user == v.tokens[token.value].user
    ensures !Candidate(Run(ConfirmReset(v, token, encoded, valid, matches, now, later).next, events), i, PasswordReset)
  {
    var next := ConfirmReset(v, token, encoded, valid, matches, now, later).next;
    ResetKeeps(v, token, encoded, valid, matches, now, later);
    EveryRunKeepsVault(next, events);
    assert v.tokens[i].status.Pending? ==> Clash(v.tokens[i], v.tokens[token.value]);
    assert !next.tokens[i].status.Pending?;
  }
}

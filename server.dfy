/**
 * The HTTP front-end's bet endpoint (`POST /api/bet`, server.py:172-234): validate the
 * JSON body, then run the stake transaction. Unlike the bot, the bet endpoint never
 * creates a user; only `upsert_user` does. The other endpoints are in Queries, Leaderboard and `Ledger.UpsertUser`.
 */
module Server {
  import opened Wrappers
  import opened Config
  import opened Records
  import opened MarketEngine
  import opened Accounts
  import opened Admission
  import opened Requests
  import opened Store
  import Bot

  /** `place_bet` on a body with fields `user_id`, `direction` and `amount` (absent fields are `None`/`JNull`). */
  function PlaceBetTx(db: LedgerState, userId: Option<UserId>, direction: Json, amount: Json): (res: (BetOutcome, LedgerState))
    ensures res.0.Rejected? ==> res.1 == db
    ensures res.0.Placed? ==> ValidateBody(userId, direction, amount).Ok?
    ensures res.1.markets == db.markets && res.1.users.Keys == db.users.Keys
    ensures ValidateBody(userId, direction, amount).Failure? ==>
      res == (Rejected(ValidateBody(userId, direction, amount).error), db)
    ensures ValidateBody(userId, direction, amount).Ok? ==>
      var v := ValidateBody(userId, direction, amount).value;
      res == StakeTx(db, v.0, v.1, v.2)
  {
    match ValidateBody(userId, direction, amount)
    case Failure(e) => (Rejected(e), db)
    case Ok((u, dir, a)) => StakeTx(db, u, dir, a)
  }

  /**
   * The API's checks in order: the body first, with no write at all, then the market,
   * the user, the balance and the duplicate rule; any rejection leaves the ledger as it
   * was, and an unknown user is refused rather than created.
   */
  lemma PlaceBetChecks(db: LedgerState, userId: Option<UserId>, direction: Json, amount: Json)
    ensures var (o, r) := PlaceBetTx(db, userId, direction, amount);
      var v := ValidateBody(userId, direction, amount);
      && (o.Rejected? ==> r == db)
      && (v.Failure? ==> o == Rejected(v.error))
      && (v.Ok? ==>
            var u := v.value.0;
            var open := LastOpen(db.markets);
            && (o == Rejected(NoMarket) <==> open.None?)
            && (o == Rejected(UnknownUser) <==> open.Some? && u !in db.users)
            && (o == Rejected(InsufficientFunds) <==> open.Some? && u in db.users && db.users[u].coins < v.value.2)
            && (o == Rejected(DuplicateBet) <==>
                  open.Some? && u in db.users && v.value.2 <= db.users[u].coins &&
                  exists k :: 0 <= k < |db.bets| && IsPendingOf(db.bets[k], u, open.value))
            && (o.Placed? <==>
                  open.Some? && u in db.users && v.value.2 <= db.users[u].coins &&
                  !exists k :: 0 <= k < |db.bets| && IsPendingOf(db.bets[k], u, open.value))
            && (o.Placed? || o.reason in {NoMarket, UnknownUser, InsufficientFunds, DuplicateBet}))
      && r.users.Keys == db.users.Keys
  {
    var v := ValidateBody(userId, direction, amount);
    if v.Ok? {
      var (u, dir, a) := v.value;
      StakeChecks(db, u, dir, a);
      if StakeTx(db, u, dir, a).0.Placed? {
        StakeDebitsOnce(db, u, dir, a);
      }
    }
  }

  /**
   * A placed API bet debits exactly the validated stake, appends one unresolved bet on the
   * OPEN market, and reports `new_balance` and `potential_payout`.
   */
  lemma PlaceBetPlaced(db: LedgerState, userId: Option<UserId>, direction: Json, amount: Json)
    requires PlaceBetTx(db, userId, direction, amount).0.Placed?
    ensures ValidateBody(userId, direction, amount).Ok? && LastOpen(db.markets).Some?
    ensures var (o, r) := PlaceBetTx(db, userId, direction, amount);
      var (u, dir, a) := ValidateBody(userId, direction, amount).value;
      && u in db.users && u in r.users && r.users[u].coins == db.users[u].coins - a >= 0
      && r.bets == db.bets + [Bet(u, LastOpen(db.markets).value, dir, a, false)]
      && o == Placed(db.users[u].coins - a, a * WIN_MULTIPLIER)
  {
    var (u, dir, a) := ValidateBody(userId, direction, amount).value;
    StakeDebitsOnce(db, u, dir, a);
  }

  lemma PlaceBetInv(db: LedgerState, userId: Option<UserId>, direction: Json, amount: Json)
    requires Inv(db)
    ensures Inv(PlaceBetTx(db, userId, direction, amount).1)
  {
    var v := ValidateBody(userId, direction, amount);
    if v.Ok? {
      var (u, dir, a) := v.value;
      StakeInv(db, u, dir, a);
    }
  }

  /**
   * A first-time player with an OPEN market: the API refuses them as unknown and writes
   * nothing, while `/bet` registers them with 0 coins and then refuses for lack of funds.
   */
  lemma NewPlayerOnBothFrontEnds(db: LedgerState, user: Bot.TelegramUser, d: Direction, a: int)
    requires LastOpen(db.markets).Some? && user.id !in db.users && user.id != 0
    requires MIN_BET_AMOUNT <= a <= MAX_BET_AMOUNT
    ensures PlaceBetTx(db, Some(user.id), JStr(DirectionName(d)), JInt(a)) == (Rejected(UnknownUser), db)
    ensures var (o, r) := Bot.BetCommandTx(false, db, user.id, Bot.DisplayName(user), [DirectionName(d), Text.DecimalString(a)]);
      o == Rejected(InsufficientFunds) && user.id in r.users && r.users[user.id].coins == 0
  {
    FrontEndsAgree(user.id, d, a);
  }

  /** `place_bet` as one transaction on the shared ledger. */
  method PlaceBet(ledger: Ledger, userId: Option<UserId>, direction: Json, amount: Json) returns (outcome: BetOutcome)
    requires ledger.Valid()
    modifies ledger
    ensures ledger.Valid()
    ensures (outcome, ledger.State()) == PlaceBetTx(old(ledger.State()), userId, direction, amount)
  {
    var v := ValidateBody(userId, direction, amount);
    if v.Failure? {
      return Rejected(v.error);
    }
    var (u, dir, a) := v.value;
    outcome := ledger.Stake(u, dir, a);
  }
}

/**
 * The Telegram front-end's ledger logic: the `/bet` command (bot.py:297-390) and the
 * daily-reward reaction handler (bot.py:428-460). Each handler is a pure transition
 * over the ledger, and a method that drives the rate limiter and the `Ledger` object
 * the way the handler does, proved to produce that transition.
 */
module Bot {
  import opened Wrappers
  import opened Config
  import opened Records
  import opened MarketEngine
  import opened Accounts
  import opened Admission
  import opened RateLimit
  import opened Requests
  import opened Store

  /** The parts of a Telegram user the handlers read. */
  datatype TelegramUser = TelegramUser(id: UserId, username: Option<string>, firstName: string, isBot: bool)

  /** `user.username or user.first_name`: an absent or empty username falls back to the first name. */
  function DisplayName(user: TelegramUser): (name: string)
    ensures user.username.Some? && user.username.value != "" ==> name == user.username.value
    ensures user.username.None? || user.username.value == "" ==> name == user.firstName
  {
    match user.username
    case Some(n) => if n != "" then n else user.firstName
    case None => user.firstName
  }

  /**
   * `/bet` once the rate limiter has answered `limited`: refuse when limited, then
   * validate the arguments, and only then open the transaction that ensures the user
   * and stakes.
   */
  function BetCommandTx(limited: bool, db: LedgerState, u: UserId, name: string, args: seq<string>): (res: (BetOutcome, LedgerState))
    ensures limited ==> res == (Rejected(RateLimited), db)
    ensures res.0.Placed? ==> !limited && ParseCommand(args).Ok? && u in res.1.users
    ensures res.1.markets == db.markets && res.1.snapshot == db.snapshot
    ensures !limited && ParseCommand(args).Failure? ==> res == (Rejected(ParseCommand(args).error), db)
    ensures !limited && ParseCommand(args).Ok? ==>
      res == StakeTx(EnsureUserTx(db, u, name), u, ParseCommand(args).value.0, ParseCommand(args).value.1)
  {
    if limited then (Rejected(RateLimited), db)
    else
      match ParseCommand(args)
      case Failure(e) => (Rejected(e), db)
      case Ok((dir, amount)) => StakeTx(EnsureUserTx(db, u, name), u, dir, amount)
  }

  /**
   * The checks of `/bet` in order: the rate limit, then the arguments, then the market,
   * the balance and the duplicate rule. The user always exists by the time the ledger is
   * checked, so "unknown user" never happens. A refusal before the transaction writes
   * nothing; a refusal inside it keeps only the `ensure_user` write; no refusal changes a
   * balance or a bet.
   */
  lemma BetCommandChecks(limited: bool, db: LedgerState, u: UserId, name: string, args: seq<string>)
    ensures var (o, r) := BetCommandTx(limited, db, u, name, args);
      && (limited ==> o == Rejected(RateLimited) && r == db)
      && (!limited && ParseCommand(args).Failure? ==> o == Rejected(ParseCommand(args).error) && r == db)
      && o != Rejected(UnknownUser)
      && (o.Rejected? && !limited && ParseCommand(args).Ok? ==>
            o.reason in {NoMarket, InsufficientFunds, DuplicateBet} && r == EnsureUserTx(db, u, name))
      && (!limited && ParseCommand(args).Ok? ==>
            var a := ParseCommand(args).value.1;
            var open := LastOpen(db.markets);
            var coins := if u in db.users then db.users[u].coins else 0;
            var pending := open.Some? && exists k :: 0 <= k < |db.bets| && IsPendingOf(db.bets[k], u, open.value);
            && (o == Rejected(NoMarket) <==> open.None?)
            && (o == Rejected(InsufficientFunds) <==> open.Some? && coins < a)
            && (o == Rejected(DuplicateBet) <==> open.Some? && a <= coins && pending)
            && (o.Placed? <==> open.Some? && a <= coins && !pending))
      && (o.Rejected? ==>
            && r.bets == db.bets && r.markets == db.markets
            && forall v :: v in db.users ==> v in r.users && r.users[v].coins == db.users[v].coins)
  {
    if !limited && ParseCommand(args).Ok? {
      var (dir, amount) := ParseCommand(args).value;
      StakeChecks(EnsureUserTx(db, u, name), u, dir, amount);
    }
  }

  /**
   * A placed `/bet` debits exactly the parsed stake from a balance that covered it (a new
   * user starts from 0), appends one unresolved bet on the OPEN market and reports the new
   * balance and twice the stake.
   */
  lemma BetCommandPlaced(db: LedgerState, u: UserId, name: string, args: seq<string>)
    requires BetCommandTx(false, db, u, name, args).0.Placed?
    ensures ParseCommand(args).Ok? && LastOpen(db.markets).Some?
    ensures var (o, r) := BetCommandTx(false, db, u, name, args);
      var (dir, amount) := ParseCommand(args).value;
      var coins := if u in db.users then db.users[u].coins else 0;
      && u in r.users && r.users[u].coins == coins - amount >= 0
      && r.bets == db.bets + [Bet(u, LastOpen(db.markets).value, dir, amount, false)]
      && o == Placed(coins - amount, amount * WIN_MULTIPLIER)
  {
    var (dir, amount) := ParseCommand(args).value;
    StakeDebitsOnce(EnsureUserTx(db, u, name), u, dir, amount);
  }

  lemma BetCommandInv(limited: bool, db: LedgerState, u: UserId, name: string, args: seq<string>)
    requires Inv(db)
    ensures Inv(BetCommandTx(limited, db, u, name, args).1)
  {
    if !limited && ParseCommand(args).Ok? {
      var (dir, amount) := ParseCommand(args).value;
      EnsureUserInv(db, u, name);
      StakeInv(EnsureUserTx(db, u, name), u, dir, amount);
    }
  }

  /** `cmd_bet`: the rate limiter first, then the arguments, then one locked ledger transaction. */
  method CmdBet(limiter: RateLimiter, ledger: Ledger, user: TelegramUser, args: seq<string>, now: int)
    returns (outcome: BetOutcome)
    requires limiter.Valid() && ledger.Valid()
    modifies limiter, ledger
    ensures limiter.Valid() && ledger.Valid()
    ensures limiter.buckets == old(limiter.buckets)[user.id := Attempt(Bucket(old(limiter.buckets), user.id), now).1]
    ensures (outcome, ledger.State()) ==
      BetCommandTx(Attempt(Bucket(old(limiter.buckets), user.id), now).0, old(ledger.State()), user.id, DisplayName(user), args)
  {
    var limited := limiter.IsRateLimited(user.id, now);
    if limited {
      return Rejected(RateLimited);
    }
    var parsed := ParseCommand(args);
    if parsed.Failure? {
      return Rejected(parsed.error);
    }
    var (dir, amount) := parsed.value;
    ledger.EnsureUser(user.id, DisplayName(user));
    outcome := ledger.Stake(user.id, dir, amount);
  }

  /** The parts of a `message_reaction` update the handler reads. */
  datatype ReactionUpdate = ReactionUpdate(hasNewReaction: bool, messageId: int, user: Option<TelegramUser>)

  /** Whether Python treats the configured reward message id as set (`None` and 0 are not). */
  predicate Configured(rewardMessage: Option<int>)
  {
    rewardMessage.Some? && rewardMessage.value != 0
  }

  /** Whether the handler stops before touching the ledger. */
  predicate Ignored(rewardMessage: Option<int>, ev: Option<ReactionUpdate>)
  {
    || ev.None?
    || !ev.value.hasNewReaction
    || (Configured(rewardMessage) && ev.value.messageId != rewardMessage.value)
    || ev.value.user.None?
    || ev.value.user.value.isBot
  }

  /**
   * `on_reaction` on day `today`: ignore removed reactions, reactions to another message
   * when a reward message is configured, and reactions without a user or from a bot;
   * otherwise claim the daily reward.
   */
  function ReactionTx(rewardMessage: Option<int>, ev: Option<ReactionUpdate>, db: LedgerState, today: int): (res: (Option<int>, LedgerState))
    ensures res.1.markets == db.markets && res.1.bets == db.bets && res.1.snapshot == db.snapshot
    ensures res.0.Some? ==>
      && ev.Some? && ev.value.hasNewReaction && ev.value.user.Some? && !ev.value.user.value.isBot
      && ev.value.user.value.id in res.1.users && res.1.users[ev.value.user.value.id].coins == res.0.value
  {
    if ev.None? || !ev.value.hasNewReaction then (None, db)
    else if Configured(rewardMessage) && ev.value.messageId != rewardMessage.value then (None, db)
    else if ev.value.user.None? || ev.value.user.value.isBot then (None, db)
    else
      var user := ev.value.user.value;
      ClaimTx(db, user.id, DisplayName(user), today)
  }

  /**
   * An ignored reaction changes nothing. Any other reaction rewards only the reacting
   * user, by exactly the daily amount and only if they have not claimed today; no bet
   * and no market changes.
   */
  lemma ReactionEffect(rewardMessage: Option<int>, ev: Option<ReactionUpdate>, db: LedgerState, today: int)
    ensures var (granted, r) := ReactionTx(rewardMessage, ev, db, today);
      && (Ignored(rewardMessage, ev) ==> granted.None? && r == db)
      && r.bets == db.bets && r.markets == db.markets && r.snapshot == db.snapshot
      && (forall v :: v in db.users && (Ignored(rewardMessage, ev) || v != ev.value.user.value.id) ==>
            v in r.users && r.users[v].coins == db.users[v].coins)
      && (!Ignored(rewardMessage, ev) ==>
            var u := ev.value.user.value.id;
            var was := if u in db.users then db.users[u].coins else 0;
            && u in r.users
            && (granted.Some? <==> !(u in db.users && db.users[u].lastDaily == Some(today)))
            && r.users[u].coins == was + (if granted.Some? then DAILY_REWARD_AMOUNT else 0)
            && r.users[u].lastDaily == (if granted.Some? then Some(today) else db.users[u].lastDaily))
  {
    if !Ignored(rewardMessage, ev) {
      var user := ev.value.user.value;
      ClaimEffect(db, user.id, DisplayName(user), today);
    }
  }

  /** Reacting a second time on the same day grants nothing and changes nothing. */
  lemma ReactionOncePerDay(rewardMessage: Option<int>, ev: Option<ReactionUpdate>, db: LedgerState, today: int)
    ensures var r := ReactionTx(rewardMessage, ev, db, today).1;
      ReactionTx(rewardMessage, ev, r, today) == (None, r)
  {
    if !Ignored(rewardMessage, ev) {
      var user := ev.value.user.value;
      ClaimIdempotent(db, user.id, DisplayName(user), today);
    }
  }

  lemma ReactionInv(rewardMessage: Option<int>, ev: Option<ReactionUpdate>, db: LedgerState, today: int)
    requires Inv(db)
    ensures Inv(ReactionTx(rewardMessage, ev, db, today).1)
  {
    if !Ignored(rewardMessage, ev) {
      var user := ev.value.user.value;
      ClaimInv(db, user.id, DisplayName(user), today);
    }
  }

  /** `on_reaction`: the filters, then one locked ledger transaction. */
  method OnReaction(ledger: Ledger, rewardMessage: Option<int>, ev: Option<ReactionUpdate>, today: int)
    returns (granted: Option<int>)
    requires ledger.Valid()
    modifies ledger
    ensures ledger.Valid()
    ensures (granted, ledger.State()) == ReactionTx(rewardMessage, ev, old(ledger.State()), today)
  {
    if ev.None? || !ev.value.hasNewReaction {
      return None;
    }
    if Configured(rewardMessage) && ev.value.messageId != rewardMessage.value {
      return None;
    }
    if ev.value.user.None? || ev.value.user.value.isBot {
      return None;
    }
    var user := ev.value.user.value;
    granted := ledger.ClaimDaily(user.id, DisplayName(user), today);
  }
}

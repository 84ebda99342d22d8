/**
 * The SQLite database both processes open (bot.py:53-100, server.py:33-38), as an object
 * whose four tables are fields the transactions update in place. Every method runs one
 * transaction of the source and is proved to leave the tables exactly as the pure
 * transition of the same name in MarketEngine, Accounts or Admission says, which is where
 * the properties of the transitions are proved.
 */
module Store {
  import opened Wrappers
  import opened Config
  import opened Records
  import opened Calendar
  import opened MarketEngine
  import opened Accounts
  import opened Admission

  /** One more iteration of the tie loop refunds the next bet's stake. */
  lemma RefundStep(us: map<UserId, User>, ps: seq<Bet>, i: nat, open: Price, close: Price)
    requires i < |ps| && IsTie(open, close)
    ensures Settle(us, ps[..i + 1], open, close) == Credit(Settle(us, ps[..i], open, close), ps[i].user, ps[i].amount)
  {
    assert ps[..i + 1][..i] == ps[..i];
  }

  /** One more iteration of the win/loss loop pays the next bet twice its stake if it is on the winning side. */
  lemma PayStep(us: map<UserId, User>, ps: seq<Bet>, i: nat, open: Price, close: Price)
    requires i < |ps| && !IsTie(open, close)
    ensures var prior := Settle(us, ps[..i], open, close);
      Settle(us, ps[..i + 1], open, close) ==
        if ps[i].direction == WinningSide(open, close) then Credit(prior, ps[i].user, ps[i].amount * WIN_MULTIPLIER) else prior
  {
    assert ps[..i + 1][..i] == ps[..i];
  }

  class Ledger {
    var users: map<UserId, User>
    var markets: seq<Market>
    var bets: seq<Bet>
    var snapshot: map<UserId, WeekEntry>

    /** The four tables as one value. */
    function State(): LedgerState
      reads this
    {
      LedgerState(users, markets, bets, snapshot)
    }

    ghost predicate Valid()
      reads this
    {
      Inv(State())
    }

    /** `init_db` on a fresh file: four empty tables. */
    constructor ()
      ensures Valid() && State() == EmptyLedger()
    {
      users := map[];
      markets := [];
      bets := [];
      snapshot := map[];
    }

    /** `ensure_user`: insert the user with 0 coins unless present, then refresh the name. */
    method EnsureUser(u: UserId, name: string)
      requires Valid()
      modifies this
      ensures Valid() && State() == EnsureUserTx(old(State()), u, name)
    {
      EnsureUserInv(State(), u, name);
      if u !in users {
        users := users[u := User(name, 0, None)];
      }
      users := users[u := users[u].(name := name)];
    }

    /** `open_new_market` with the oracle's answer `price`, when no market is OPEN. */
    method OpenNewMarket(price: Option<Price>, now: int)
      requires Valid() && LastOpen(markets).None?
      modifies this
      ensures Valid() && State() == OpenTx(old(State()), price, now)
      ensures price.Some? ==> LastOpen(markets) == Some(|markets| - 1)
    {
      OpenTxInv(State(), price, now);
      if price.None? {
        return;
      }
      markets := markets + [NewMarket(price.value, now)];
    }

    /**
     * `resolve_market` with the close price `close` and the price `reopen` the second
     * oracle call returns: close the newest OPEN market, refund every pending bet on a
     * tie or pay each bet on the winning side twice its stake, resolve the market's bets
     * and open the next market.
     */
    method ResolveMarket(close: Option<Price>, reopen: Option<Price>, now: int)
      requires Valid()
      modifies this
      ensures Valid() && State() == ResolveTx(old(State()), close, reopen, now)
    {
      if close.None? {
        return;
      }
      var c := close.value;
      var open := LastOpen(markets);
      if open.None? {
        OpenNewMarket(reopen, now);
        return;
      }
      var m := open.value;
      ghost var before := State();
      var openPrice := markets[m].openPrice;
      var isTie := IsTie(openPrice, c);
      markets := markets[m := markets[m].(closePrice := Some(c), closeTime := now, status := Closed)];
      var allBets := Pending(bets, m);
      if isTie {
        RefundAll(allBets, openPrice, c);
      } else {
        PayWinners(allBets, openPrice, c);
      }
      bets := MarkResolved(bets, m);
      assert State() == CloseTx(before, m, c, now);
      CloseTxInv(before, m, c, now);
      OpenNewMarket(reopen, now);
    }

    /** The tie branch of `resolve_market`: credit every pending bet its stake back. */
    method RefundAll(allBets: seq<Bet>, openPrice: Price, c: Price)
      requires IsTie(openPrice, c)
      modifies this
      ensures users == Settle(old(users), allBets, openPrice, c)
      ensures markets == old(markets) && bets == old(bets) && snapshot == old(snapshot)
    {
      var us := users;
      var i := 0;
      while i < |allBets|
        invariant 0 <= i <= |allBets|
        invariant us == Settle(users, allBets[..i], openPrice, c)
        invariant users == old(users) && markets == old(markets) && bets == old(bets) && snapshot == old(snapshot)
      {
        var b := allBets[i];
        RefundStep(users, allBets, i, openPrice, c);
        if b.user in us {
          var row := us[b.user];
          us := us[b.user := row.(coins := row.coins + b.amount)];
        }
        i := i + 1;
      }
      assert allBets[..|allBets|] == allBets;
      users := us;
    }

    /** The win/loss branch of `resolve_market`: credit each bet on the winning side twice its stake. */
    method PayWinners(allBets: seq<Bet>, openPrice: Price, c: Price)
      requires !IsTie(openPrice, c)
      modifies this
      ensures users == Settle(old(users), allBets, openPrice, c)
      ensures markets == old(markets) && bets == old(bets) && snapshot == old(snapshot)
    {
      var us := users;
      var side := WinningSide(openPrice, c);
      var i := 0;
      while i < |allBets|
        invariant 0 <= i <= |allBets|
        invariant us == Settle(users, allBets[..i], openPrice, c)
        invariant users == old(users) && markets == old(markets) && bets == old(bets) && snapshot == old(snapshot)
      {
        var b := allBets[i];
        PayStep(users, allBets, i, openPrice, c);
        if b.direction == side && b.user in us {
          var row := us[b.user];
          us := us[b.user := row.(coins := row.coins + b.amount * WIN_MULTIPLIER)];
        }
        i := i + 1;
      }
      assert allBets[..|allBets|] == allBets;
      users := us;
    }

    /** The startup rule of `main`: open a market unless one is already OPEN. */
    method Startup(price: Option<Price>, now: int)
      requires Valid()
      modifies this
      ensures Valid() && State() == StartupTx(old(State()), price, now)
    {
      if LastOpen(markets).None? {
        OpenNewMarket(price, now);
      }
    }

    /** `refresh_weekly_snapshot`: replace the snapshot by every user's balance on this week's Monday. */
    method RefreshWeeklySnapshot(today: int)
      requires Valid()
      modifies this
      ensures Valid() && State() == RefreshTx(old(State()), today)
    {
      RefreshInv(State(), today);
      snapshot := map[];
      snapshot := map u | u in users :: WeekEntry(users[u].coins, WeekStart(today));
    }

    /**
     * The stake transaction shared by `/bet` and `POST /api/bet` on a request already
     * validated: checks, debit and insert, or a rejection that writes nothing.
     */
    method Stake(u: UserId, dir: Direction, amount: int) returns (outcome: BetOutcome)
      requires Valid() && MIN_BET_AMOUNT <= amount <= MAX_BET_AMOUNT
      modifies this
      ensures Valid() && (outcome, State()) == StakeTx(old(State()), u, dir, amount)
    {
      StakeInv(State(), u, dir, amount);
      var open := LastOpen(markets);
      if open.None? {
        return Rejected(NoMarket);
      }
      var m := open.value;
      if u !in users {
        return Rejected(UnknownUser);
      }
      var coins := users[u].coins;
      if coins < amount {
        return Rejected(InsufficientFunds);
      }
      if FindPending(bets, u, m).Some? {
        return Rejected(DuplicateBet);
      }
      users := users[u := users[u].(coins := coins - amount)];
      bets := bets + [Bet(u, m, dir, amount, false)];
      outcome := Placed(coins - amount, amount * WIN_MULTIPLIER);
    }

    /** The ledger part of `on_reaction`: ensure the user, then grant the daily reward once per day. */
    method ClaimDaily(u: UserId, name: string, today: int) returns (granted: Option<int>)
      requires Valid()
      modifies this
      ensures Valid() && (granted, State()) == ClaimTx(old(State()), u, name, today)
    {
      ClaimInv(State(), u, name, today);
      EnsureUser(u, name);
      var row := users[u];
      if row.lastDaily == Some(today) {
        return None;
      }
      users := users[u := row.(coins := row.coins + DAILY_REWARD_AMOUNT, lastDaily := Some(today))];
      granted := Some(users[u].coins);
    }

    /** `POST /api/user`: register or refresh the user and report their balance, weekly gain and rank. */
    method UpsertUser(tgId: Option<UserId>, username: Option<string>, today: int) returns (view: Option<UserView>)
      requires Valid()
      modifies this
      ensures Valid() && (view, State()) == UpsertTx(old(State()), tgId, username, today)
    {
      UpsertInv(State(), tgId, username, today);
      if tgId.None? || tgId.value == 0 {
        return None;
      }
      var u := tgId.value;
      var name := if username.Some? then username.value else "unknown";
      EnsureUser(u, name);
      var row := users[u];
      var gain := WeeklyGain(State(), u, WeekStart(today));
      view := Some(UserView(u, row.name, row.coins, row.lastDaily, gain, Rank(users, row.coins)));
    }
  }
}

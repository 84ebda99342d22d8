/**
 * The ledger transaction shared by both bet front-ends (bot.py:335-372 after
 * `ensure_user`, server.py:193-226): find the OPEN market, check the user, the
 * balance and the one-bet-per-market rule in that order, then debit and insert.
 */
module Admission {
  import opened Wrappers
  import opened Config
  import opened Records
  import opened MarketEngine

  /** Why a bet request was turned down; one code per rejection branch of either front-end. */
  datatype Rejection =
    | RateLimited        // bot: too many attempts in the window
    | Usage              // bot: fewer than two arguments
    | MissingFields      // api: user_id, direction or amount absent or falsy
    | ServerFault        // api: a truthy non-string direction makes `.upper()` raise (HTTP 500)
    | BadDirection
    | NotInteger
    | BelowMinimum
    | AboveMaximum
    | NoMarket
    | UnknownUser        // api only: the bot creates the user first
    | InsufficientFunds
    | DuplicateBet

  datatype BetOutcome = Placed(newBalance: int, potentialPayout: int) | Rejected(reason: Rejection)

  predicate IsPendingOf(b: Bet, u: UserId, m: nat)
  {
    b.user == u && b.market == m && !b.resolved
  }

  function FindPendingFrom(bets: seq<Bet>, u: UserId, m: nat, from: nat): (r: Option<nat>)
    requires from <= |bets|
    ensures r.Some? ==> from <= r.value < |bets| && IsPendingOf(bets[r.value], u, m)
    ensures r.Some? ==> forall j :: from <= j < r.value ==> !IsPendingOf(bets[j], u, m)
    ensures r.None? <==> forall j :: from <= j < |bets| ==> !IsPendingOf(bets[j], u, m)
    decreases |bets| - from
  {
    if from == |bets| then None
    else if IsPendingOf(bets[from], u, m) then Some(from)
    else FindPendingFrom(bets, u, m, from + 1)
  }

  /** `SELECT id FROM bets WHERE user_id=? AND market_id=? AND resolved=0`: the first such bet. */
  function FindPending(bets: seq<Bet>, u: UserId, m: nat): (r: Option<nat>)
    ensures r.Some? ==> r.value < |bets| && IsPendingOf(bets[r.value], u, m)
    ensures r.None? <==> forall j :: 0 <= j < |bets| ==> !IsPendingOf(bets[j], u, m)
  {
    FindPendingFrom(bets, u, m, 0)
  }

  /** The stake transaction on an already validated request. */
  function StakeTx(db: LedgerState, u: UserId, dir: Direction, amount: int): (res: (BetOutcome, LedgerState))
    ensures res.0.Rejected? ==> res.1 == db
    ensures res.1.markets == db.markets && res.1.snapshot == db.snapshot && res.1.users.Keys == db.users.Keys
    ensures res.0.Placed? ==>
      && u in db.users && LastOpen(db.markets).Some?
      && res.1.users[u].coins == res.0.newBalance == db.users[u].coins - amount
      && res.1.bets == db.bets + [Bet(u, LastOpen(db.markets).value, dir, amount, false)]
  {
    match LastOpen(db.markets)
    case None => (Rejected(NoMarket), db)
    case Some(m) =>
      if u !in db.users then (Rejected(UnknownUser), db)
      else if db.users[u].coins < amount then (Rejected(InsufficientFunds), db)
      else if FindPending(db.bets, u, m).Some? then (Rejected(DuplicateBet), db)
      else
        var coins := db.users[u].coins - amount;
        (Placed(coins, amount * WIN_MULTIPLIER),
         db.(users := db.users[u := db.users[u].(coins := coins)],
             bets := db.bets + [Bet(u, m, dir, amount, false)]))
  }

  /** The checks run in a fixed order and the first failure wins; a rejection changes nothing. */
  lemma StakeChecks(db: LedgerState, u: UserId, dir: Direction, amount: int)
    ensures var (o, r) := StakeTx(db, u, dir, amount);
      var open := LastOpen(db.markets);
      && (o.Rejected? ==> r == db)
      && (o == Rejected(NoMarket) <==> open.None?)
      && (o == Rejected(UnknownUser) <==> open.Some? && u !in db.users)
      && (o == Rejected(InsufficientFunds) <==> open.Some? && u in db.users && db.users[u].coins < amount)
      && (o == Rejected(DuplicateBet) <==>
            open.Some? && u in db.users && amount <= db.users[u].coins &&
            exists k :: 0 <= k < |db.bets| && IsPendingOf(db.bets[k], u, open.value))
      && (o.Placed? || o.reason in {NoMarket, UnknownUser, InsufficientFunds, DuplicateBet})
  {
    var open := LastOpen(db.markets);
    if open.Some? && u in db.users && amount <= db.users[u].coins {
      var f := FindPending(db.bets, u, open.value);
      if f.Some? {
        assert IsPendingOf(db.bets[f.value], u, open.value);
      }
    }
  }

  /**
   * A placed bet debits the stake exactly once, from that user only, leaves the balance
   * non-negative, appends exactly one unresolved bet on the OPEN market and reports the
   * new balance and a potential payout of the multiplier times the stake.
   */
  lemma StakeDebitsOnce(db: LedgerState, u: UserId, dir: Direction, amount: int)
    requires StakeTx(db, u, dir, amount).0.Placed?
    ensures var (o, r) := StakeTx(db, u, dir, amount);
      && LastOpen(db.markets).Some? && u in db.users && u in r.users
      && r.users[u].coins == db.users[u].coins - amount >= 0
      && r.users[u].name == db.users[u].name && r.users[u].lastDaily == db.users[u].lastDaily
      && r.users.Keys == db.users.Keys
      && (forall v :: v in db.users && v != u ==> r.users[v] == db.users[v])
      && r.bets == db.bets + [Bet(u, LastOpen(db.markets).value, dir, amount, false)]
      && r.markets == db.markets && r.snapshot == db.snapshot
      && o == Placed(db.users[u].coins - amount, amount * WIN_MULTIPLIER)
  {
  }

  /** Under the invariant there is no bet at all by `u` on the OPEN market when none is pending. */
  lemma NoBetOnOpenMarket(db: LedgerState, u: UserId, m: nat)
    requires Inv(db) && LastOpen(db.markets) == Some(m) && FindPending(db.bets, u, m).None?
    ensures forall k :: 0 <= k < |db.bets| ==> db.bets[k].user != u || db.bets[k].market != m
  {
    forall k | 0 <= k < |db.bets| ensures db.bets[k].user != u || db.bets[k].market != m {
      assert BetWellFormed(db, db.bets[k]);
      assert !IsPendingOf(db.bets[k], u, m);
    }
  }

  /** A stake within the limits keeps the invariant, so the UNIQUE (user, market) insert never fails. */
  lemma StakeInv(db: LedgerState, u: UserId, dir: Direction, amount: int)
    requires Inv(db) && MIN_BET_AMOUNT <= amount <= MAX_BET_AMOUNT
    ensures Inv(StakeTx(db, u, dir, amount).1)
  {
    var (o, r) := StakeTx(db, u, dir, amount);
    if o.Placed? {
      var m := LastOpen(db.markets).value;
      NoBetOnOpenMarket(db, u, m);
      forall k | 0 <= k < |r.bets| ensures BetWellFormed(r, r.bets[k]) {
        if k < |db.bets| {
          assert r.bets[k] == db.bets[k];
          assert BetWellFormed(db, db.bets[k]);
        }
      }
      forall k, l | 0 <= k < l < |r.bets|
        ensures r.bets[k].user != r.bets[l].user || r.bets[k].market != r.bets[l].market
      {
        if l == |db.bets| {
          assert r.bets[k] == db.bets[k];
        } else {
          assert r.bets[k] == db.bets[k] && r.bets[l] == db.bets[l];
        }
      }
    }
  }

  /** Once a bet is placed, every further attempt by the same user on that market is rejected. */
  lemma NoDoubleBet(db: LedgerState, u: UserId, dir: Direction, amount: int, dir2: Direction, amount2: int)
    requires StakeTx(db, u, dir, amount).0.Placed?
    ensures var again := StakeTx(StakeTx(db, u, dir, amount).1, u, dir2, amount2);
      && again.0 in {Rejected(InsufficientFunds), Rejected(DuplicateBet)}
      && again.1 == StakeTx(db, u, dir, amount).1
  {
    var r := StakeTx(db, u, dir, amount).1;
    var m := LastOpen(db.markets).value;
    assert IsPendingOf(r.bets[|r.bets| - 1], u, m);
  }

  lemma PendingAppend(bets: seq<Bet>, b: Bet, m: nat)
    ensures Pending(bets + [b], m) == Pending(bets, m) + (if b.market == m && !b.resolved then [b] else [])
  {
    assert (bets + [b])[..|bets|] == bets;
  }

  lemma CreditAppend(u: UserId, ps: seq<Bet>, b: Bet, open: Price, close: Price)
    ensures CreditOf(u, ps + [b], open, close) == CreditOf(u, ps, open, close) + (if b.user == u then Payout(b, open, close) else 0)
  {
    assert (ps + [b])[..|ps|] == ps;
  }

  /**
   * Staking and then settling: the user's final balance is the original one minus the
   * stake plus that bet's payout (the user has no other bet on that market).
   */
  lemma StakeThenSettle(db: LedgerState, u: UserId, dir: Direction, amount: int, close: Price, reopen: Option<Price>, now: int)
    requires Inv(db) && MIN_BET_AMOUNT <= amount <= MAX_BET_AMOUNT
    requires StakeTx(db, u, dir, amount).0.Placed?
    ensures var m := LastOpen(db.markets).value;
      var after := ResolveTx(StakeTx(db, u, dir, amount).1, Some(close), reopen, now);
      && u in after.users
      && after.users[u].coins ==
           db.users[u].coins - amount + Payout(Bet(u, m, dir, amount, false), db.markets[m].openPrice, close)
  {
    var m := LastOpen(db.markets).value;
    var db1 := StakeTx(db, u, dir, amount).1;
    StakeDebitsOnce(db, u, dir, amount);
    StakeInv(db, u, dir, amount);
    SettledMarket(db1, close, reopen, now, m);
    assert FindPending(db.bets, u, m).None?;
    OnlyNewBetCredited(db.bets, u, m, Bet(u, m, dir, amount, false), db.markets[m].openPrice, close);
  }

  /** When `u` had no pending bet on `m`, settling `m` after one more bet by `u` credits `u` that bet's payout only. */
  lemma OnlyNewBetCredited(bets: seq<Bet>, u: UserId, m: nat, nb: Bet, open: Price, close: Price)
    requires FindPending(bets, u, m).None? && nb.user == u && nb.market == m && !nb.resolved
    ensures CreditOf(u, Pending(bets + [nb], m), open, close) == Payout(nb, open, close)
  {
    var ps := Pending(bets, m);
    PendingAppend(bets, nb, m);
    CreditAppend(u, ps, nb, open, close);
    PendingNotOf(bets, u, m);
    CreditOfAbsent(u, ps, open, close);
  }

  /** When `u` has no pending bet on `m`, none of the bets settlement would credit on `m` is theirs. */
  lemma PendingNotOf(bets: seq<Bet>, u: UserId, m: nat)
    requires FindPending(bets, u, m).None?
    ensures forall k :: 0 <= k < |Pending(bets, m)| ==> Pending(bets, m)[k].user != u
  {
    var ps := Pending(bets, m);
    forall k | 0 <= k < |ps| ensures ps[k].user != u {
      var j :| 0 <= j < |bets| && bets[j] == ps[k];
      assert !IsPendingOf(bets[j], u, m);
    }
  }

  /** On a tie (a move of less than a cent) the bettor ends exactly where they started. */
  lemma TieRestoresBalance(db: LedgerState, u: UserId, dir: Direction, amount: int, close: Price, reopen: Option<Price>, now: int)
    requires Inv(db) && MIN_BET_AMOUNT <= amount <= MAX_BET_AMOUNT
    requires StakeTx(db, u, dir, amount).0.Placed?
    requires IsTie(db.markets[LastOpen(db.markets).value].openPrice, close)
    ensures var after := ResolveTx(StakeTx(db, u, dir, amount).1, Some(close), reopen, now);
      u in after.users && after.users[u].coins == db.users[u].coins
  {
    StakeThenSettle(db, u, dir, amount, close, reopen, now);
  }

  /** A winner ends up the stake ahead; a loser ends up the stake behind. */
  lemma WinOrLose(db: LedgerState, u: UserId, dir: Direction, amount: int, close: Price, reopen: Option<Price>, now: int)
    requires Inv(db) && MIN_BET_AMOUNT <= amount <= MAX_BET_AMOUNT
    requires StakeTx(db, u, dir, amount).0.Placed?
    requires !IsTie(db.markets[LastOpen(db.markets).value].openPrice, close)
    ensures var m := LastOpen(db.markets).value;
      var after := ResolveTx(StakeTx(db, u, dir, amount).1, Some(close), reopen, now);
      && u in after.users
      && (dir == WinningSide(db.markets[m].openPrice, close) ==> after.users[u].coins == db.users[u].coins + amount)
      && (dir != WinningSide(db.markets[m].openPrice, close) ==> after.users[u].coins == db.users[u].coins - amount)
  {
    StakeThenSettle(db, u, dir, amount, close, reopen, now);
  }
}

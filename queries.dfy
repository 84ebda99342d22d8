/**
 * The read-only endpoints of the HTTP API: the current market (server.py:142-151),
 * the user's unresolved bet on it (server.py:245-257) and the user's last bets with
 * their outcome (server.py:261-286). A missing or empty `user_id` query parameter is
 * `None`.
 */
module Queries {
  import opened Wrappers
  import opened Config
  import opened Records
  import opened MarketEngine
  import opened Admission

  /** A `markets` row with its id. */
  datatype MarketRow = MarketRow(id: nat, market: Market)

  /** A `bets` row with its id. */
  datatype BetRow = BetRow(id: nat, bet: Bet)

  /** A row of the recent-bets join: the bet, its market's prices and whether it was won. */
  datatype BetView = BetView(id: nat, bet: Bet, openPrice: Price, closePrice: Option<Price>, won: bool)

  /** `GET /api/market`: the OPEN market with the highest id, or none (HTTP 404). */
  function CurrentMarket(db: LedgerState): (r: Option<MarketRow>)
    ensures r.Some? ==> 1 <= r.value.id <= |db.markets| && r.value.market == db.markets[r.value.id - 1]
    ensures r.Some? ==> r.value.market.status == Open
    ensures r.Some? ==> forall j :: r.value.id <= j < |db.markets| ==> db.markets[j].status != Open
    ensures r.None? <==> forall j :: 0 <= j < |db.markets| ==> db.markets[j].status != Open
  {
    match LastOpen(db.markets)
    case None => None
    case Some(m) => Some(MarketRow(m + 1, db.markets[m]))
  }

  /**
   * The `won` column: the bet is resolved and the close price moved strictly to its
   * side. A NULL close price makes both comparisons NULL, hence not won.
   */
  predicate Won(b: Bet, mk: Market)
    ensures Won(b, mk) ==> b.resolved && mk.closePrice.Some? && mk.closePrice.value != mk.openPrice
  {
    && b.resolved
    && mk.closePrice.Some?
    && ((mk.closePrice.value > mk.openPrice && b.direction == Up)
        || (mk.closePrice.value < mk.openPrice && b.direction == Down))
  }

  /**
   * A bet shows as won exactly when it is resolved and its market closed at a price
   * different from the open price, on the side the price moved to; an unchanged price or
   * an unresolved bet is never won.
   */
  lemma WonRule(b: Bet, mk: Market)
    ensures Won(b, mk) <==>
      b.resolved && mk.closePrice.Some? && mk.closePrice.value != mk.openPrice
      && b.direction == WinningSide(mk.openPrice, mk.closePrice.value)
    ensures mk.closePrice == Some(mk.openPrice) ==> !Won(b, mk)
    ensures !b.resolved ==> !Won(b, mk)
  {
  }

  /**
   * Once a tick settles OPEN market `m` at a price that either equals the open price or
   * moved by at least a cent, each bet on it shows as won exactly when settlement
   * credited it twice its stake.
   */
  lemma WonMatchesSettlement(db: LedgerState, close: Price, reopen: Option<Price>, now: int, m: nat, k: nat)
    requires Inv(db) && LastOpen(db.markets) == Some(m)
    requires k < |db.bets| && db.bets[k].market == m
    requires close == db.markets[m].openPrice || !IsTie(db.markets[m].openPrice, close)
    ensures var r := ResolveTx(db, Some(close), reopen, now);
      m < |r.markets| && k < |r.bets| &&
      (Won(r.bets[k], r.markets[m]) <==>
        Payout(db.bets[k], db.markets[m].openPrice, close) == WIN_MULTIPLIER * db.bets[k].amount)
  {
    SettledMarket(db, close, reopen, now, m);
    assert BetWellFormed(db, db.bets[k]);
    var r := ResolveTx(db, Some(close), reopen, now);
    WonAgreesWithPayout(r.bets[k], r.markets[m], close);
  }

  /** The `won` column of a resolved bet against the payout rule, away from the sub-cent band. */
  lemma WonAgreesWithPayout(b: Bet, mk: Market, close: Price)
    requires b.resolved && b.amount > 0 && mk.closePrice == Some(close)
    requires close == mk.openPrice || !IsTie(mk.openPrice, close)
    ensures Won(b, mk) <==> Payout(b, mk.openPrice, close) == WIN_MULTIPLIER * b.amount
  {
  }

  /**
   * Where the two disagree: when the price moves by less than a cent, settlement refunds
   * each bet as a tie, yet the `won` column shows every bet on the side the price moved
   * to as won.
   */
  lemma SubCentMoveShownAsWon(db: LedgerState, close: Price, reopen: Option<Price>, now: int, m: nat, k: nat)
    requires Inv(db) && LastOpen(db.markets) == Some(m)
    requires k < |db.bets| && db.bets[k].market == m
    requires close != db.markets[m].openPrice && IsTie(db.markets[m].openPrice, close)
    requires db.bets[k].direction == WinningSide(db.markets[m].openPrice, close)
    ensures var r := ResolveTx(db, Some(close), reopen, now);
      && m < |r.markets| && k < |r.bets|
      && Payout(db.bets[k], db.markets[m].openPrice, close) == db.bets[k].amount
      && Won(r.bets[k], r.markets[m])
  {
    SettledMarket(db, close, reopen, now, m);
  }

  /** A bet belongs in the recent-bets list of `u`: it is theirs and its market row exists (the inner join). */
  predicate Matches(db: LedgerState, u: UserId, k: nat)
    requires k < |db.bets|
  {
    db.bets[k].user == u && db.bets[k].market < |db.markets|
  }

  function View(db: LedgerState, k: nat): (v: BetView)
    requires k < |db.bets| && db.bets[k].market < |db.markets|
  {
    var b := db.bets[k];
    var mk := db.markets[b.market];
    BetView(k + 1, b, mk.openPrice, mk.closePrice, Won(b, mk))
  }

  /** Every row is the view of a bet of `u` among the first `n`. */
  predicate RowsOfUser(db: LedgerState, u: UserId, r: seq<BetView>, n: nat)
    requires n <= |db.bets|
  {
    forall i :: 0 <= i < |r| ==> 1 <= r[i].id <= n && Matches(db, u, r[i].id - 1) && r[i] == View(db, r[i].id - 1)
  }

  /** Newest first: ids strictly decrease. */
  predicate Descending(r: seq<BetView>)
  {
    forall i, j :: 0 <= i < j < |r| ==> r[i].id > r[j].id
  }

  /** Some row has id `id`. */
  predicate Listed(r: seq<BetView>, id: nat)
  {
    exists i :: 0 <= i < |r| && r[i].id == id
  }

  /** A bet of `u` among the first `n` that is not listed is older than every listed one, and then `limit` rows are listed. */
  predicate OnlyOlderLeftOut(db: LedgerState, u: UserId, r: seq<BetView>, n: nat, limit: nat)
    requires n <= |db.bets|
  {
    forall k :: 0 <= k < n && Matches(db, u, k) && !Listed(r, k + 1) ==>
      |r| == limit && (0 < limit ==> k + 1 < r[|r| - 1].id)
  }

  lemma TakeRows(db: LedgerState, u: UserId, n: nat, rest: seq<BetView>)
    requires 0 < n <= |db.bets| && Matches(db, u, n - 1) && RowsOfUser(db, u, rest, n - 1)
    ensures RowsOfUser(db, u, [View(db, n - 1)] + rest, n)
  {
    var r := [View(db, n - 1)] + rest;
    forall i | 0 < i < |r|
      ensures 1 <= r[i].id <= n && Matches(db, u, r[i].id - 1) && r[i] == View(db, r[i].id - 1)
    {
      assert r[i] == rest[i - 1];
    }
  }

  lemma TakeDescending(db: LedgerState, u: UserId, n: nat, rest: seq<BetView>)
    requires 0 < n <= |db.bets| && Matches(db, u, n - 1) && RowsOfUser(db, u, rest, n - 1) && Descending(rest)
    ensures Descending([View(db, n - 1)] + rest)
  {
    var r := [View(db, n - 1)] + rest;
    forall i, j | 0 <= i < j < |r| ensures r[i].id > r[j].id {
      assert r[j] == rest[j - 1];
      if i > 0 {
        assert r[i] == rest[i - 1];
      }
    }
  }

  lemma TakeLeftOut(db: LedgerState, u: UserId, n: nat, limit: nat, rest: seq<BetView>)
    requires 0 < n <= |db.bets| && 0 < limit && Matches(db, u, n - 1)
    requires |rest| <= limit - 1 && OnlyOlderLeftOut(db, u, rest, n - 1, limit - 1)
    ensures OnlyOlderLeftOut(db, u, [View(db, n - 1)] + rest, n, limit)
  {
    var r := [View(db, n - 1)] + rest;
    forall k | 0 <= k < n && Matches(db, u, k) && !Listed(r, k + 1)
      ensures |r| == limit && k + 1 < r[|r| - 1].id
    {
      assert k != n - 1 by {
        assert r[0].id == n;
      }
      assert !Listed(rest, k + 1) by {
        forall i | 0 <= i < |rest| ensures rest[i].id != k + 1 {
          assert r[i + 1] == rest[i];
        }
      }
      if limit - 1 > 0 {
        assert r[|r| - 1] == rest[|rest| - 1];
      }
    }
  }

  lemma RecentSkip(db: LedgerState, u: UserId, n: nat, limit: nat, r: seq<BetView>)
    requires 0 < n <= |db.bets| && !Matches(db, u, n - 1)
    requires |r| <= limit && RowsOfUser(db, u, r, n - 1) && Descending(r)
    requires OnlyOlderLeftOut(db, u, r, n - 1, limit)
    ensures RowsOfUser(db, u, r, n) && OnlyOlderLeftOut(db, u, r, n, limit)
  {
  }

  /**
   * The bets of `u` among the first `n`, newest first, at most `limit` of them: every
   * row is one of theirs, ids strictly decrease, and a bet of theirs that is left out
   * is older than every listed one, which only happens once `limit` rows are listed.
   */
  function RecentFrom(db: LedgerState, u: UserId, n: nat, limit: nat): (r: seq<BetView>)
    requires n <= |db.bets|
    ensures |r| <= limit
    ensures RowsOfUser(db, u, r, n) && Descending(r) && OnlyOlderLeftOut(db, u, r, n, limit)
    decreases n
  {
    if n == 0 || limit == 0 then []
    else if Matches(db, u, n - 1) then
      var rest := RecentFrom(db, u, n - 1, limit - 1);
      TakeRows(db, u, n, rest);
      TakeDescending(db, u, n, rest);
      TakeLeftOut(db, u, n, limit, rest);
      [View(db, n - 1)] + rest
    else
      var r := RecentFrom(db, u, n - 1, limit);
      RecentSkip(db, u, n, limit, r);
      r
  }

  /** `GET /api/bets/recent`: the last ten bets of the user with their outcome. */
  function RecentBets(db: LedgerState, userId: Option<UserId>): (r: Result<seq<BetView>, Rejection>)
    ensures userId.None? <==> r == Failure(MissingFields)
    ensures r.Ok? ==> |r.value| <= RECENT_BETS_LIMIT
    ensures r.Ok? ==> forall i :: 0 <= i < |r.value| ==>
      1 <= r.value[i].id <= |db.bets| && db.bets[r.value[i].id - 1].user == userId.value
  {
    match userId
    case None => Failure(MissingFields)
    case Some(u) => Ok(RecentFrom(db, u, |db.bets|, RECENT_BETS_LIMIT))
  }

  /** `GET /api/bets/active`: the user's unresolved bet on the OPEN market with the highest id, if any. */
  function ActiveBet(db: LedgerState, userId: Option<UserId>): (r: Result<Option<BetRow>, Rejection>)
    ensures userId.None? <==> r == Failure(MissingFields)
    ensures r.Ok? && r.value.Some? ==>
      && LastOpen(db.markets).Some?
      && 1 <= r.value.value.id <= |db.bets|
      && r.value.value.bet == db.bets[r.value.value.id - 1]
      && IsPendingOf(r.value.value.bet, userId.value, LastOpen(db.markets).value)
    ensures r.Ok? && r.value.None? ==>
      LastOpen(db.markets).None? ||
      forall k :: 0 <= k < |db.bets| ==> !IsPendingOf(db.bets[k], userId.value, LastOpen(db.markets).value)
  {
    match userId
    case None => Failure(MissingFields)
    case Some(u) =>
      match LastOpen(db.markets)
      case None => Ok(None)
      case Some(m) =>
        match FindPending(db.bets, u, m)
        case None => Ok(None)
        case Some(k) => Ok(Some(BetRow(k + 1, db.bets[k])))
  }

  /** Right after a bet is placed, the active-bet query returns exactly the inserted row. */
  lemma ActiveBetAfterStake(db: LedgerState, u: UserId, dir: Direction, amount: int)
    requires StakeTx(db, u, dir, amount).0.Placed?
    ensures var m := LastOpen(db.markets).value;
      ActiveBet(StakeTx(db, u, dir, amount).1, Some(u)) ==
        Ok(Some(BetRow(|db.bets| + 1, Bet(u, m, dir, amount, false))))
  {
    var m := LastOpen(db.markets).value;
    var r := StakeTx(db, u, dir, amount).1;
    assert r.markets == db.markets;
    assert r.bets == db.bets + [Bet(u, m, dir, amount, false)];
    assert forall j :: 0 <= j < |db.bets| ==> !IsPendingOf(r.bets[j], u, m) by {
      assert FindPending(db.bets, u, m).None?;
      forall j | 0 <= j < |db.bets| ensures !IsPendingOf(r.bets[j], u, m) {
        assert r.bets[j] == db.bets[j];
      }
    }
    assert FindPending(r.bets, u, m) == Some(|db.bets|) by {
      var f := FindPending(r.bets, u, m);
      assert f.Some? by {
        assert IsPendingOf(r.bets[|db.bets|], u, m);
      }
    }
  }

  /** After a tick that had a close price, nobody has an active bet: the new market, if any, has no bets yet. */
  lemma NoActiveBetAfterSettle(db: LedgerState, close: Price, reopen: Option<Price>, now: int, u: UserId)
    requires Inv(db)
    ensures ActiveBet(ResolveTx(db, Some(close), reopen, now), Some(u)) == Ok(None)
  {
    var r := ResolveTx(db, Some(close), reopen, now);
    ResolveTick(db, Some(close), reopen, now);
    if reopen.Some? {
      var n := |r.markets| - 1;
      assert n == |db.markets| by {
        match LastOpen(db.markets)
        case None =>
        case Some(m) =>
      }
      assert |r.bets| == |db.bets| && forall k :: 0 <= k < |r.bets| ==> r.bets[k].market == db.bets[k].market by {
        match LastOpen(db.markets)
        case None =>
        case Some(m) =>
          forall k | 0 <= k < |r.bets| ensures r.bets[k].market == db.bets[k].market {
            MarkResolvedAt(db.bets, m, k);
          }
      }
      forall k | 0 <= k < |r.bets| ensures !IsPendingOf(r.bets[k], u, n) {
        assert BetWellFormed(db, db.bets[k]);
      }
    }
  }
}

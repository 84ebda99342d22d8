/**
 * The settlement engine of bot.py:124-195: finding the OPEN market, opening a new one
 * at the oracle's price, and resolving the OPEN market (tie refund or win payout,
 * every bet on it resolved, next market opened). The transitions are pure functions
 * on `LedgerState`; `Store.Ledger` runs them in place.
 */
module MarketEngine {
  import opened Wrappers
  import opened Config
  import opened Records

  /** `get_open_market`: the OPEN market with the highest id, if any. */
  function LastOpen(ms: seq<Market>): (r: Option<nat>)
    ensures r.Some? ==> r.value < |ms| && ms[r.value].status == Open
    ensures r.Some? ==> forall j :: r.value < j < |ms| ==> ms[j].status != Open
    ensures r.None? <==> forall j :: 0 <= j < |ms| ==> ms[j].status != Open
  {
    if |ms| == 0 then None
    else if ms[|ms| - 1].status == Open then Some(|ms| - 1)
    else LastOpen(ms[..|ms| - 1])
  }

  /** The row `open_new_market` inserts: no close price yet, scheduled to close one interval later. */
  function NewMarket(price: Price, now: int): Market
  {
    Market(price, None, now, now + MARKET_INTERVAL_SECS, Open)
  }

  /** `open_new_market` given the oracle's answer: nothing happens when there is no price. */
  function OpenTx(db: LedgerState, price: Option<Price>, now: int): (r: LedgerState)
    ensures r.users == db.users && r.bets == db.bets && r.snapshot == db.snapshot
    ensures price.None? ==> r == db
    ensures price.Some? ==>
      && |r.markets| == |db.markets| + 1 && r.markets[..|db.markets|] == db.markets
      && LastOpen(r.markets) == Some(|db.markets|)
      && r.markets[|db.markets|].openPrice == price.value && r.markets[|db.markets|].closePrice.None?
      && r.markets[|db.markets|].closeTime == now + MARKET_INTERVAL_SECS
  {
    match price
    case None => db
    case Some(p) => db.(markets := db.markets + [NewMarket(p, now)])
  }

  /** `abs(close - open) < 0.01`: the price moved by less than a cent, either way. */
  predicate IsTie(open: Price, close: Price)
  {
    -TIE_TOLERANCE < close - open < TIE_TOLERANCE
  }

  /** The side that wins a market that is not a tie. */
  function WinningSide(open: Price, close: Price): Direction
  {
    if close > open then Up else Down
  }

  /** Whether settlement credits this bet's owner at all. */
  predicate Pays(b: Bet, open: Price, close: Price)
  {
    IsTie(open, close) || b.direction == WinningSide(open, close)
  }

  /** The amount settlement credits for one bet: its stake on a tie, twice it to a winner, nothing to a loser. */
  function Payout(b: Bet, open: Price, close: Price): (p: int)
    ensures b.amount >= 0 ==> 0 <= p <= b.amount * WIN_MULTIPLIER
    ensures !Pays(b, open, close) ==> p == 0
  {
    if IsTie(open, close) then b.amount
    else if b.direction == WinningSide(open, close) then b.amount * WIN_MULTIPLIER
    else 0
  }

  /** `SELECT ... FROM bets WHERE market_id=? AND resolved=0`, in id order. */
  function Pending(bets: seq<Bet>, m: nat): (ps: seq<Bet>)
    ensures |ps| <= |bets|
    ensures forall k :: 0 <= k < |ps| ==> ps[k] in bets && ps[k].market == m && !ps[k].resolved
    ensures forall k :: 0 <= k < |bets| && bets[k].market == m && !bets[k].resolved ==> bets[k] in ps
    ensures forall b :: multiset(ps)[b] == if b.market == m && !b.resolved then multiset(bets)[b] else 0
  {
    if bets == [] then []
    else
      var last := bets[|bets| - 1];
      assert bets == bets[..|bets| - 1] + [last];
      Pending(bets[..|bets| - 1], m) + (if last.market == m && !last.resolved then [last] else [])
  }

  /** `UPDATE users SET coins = coins + p WHERE telegram_id = u`: no effect for an unknown id. */
  function Credit(us: map<UserId, User>, u: UserId, p: int): map<UserId, User>
  {
    if u in us then us[u := us[u].(coins := us[u].coins + p)] else us
  }

  /** The balances after the settlement loop has credited the bets `ps` in order. */
  function Settle(us: map<UserId, User>, ps: seq<Bet>, open: Price, close: Price): (r: map<UserId, User>)
    ensures r.Keys == us.Keys
    ensures forall u :: u in r ==> r[u].name == us[u].name && r[u].lastDaily == us[u].lastDaily
  {
    if ps == [] then us
    else
      var prior := Settle(us, ps[..|ps| - 1], open, close);
      var b := ps[|ps| - 1];
      if Pays(b, open, close) then Credit(prior, b.user, Payout(b, open, close)) else prior
  }

  /** Total credited to user `u` for the bets `ps`. */
  function CreditOf(u: UserId, ps: seq<Bet>, open: Price, close: Price): int
  {
    if ps == [] then 0
    else
      var b := ps[|ps| - 1];
      CreditOf(u, ps[..|ps| - 1], open, close) + (if b.user == u then Payout(b, open, close) else 0)
  }

  /** Total staked by user `u` in the bets `ps`. */
  function StakeOf(u: UserId, ps: seq<Bet>): int
  {
    if ps == [] then 0
    else
      var b := ps[|ps| - 1];
      StakeOf(u, ps[..|ps| - 1]) + (if b.user == u then b.amount else 0)
  }

  function TotalPayout(ps: seq<Bet>, open: Price, close: Price): int
  {
    if ps == [] then 0 else TotalPayout(ps[..|ps| - 1], open, close) + Payout(ps[|ps| - 1], open, close)
  }

  function TotalStake(ps: seq<Bet>): int
  {
    if ps == [] then 0 else TotalStake(ps[..|ps| - 1]) + ps[|ps| - 1].amount
  }

  /** Total staked on one side. */
  function StakeOn(ps: seq<Bet>, side: Direction): int
  {
    if ps == [] then 0
    else StakeOn(ps[..|ps| - 1], side) + (if ps[|ps| - 1].direction == side then ps[|ps| - 1].amount else 0)
  }

  /** `UPDATE bets SET resolved=1 WHERE market_id=?`. */
  function MarkResolved(bets: seq<Bet>, m: nat): seq<Bet>
  {
    seq(|bets|, k requires 0 <= k < |bets| => if bets[k].market == m then bets[k].(resolved := true) else bets[k])
  }

  /** The part of `resolve_market` between finding OPEN market `m` and reopening: close it at `close`, credit, resolve its bets. */
  function CloseTx(db: LedgerState, m: nat, close: Price, now: int): (r: LedgerState)
    requires m < |db.markets|
    ensures r.users.Keys == db.users.Keys && r.snapshot == db.snapshot
    ensures |r.markets| == |db.markets| && |r.bets| == |db.bets|
    ensures r.markets[m].status == Closed && r.markets[m].closePrice == Some(close)
    ensures r.markets[m].openPrice == db.markets[m].openPrice && r.markets[m].closeTime == now
    ensures forall j :: 0 <= j < |db.markets| && j != m ==> r.markets[j] == db.markets[j]
    ensures forall k :: 0 <= k < |db.bets| && db.bets[k].market == m ==> r.bets[k].resolved
  {
    var mk := db.markets[m];
    LedgerState(
      Settle(db.users, Pending(db.bets, m), mk.openPrice, close),
      db.markets[m := mk.(closePrice := Some(close), closeTime := now, status := Closed)],
      MarkResolved(db.bets, m),
      db.snapshot)
  }

  /**
   * `resolve_market`. The oracle is consulted twice: `close` for the close price and
   * `reopen` inside `open_new_market`.
   */
  function ResolveTx(db: LedgerState, close: Option<Price>, reopen: Option<Price>, now: int): (r: LedgerState)
    ensures close.None? ==> r == db
    ensures r.users.Keys == db.users.Keys && r.snapshot == db.snapshot && |r.bets| == |db.bets|
    ensures |r.markets| == |db.markets| + (if close.Some? && reopen.Some? then 1 else 0)
  {
    match close
    case None => db
    case Some(c) =>
      match LastOpen(db.markets)
      case None => OpenTx(db, reopen, now)
      case Some(m) => OpenTx(CloseTx(db, m, c, now), reopen, now)
  }

  /** The startup rule of `main`: open a market only when none is OPEN. */
  function StartupTx(db: LedgerState, price: Option<Price>, now: int): (r: LedgerState)
    ensures LastOpen(db.markets).Some? || price.None? ==> r == db
    ensures LastOpen(db.markets).None? && price.Some? ==>
      r.users == db.users && r.bets == db.bets && LastOpen(r.markets) == Some(|db.markets|)
  {
    if LastOpen(db.markets).None? then OpenTx(db, price, now) else db
  }

  // ---------------------------------------------------------------------------
  // Payout arithmetic

  /** Each bet's payout is its stake on a tie; otherwise twice its stake exactly when it is on the side the price moved to. */
  lemma PayoutRule(b: Bet, open: Price, close: Price)
    ensures open - 0.01 < close < open + 0.01 ==> Payout(b, open, close) == b.amount
    ensures close >= open + 0.01 ==> Payout(b, open, close) == if b.direction == Up then b.amount * WIN_MULTIPLIER else 0
    ensures close <= open - 0.01 ==> Payout(b, open, close) == if b.direction == Down then b.amount * WIN_MULTIPLIER else 0
  {
  }

  /** The balance a user ends settlement with is the one they started with plus everything credited to them. */
  lemma {:induction false} SettleCredits(us: map<UserId, User>, ps: seq<Bet>, open: Price, close: Price, u: UserId)
    requires u in us
    ensures Settle(us, ps, open, close)[u].coins == us[u].coins + CreditOf(u, ps, open, close)
  {
    if ps != [] {
      SettleCredits(us, ps[..|ps| - 1], open, close, u);
    }
  }

  /** With no negative stakes, nobody is credited a negative amount. */
  lemma {:induction false} CreditNonneg(u: UserId, ps: seq<Bet>, open: Price, close: Price)
    requires forall k :: 0 <= k < |ps| ==> ps[k].amount >= 0
    ensures CreditOf(u, ps, open, close) >= 0
  {
    if ps != [] {
      CreditNonneg(u, ps[..|ps| - 1], open, close);
    }
  }

  /** A user with no bet among `ps` is credited nothing. */
  lemma {:induction false} CreditOfAbsent(u: UserId, ps: seq<Bet>, open: Price, close: Price)
    requires forall k :: 0 <= k < |ps| ==> ps[k].user != u
    ensures CreditOf(u, ps, open, close) == 0
  {
    if ps != [] {
      CreditOfAbsent(u, ps[..|ps| - 1], open, close);
    }
  }

  /** On a tie each user gets back exactly what they staked. */
  lemma {:induction false} TieRefundsEachUser(u: UserId, ps: seq<Bet>, open: Price, close: Price)
    requires IsTie(open, close)
    ensures CreditOf(u, ps, open, close) == StakeOf(u, ps)
  {
    if ps != [] {
      TieRefundsEachUser(u, ps[..|ps| - 1], open, close);
    }
  }

  /** On a tie the total credited equals the total staked. */
  lemma {:induction false} TieRefundsTotal(ps: seq<Bet>, open: Price, close: Price)
    requires IsTie(open, close)
    ensures TotalPayout(ps, open, close) == TotalStake(ps)
  {
    if ps != [] {
      TieRefundsTotal(ps[..|ps| - 1], open, close);
    }
  }

  /** Otherwise the total credited is the multiplier times the stakes on the winning side. */
  lemma {:induction false} WinPaysMultiple(ps: seq<Bet>, open: Price, close: Price)
    requires !IsTie(open, close)
    ensures TotalPayout(ps, open, close) == WIN_MULTIPLIER * StakeOn(ps, WinningSide(open, close))
  {
    if ps != [] {
      WinPaysMultiple(ps[..|ps| - 1], open, close);
    }
  }

  // ---------------------------------------------------------------------------
  // The invariant

  lemma OpenTxInv(db: LedgerState, price: Option<Price>, now: int)
    requires Inv(db) && LastOpen(db.markets) == None
    ensures Inv(OpenTx(db, price, now))
    ensures price.None? ==> OpenTx(db, price, now) == db
    ensures price.Some? ==> LastOpen(OpenTx(db, price, now).markets) == Some(|db.markets|)
  {
    if price.Some? {
      var r := OpenTx(db, price, now);
      forall k | 0 <= k < |r.bets| ensures BetWellFormed(r, r.bets[k]) {
        assert BetWellFormed(db, db.bets[k]);
      }
    }
  }

  lemma MarkResolvedAt(bets: seq<Bet>, m: nat, k: nat)
    requires k < |bets|
    ensures |MarkResolved(bets, m)| == |bets|
    ensures MarkResolved(bets, m)[k] == if bets[k].market == m then bets[k].(resolved := true) else bets[k]
  {
  }

  /** Settlement never drives a balance below zero, since every stake is positive. */
  lemma CloseTxBalances(db: LedgerState, m: nat, close: Price, now: int)
    requires Inv(db) && m < |db.markets|
    ensures var r := CloseTx(db, m, close, now);
      forall u :: u in r.users ==> r.users[u].coins >= 0
  {
    var mk := db.markets[m];
    var ps := Pending(db.bets, m);
    forall k | 0 <= k < |ps| ensures ps[k].amount >= 0 {
      var j :| 0 <= j < |db.bets| && db.bets[j] == ps[k];
      assert BetWellFormed(db, db.bets[j]);
    }
    forall u | u in db.users ensures Settle(db.users, ps, mk.openPrice, close)[u].coins >= 0 {
      SettleCredits(db.users, ps, mk.openPrice, close, u);
      CreditNonneg(u, ps, mk.openPrice, close);
    }
  }

  /** Resolving the closed market's bets keeps bet `k` well formed. */
  lemma CloseTxBetAt(db: LedgerState, m: nat, close: Price, now: int, k: nat)
    requires Inv(db) && LastOpen(db.markets) == Some(m) && k < |db.bets|
    ensures var r := CloseTx(db, m, close, now);
      k < |r.bets| && BetWellFormed(r, r.bets[k])
  {
    MarkResolvedAt(db.bets, m, k);
    assert BetWellFormed(db, db.bets[k]);
  }

  /** Flipping `resolved` flags keeps at most one bet per user and market. */
  lemma MarkResolvedUnique(bets: seq<Bet>, m: nat)
    requires forall k, l :: 0 <= k < l < |bets| ==> bets[k].user != bets[l].user || bets[k].market != bets[l].market
    ensures var r := MarkResolved(bets, m);
      forall k, l :: 0 <= k < l < |r| ==> r[k].user != r[l].user || r[k].market != r[l].market
  {
    var r := MarkResolved(bets, m);
    forall k, l | 0 <= k < l < |r|
      ensures r[k].user != r[l].user || r[k].market != r[l].market
    {
      MarkResolvedAt(bets, m, k);
      MarkResolvedAt(bets, m, l);
    }
  }

  /** Resolving the bets of the closed market keeps every bet well formed and the one-bet-per-market rule. */
  lemma CloseTxBets(db: LedgerState, m: nat, close: Price, now: int)
    requires Inv(db) && LastOpen(db.markets) == Some(m)
    ensures var r := CloseTx(db, m, close, now);
      && (forall k :: 0 <= k < |r.bets| ==> BetWellFormed(r, r.bets[k]))
      && (forall k, l :: 0 <= k < l < |r.bets| ==>
            r.bets[k].user != r.bets[l].user || r.bets[k].market != r.bets[l].market)
  {
    var r := CloseTx(db, m, close, now);
    forall k | 0 <= k < |r.bets| ensures BetWellFormed(r, r.bets[k]) {
      CloseTxBetAt(db, m, close, now, k);
    }
    MarkResolvedUnique(db.bets, m);
  }

  /** Closing the only OPEN market keeps the invariant and leaves no market OPEN. */
  lemma CloseTxInv(db: LedgerState, m: nat, close: Price, now: int)
    requires Inv(db) && LastOpen(db.markets) == Some(m)
    ensures Inv(CloseTx(db, m, close, now))
    ensures LastOpen(CloseTx(db, m, close, now).markets) == None
  {
    var r := CloseTx(db, m, close, now);
    CloseTxBalances(db, m, close, now);
    CloseTxBets(db, m, close, now);
    forall j | 0 <= j < |r.markets| ensures r.markets[j].status != Open {
    }
  }

  /** Every settlement tick keeps the invariant; in particular at most one market is ever OPEN and no balance goes negative. */
  lemma ResolveTxInv(db: LedgerState, close: Option<Price>, reopen: Option<Price>, now: int)
    requires Inv(db)
    ensures Inv(ResolveTx(db, close, reopen, now))
  {
    match close
    case None =>
    case Some(c) =>
      match LastOpen(db.markets)
      case None => OpenTxInv(db, reopen, now);
      case Some(m) =>
        CloseTxInv(db, m, c, now);
        OpenTxInv(CloseTx(db, m, c, now), reopen, now);
  }

  /**
   * What a tick does at the ledger level: nothing without a close price; with no OPEN
   * market, only the reopening (nobody is credited, no bet changes); afterwards a fresh
   * OPEN market exists exactly when the second oracle call gave a price.
   */
  lemma ResolveTick(db: LedgerState, close: Option<Price>, reopen: Option<Price>, now: int)
    requires Inv(db)
    ensures close.None? ==> ResolveTx(db, close, reopen, now) == db
    ensures close.Some? && LastOpen(db.markets).None? ==>
      ResolveTx(db, close, reopen, now).users == db.users &&
      ResolveTx(db, close, reopen, now).bets == db.bets &&
      ResolveTx(db, close, reopen, now).markets ==
        db.markets + (if reopen.Some? then [NewMarket(reopen.value, now)] else [])
    ensures close.Some? && reopen.Some? ==>
      var r := ResolveTx(db, close, reopen, now);
      LastOpen(r.markets) == Some(|r.markets| - 1) && r.markets[|r.markets| - 1] == NewMarket(reopen.value, now)
    ensures close.Some? && reopen.None? ==> LastOpen(ResolveTx(db, close, reopen, now).markets) == None
  {
    if close.Some? {
      match LastOpen(db.markets)
      case None => OpenTxInv(db, reopen, now);
      case Some(m) =>
        CloseTxInv(db, m, close.value, now);
        OpenTxInv(CloseTx(db, m, close.value, now), reopen, now);
    }
  }

  /**
   * The market settled by a tick: CLOSED at the close price, every bet on it resolved,
   * no other bet touched, and each user credited exactly the payouts of their pending bets on it.
   */
  lemma SettledMarket(db: LedgerState, close: Price, reopen: Option<Price>, now: int, m: nat)
    requires Inv(db) && LastOpen(db.markets) == Some(m)
    ensures var r := ResolveTx(db, Some(close), reopen, now);
      && m < |r.markets|
      && r.markets[m] == db.markets[m].(closePrice := Some(close), closeTime := now, status := Closed)
      && |r.bets| == |db.bets|
      && (forall k :: 0 <= k < |r.bets| ==>
            r.bets[k] == if db.bets[k].market == m then db.bets[k].(resolved := true) else db.bets[k])
      && r.users.Keys == db.users.Keys
      && (forall u :: u in db.users ==>
            r.users[u].coins == db.users[u].coins + CreditOf(u, Pending(db.bets, m), db.markets[m].openPrice, close))
  {
    var r := ResolveTx(db, Some(close), reopen, now);
    forall k | 0 <= k < |r.bets|
      ensures r.bets[k] == if db.bets[k].market == m then db.bets[k].(resolved := true) else db.bets[k]
    {
      MarkResolvedAt(db.bets, m, k);
    }
    forall u | u in db.users
      ensures r.users[u].coins == db.users[u].coins + CreditOf(u, Pending(db.bets, m), db.markets[m].openPrice, close)
    {
      SettleCredits(db.users, Pending(db.bets, m), db.markets[m].openPrice, close, u);
    }
  }

  /** Startup opens a market only when none is OPEN, and keeps the invariant. */
  lemma StartupTxInv(db: LedgerState, price: Option<Price>, now: int)
    requires Inv(db)
    ensures Inv(StartupTx(db, price, now))
    ensures LastOpen(db.markets).Some? ==> StartupTx(db, price, now) == db
    ensures LastOpen(db.markets).None? && price.Some? ==> LastOpen(StartupTx(db, price, now).markets).Some?
  {
    if LastOpen(db.markets).None? {
      OpenTxInv(db, price, now);
    }
  }
}

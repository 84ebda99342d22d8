/**
 * The four tables both front-ends share (bot.py:65-100): users, markets, bets and the
 * weekly snapshot, as one value, and the invariant every transaction keeps.
 *
 * A market or a bet is identified by its position in its sequence; the SQLite
 * AUTOINCREMENT id of the row at position i is i + 1 (rows are never deleted).
 * Prices are exact decimal dollar amounts (`real`) and dates are day numbers (see Calendar).
 */
module Records {
  import opened Wrappers
  import opened Config

  type UserId = int

  /** A Bitcoin price in US dollars, as the oracle reports it. */
  type Price = real

  datatype Direction = Up | Down

  datatype Status = Open | Closed

  /** A `users` row; `lastDaily` is the day of the last daily-reward claim. */
  datatype User = User(name: string, coins: int, lastDaily: Option<int>)

  /** A `markets` row; `closeTime` is the scheduled close until settlement writes the actual one. */
  datatype Market = Market(openPrice: Price, closePrice: Option<Price>, openTime: int, closeTime: int, status: Status)

  /** A `bets` row; `market` is the position of the market it was placed on. */
  datatype Bet = Bet(user: UserId, market: nat, direction: Direction, amount: int, resolved: bool)

  /** A `weekly_coins_snapshot` row. */
  datatype WeekEntry = WeekEntry(coins: int, weekStart: int)

  datatype LedgerState = LedgerState(
    users: map<UserId, User>,
    markets: seq<Market>,
    bets: seq<Bet>,
    snapshot: map<UserId, WeekEntry>)

  /** A bet refers to an existing user and market, its stake is within the limits, and it is resolved exactly when its market is closed. */
  ghost predicate BetWellFormed(db: LedgerState, b: Bet)
  {
    && b.user in db.users
    && b.market < |db.markets|
    && MIN_BET_AMOUNT <= b.amount <= MAX_BET_AMOUNT
    && (b.resolved <==> db.markets[b.market].status == Closed)
  }

  /** At most one market is OPEN. */
  ghost predicate AtMostOneOpen(ms: seq<Market>)
  {
    forall i, j :: 0 <= i < |ms| && 0 <= j < |ms| && ms[i].status == Open && ms[j].status == Open ==> i == j
  }

  /**
   * What every transaction preserves: no negative balance, at most one OPEN market,
   * a close price exactly on CLOSED markets, well-formed bets, at most one bet per
   * (user, market) pair (the UNIQUE constraint of the bets table), and snapshot rows
   * only for existing users.
   */
  ghost predicate Inv(db: LedgerState)
  {
    && (forall u :: u in db.users ==> db.users[u].coins >= 0)
    && AtMostOneOpen(db.markets)
    && (forall i :: 0 <= i < |db.markets| ==> (db.markets[i].status == Closed <==> db.markets[i].closePrice.Some?))
    && (forall k :: 0 <= k < |db.bets| ==> BetWellFormed(db, db.bets[k]))
    && (forall k, l :: 0 <= k < l < |db.bets| ==>
          db.bets[k].user != db.bets[l].user || db.bets[k].market != db.bets[l].market)
    && db.snapshot.Keys <= db.users.Keys
  }

  /** The empty database `init_db` creates. */
  function EmptyLedger(): (db: LedgerState)
    ensures Inv(db)
    ensures db.users == map[] && db.markets == [] && db.bets == [] && db.snapshot == map[]
  {
    LedgerState(map[], [], [], map[])
  }
}

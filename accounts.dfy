/**
 * User rows: `ensure_user` and its HTTP twin (bot.py:239-248, server.py:110-118),
 * the daily reward (bot.py:442-457), the weekly snapshot (bot.py:205-216) and the
 * derived `weekly_gain` and `rank` figures (server.py:124-136).
 */
module Accounts {
  import opened Wrappers
  import opened Config
  import opened Records
  import opened Calendar

  /** `INSERT OR IGNORE` a user with 0 coins, then refresh the display name. */
  function EnsureUserTx(db: LedgerState, u: UserId, name: string): (r: LedgerState)
    ensures u in r.users && r.users[u].name == name
    ensures u in db.users ==> r.users[u] == db.users[u].(name := name)
    ensures u !in db.users ==> r.users[u] == User(name, 0, None)
    ensures r.users.Keys == db.users.Keys + {u}
    ensures forall v :: v in db.users && v != u ==> r.users[v] == db.users[v]
    ensures r.markets == db.markets && r.bets == db.bets && r.snapshot == db.snapshot
  {
    var row := if u in db.users then db.users[u] else User(name, 0, None);
    db.(users := db.users[u := row.(name := name)])
  }

  lemma EnsureUserInv(db: LedgerState, u: UserId, name: string)
    requires Inv(db)
    ensures Inv(EnsureUserTx(db, u, name))
  {
    var r := EnsureUserTx(db, u, name);
    forall k | 0 <= k < |r.bets| ensures BetWellFormed(r, r.bets[k]) {
      assert BetWellFormed(db, db.bets[k]);
    }
  }

  /**
   * The ledger part of `on_reaction`: make sure the user exists, then grant the reward
   * unless the last claim was today. The first component is the new balance when granted.
   */
  function ClaimTx(db: LedgerState, u: UserId, name: string, today: int): (res: (Option<int>, LedgerState))
    ensures res.1.markets == db.markets && res.1.bets == db.bets && res.1.snapshot == db.snapshot
    ensures u in res.1.users && res.1.users[u].name == name
    ensures res.0.Some? ==> res.1.users[u].coins == res.0.value && res.1.users[u].lastDaily == Some(today)
    ensures res.0.None? ==> res.1 == EnsureUserTx(db, u, name)
  {
    var db1 := EnsureUserTx(db, u, name);
    var row := db1.users[u];
    if row.lastDaily == Some(today) then (None, db1)
    else
      var coins := row.coins + DAILY_REWARD_AMOUNT;
      (Some(coins), db1.(users := db1.users[u := row.(coins := coins, lastDaily := Some(today))]))
  }

  /**
   * A claim grants exactly the reward and records today, unless today was already
   * recorded, in which case no balance and no claim date changes. Nobody else is touched.
   */
  lemma ClaimEffect(db: LedgerState, u: UserId, name: string, today: int)
    ensures var (granted, r) := ClaimTx(db, u, name, today);
      var was := if u in db.users then db.users[u] else User(name, 0, None);
      && r.markets == db.markets && r.bets == db.bets && r.snapshot == db.snapshot
      && r.users.Keys == db.users.Keys + {u}
      && (forall v :: v in db.users && v != u ==> r.users[v] == db.users[v])
      && r.users[u].name == name
      && (was.lastDaily == Some(today) ==>
            granted == None && r.users[u].coins == was.coins && r.users[u].lastDaily == was.lastDaily)
      && (was.lastDaily != Some(today) ==>
            granted == Some(was.coins + DAILY_REWARD_AMOUNT) &&
            r.users[u].coins == was.coins + DAILY_REWARD_AMOUNT && r.users[u].lastDaily == Some(today))
  {
  }

  /** A second claim on the same day (same display name) grants nothing and changes nothing. */
  lemma ClaimIdempotent(db: LedgerState, u: UserId, name: string, today: int)
    ensures ClaimTx(ClaimTx(db, u, name, today).1, u, name, today) == (None, ClaimTx(db, u, name, today).1)
  {
    var r := ClaimTx(db, u, name, today).1;
    assert r.users[u].lastDaily == Some(today);
    assert EnsureUserTx(r, u, name).users == r.users;
  }

  lemma ClaimInv(db: LedgerState, u: UserId, name: string, today: int)
    requires Inv(db)
    ensures Inv(ClaimTx(db, u, name, today).1)
  {
    EnsureUserInv(db, u, name);
    var db1 := EnsureUserTx(db, u, name);
    var r := ClaimTx(db, u, name, today).1;
    forall k | 0 <= k < |r.bets| ensures BetWellFormed(r, r.bets[k]) {
      assert BetWellFormed(db1, db1.bets[k]);
    }
  }

  /** The snapshot row of user `u` if it was taken for week `week`, as the LEFT JOIN sees it. */
  function SnapshotCoins(db: LedgerState, u: UserId, week: int): int
  {
    if u in db.snapshot && db.snapshot[u].weekStart == week then db.snapshot[u].coins else 0
  }

  /** `coins - COALESCE(coins_at_week_start, 0)` for the current week. */
  function WeeklyGain(db: LedgerState, u: UserId, week: int): (gain: int)
    requires u in db.users
    ensures u in db.snapshot && db.snapshot[u].weekStart == week ==> gain == db.users[u].coins - db.snapshot[u].coins
    ensures !(u in db.snapshot && db.snapshot[u].weekStart == week) ==> gain == db.users[u].coins
  {
    db.users[u].coins - SnapshotCoins(db, u, week)
  }

  /** The snapshot the weekly rollover writes: every user's balance, tagged with this week's Monday. */
  function FreshSnapshot(users: map<UserId, User>, week: int): map<UserId, WeekEntry>
  {
    map u | u in users :: WeekEntry(users[u].coins, week)
  }

  /** `refresh_weekly_snapshot`: delete every row, then insert one per user. */
  function RefreshTx(db: LedgerState, today: int): (r: LedgerState)
    ensures r.users == db.users && r.markets == db.markets && r.bets == db.bets
    ensures r.snapshot.Keys == db.users.Keys
    ensures forall u :: u in r.snapshot ==> r.snapshot[u] == WeekEntry(db.users[u].coins, WeekStart(today))
  {
    db.(snapshot := FreshSnapshot(db.users, WeekStart(today)))
  }

  /**
   * The rollover is a full replace: afterwards there is exactly one row per user, equal to
   * their balance and tagged with this week's Monday, so everyone's weekly gain is zero
   * for every day of the week until balances move.
   */
  lemma RolloverResetsGain(db: LedgerState, today: int, later: int)
    requires WeekStart(today) <= later <= WeekStart(today) + 6
    ensures var r := RefreshTx(db, today);
      && r.snapshot.Keys == db.users.Keys
      && r.users == db.users && r.markets == db.markets && r.bets == db.bets
      && (forall u :: u in r.users ==> WeeklyGain(r, u, WeekStart(later)) == 0)
  {
    SameWeek(today, later);
  }

  lemma RefreshInv(db: LedgerState, today: int)
    requires Inv(db)
    ensures Inv(RefreshTx(db, today))
  {
    var r := RefreshTx(db, today);
    forall k | 0 <= k < |r.bets| ensures BetWellFormed(r, r.bets[k]) {
      assert BetWellFormed(db, db.bets[k]);
    }
  }

  /** The users with strictly more coins than `coins`. */
  function Richer(users: map<UserId, User>, coins: int): set<UserId>
  {
    set v | v in users && users[v].coins > coins
  }

  /** `SELECT COUNT(*)+1 FROM users WHERE coins > ?`: equal balances share a rank. */
  function Rank(users: map<UserId, User>, coins: int): (rank: int)
    ensures rank >= 1
  {
    |Richer(users, coins)| + 1
  }

  lemma {:induction false} SubsetCard<T>(a: set<T>, b: set<T>)
    requires a <= b
    ensures |a| <= |b|
    decreases |b|
  {
    if b != {} {
      var x :| x in b;
      SubsetCard(a - {x}, b - {x});
    }
  }

  lemma {:induction false} StrictSubsetCard<T>(a: set<T>, b: set<T>, x: T)
    requires a <= b && x in b && x !in a
    ensures |a| < |b|
  {
    SubsetCard(a, b - {x});
  }

  /** An existing user ranks between 1 and the number of users. */
  lemma RankBounds(users: map<UserId, User>, u: UserId)
    requires u in users
    ensures 1 <= Rank(users, users[u].coins) <= |users|
  {
    StrictSubsetCard(Richer(users, users[u].coins), users.Keys, u);
  }

  /** More coins never means a worse rank. */
  lemma RankMonotone(users: map<UserId, User>, low: int, high: int)
    requires low <= high
    ensures Rank(users, high) <= Rank(users, low)
  {
    SubsetCard(Richer(users, high), Richer(users, low));
  }

  /** A user with strictly more coins than a balance ranks strictly above it. */
  lemma RankStrict(users: map<UserId, User>, u: UserId, coins: int)
    requires u in users && users[u].coins > coins
    ensures Rank(users, users[u].coins) < Rank(users, coins)
  {
    StrictSubsetCard(Richer(users, users[u].coins), Richer(users, coins), u);
  }

  /** The user record `upsert_user` returns, with its two derived fields. */
  datatype UserView = UserView(id: UserId, name: string, coins: int, lastDaily: Option<int>, weeklyGain: int, rank: int)

  /**
   * `upsert_user`: a falsy or absent `telegram_id` is refused (None, no change); otherwise
   * the user is ensured under `username` (default "unknown") and returned with this week's
   * gain and their rank.
   */
  function UpsertTx(db: LedgerState, tgId: Option<UserId>, username: Option<string>, today: int): (res: (Option<UserView>, LedgerState))
    ensures res.0.None? <==> tgId.None? || tgId.value == 0
    ensures res.0.None? ==> res.1 == db
    ensures res.0.Some? ==>
      && res.0.value.id == tgId.value && tgId.value in res.1.users
      && res.0.value.coins == res.1.users[tgId.value].coins
      && res.1.users.Keys == db.users.Keys + {tgId.value}
    ensures res.1.markets == db.markets && res.1.bets == db.bets && res.1.snapshot == db.snapshot
  {
    if tgId.None? || tgId.value == 0 then (None, db)
    else
      var name := if username.Some? then username.value else "unknown";
      var db1 := EnsureUserTx(db, tgId.value, name);
      var row := db1.users[tgId.value];
      (Some(UserView(tgId.value, row.name, row.coins, row.lastDaily,
                     WeeklyGain(db1, tgId.value, WeekStart(today)), Rank(db1.users, row.coins))),
       db1)
  }

  /**
   * An upsert never changes a balance: a new id starts at 0 coins, an existing user keeps
   * theirs; the reported gain and rank are those of the state after the upsert.
   */
  lemma UpsertKeepsCoins(db: LedgerState, tgId: Option<UserId>, username: Option<string>, today: int)
    ensures var (view, r) := UpsertTx(db, tgId, username, today);
      && (tgId.None? || tgId == Some(0) <==> view.None?)
      && (view.None? ==> r == db)
      && (view.Some? ==>
            var u := tgId.value;
            && r == EnsureUserTx(db, u, if username.Some? then username.value else "unknown")
            && view.value.id == u
            && view.value.coins == (if u in db.users then db.users[u].coins else 0)
            && view.value.weeklyGain == view.value.coins - SnapshotCoins(r, u, WeekStart(today))
            && view.value.rank == 1 + |Richer(r.users, view.value.coins)|)
      && (forall v :: v in db.users ==> v in r.users && r.users[v].coins == db.users[v].coins)
  {
  }

  lemma UpsertInv(db: LedgerState, tgId: Option<UserId>, username: Option<string>, today: int)
    requires Inv(db)
    ensures Inv(UpsertTx(db, tgId, username, today).1)
  {
    if tgId.Some? && tgId.value != 0 {
      EnsureUserInv(db, tgId.value, if username.Some? then username.value else "unknown");
    }
  }
}

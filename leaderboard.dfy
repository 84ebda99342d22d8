/**
 * The weekly leaderboard query shared by `/leaderboard` (bot.py:393-408) and
 * `GET /api/leaderboard` (server.py:292-307): every user with
 * `weekly_gain = coins - COALESCE(snapshot, 0)`, ordered by weekly gain, then coins,
 * both descending, cut to the first ten rows. SQL leaves the order of rows with equal
 * keys open, so the ranking is a ghost function that picks some maximal user first.
 */
module Leaderboard {
  import opened Config
  import opened Records
  import opened Calendar
  import opened Accounts

  datatype Entry = Entry(id: UserId, name: string, coins: int, weeklyGain: int)

  function EntryOf(db: LedgerState, u: UserId, week: int): Entry
    requires u in db.users
  {
    Entry(u, db.users[u].name, db.users[u].coins, WeeklyGain(db, u, week))
  }

  /** `a` may be listed before `b` under ORDER BY weekly_gain DESC, coins DESC. */
  predicate RanksAbove(a: Entry, b: Entry)
  {
    a.weeklyGain > b.weeklyGain || (a.weeklyGain == b.weeklyGain && a.coins >= b.coins)
  }

  predicate IsTop(db: LedgerState, ids: set<UserId>, u: UserId, week: int)
    requires ids <= db.users.Keys
  {
    u in ids && forall v :: v in ids ==> RanksAbove(EntryOf(db, u, week), EntryOf(db, v, week))
  }

  lemma NonEmpty(s: set<UserId>)
    requires s != {}
    ensures exists x :: x in s
  {
    if forall x :: x !in s {
      assert false;
    }
  }

  lemma {:induction false} TopExists(db: LedgerState, ids: set<UserId>, week: int)
    requires ids != {} && ids <= db.users.Keys
    ensures exists u :: IsTop(db, ids, u, week)
    decreases ids
  {
    NonEmpty(ids);
    var x :| x in ids;
    if ids != {x} {
      TopExists(db, ids - {x}, week);
      var y :| IsTop(db, ids - {x}, y, week);
      if RanksAbove(EntryOf(db, x, week), EntryOf(db, y, week)) {
        assert IsTop(db, ids, x, week);
      } else {
        assert IsTop(db, ids, y, week);
      }
    } else {
      assert IsTop(db, ids, x, week);
    }
  }

  predicate Sorted(r: seq<Entry>)
  {
    forall i, j :: 0 <= i < j < |r| ==> RanksAbove(r[i], r[j])
  }

  predicate DistinctIds(r: seq<Entry>)
  {
    forall i, j :: 0 <= i < j < |r| ==> r[i].id != r[j].id
  }

  /** Every row is the current entry of one of the users `ids`. */
  predicate RowsOf(db: LedgerState, r: seq<Entry>, ids: set<UserId>, week: int)
    requires ids <= db.users.Keys
  {
    forall k :: 0 <= k < |r| ==> r[k].id in ids && r[k] == EntryOf(db, r[k].id, week)
  }

  predicate Lists(r: seq<Entry>, u: UserId)
  {
    exists k :: 0 <= k < |r| && r[k].id == u
  }

  /** Putting a top entry in front of a ranking of the other users ranks them all. */
  lemma RankingCons(db: LedgerState, ids: set<UserId>, week: int, u: UserId, rest: seq<Entry>)
    requires ids <= db.users.Keys && IsTop(db, ids, u, week)
    requires RowsOf(db, rest, ids - {u}, week) && DistinctIds(rest) && Sorted(rest)
    requires forall v :: v in ids - {u} ==> Lists(rest, v)
    ensures var r := [EntryOf(db, u, week)] + rest;
      RowsOf(db, r, ids, week) && DistinctIds(r) && Sorted(r) && forall v :: v in ids ==> Lists(r, v)
  {
    var e := EntryOf(db, u, week);
    var r := [e] + rest;
    forall k | 0 <= k < |rest| ensures RanksAbove(e, rest[k]) && rest[k].id != u {
      assert rest[k].id in ids - {u};
    }
    forall i, j | 0 <= i < j < |r| ensures RanksAbove(r[i], r[j]) && r[i].id != r[j].id {
      if i > 0 {
        assert r[i] == rest[i - 1] && r[j] == rest[j - 1];
      } else {
        assert r[j] == rest[j - 1];
      }
    }
    forall v | v in ids ensures Lists(r, v) {
      if v == u {
        assert r[0].id == v;
      } else {
        assert v in ids - {u};
        assert Lists(rest, v);
        var k :| 0 <= k < |rest| && rest[k].id == v;
        assert r[k + 1].id == v;
      }
    }
  }

  /** All users in `ids`, best first. */
  ghost function Ranking(db: LedgerState, ids: set<UserId>, week: int): (r: seq<Entry>)
    requires ids <= db.users.Keys
    ensures |r| == |ids|
    ensures RowsOf(db, r, ids, week) && DistinctIds(r) && Sorted(r)
    ensures forall u :: u in ids ==> Lists(r, u)
    decreases ids
  {
    if ids == {} then []
    else
      TopExists(db, ids, week);
      var u :| IsTop(db, ids, u, week);
      var rest := Ranking(db, ids - {u}, week);
      RankingCons(db, ids, week, u, rest);
      [EntryOf(db, u, week)] + rest
  }

  function Min(a: int, b: int): int
  {
    if a <= b then a else b
  }

  /** A user missing from the first `n` rows of a sorted ranking ranks no higher than row `n - 1`. */
  lemma PrefixBound(all: seq<Entry>, n: nat, u: UserId)
    requires Sorted(all) && DistinctIds(all) && n <= |all| && Lists(all, u)
    requires forall k :: 0 <= k < n ==> all[k].id != u
    ensures 0 < n ==> exists k :: n <= k < |all| && all[k].id == u && RanksAbove(all[n - 1], all[k])
    ensures n < |all| || !Lists(all, u)
  {
    var k :| 0 <= k < |all| && all[k].id == u;
    assert n <= k;
  }

  /** The first `n` rows of a full ranking are a ranking too, and nobody outside them ranks above the last of them. */
  lemma PrefixTopK(db: LedgerState, all: seq<Entry>, n: nat, week: int)
    requires RowsOf(db, all, db.users.Keys, week) && DistinctIds(all) && Sorted(all)
    requires forall u :: u in db.users ==> Lists(all, u)
    requires n <= |all| && (0 < |all| ==> 0 < n)
    ensures var r := all[..n];
      && RowsOf(db, r, db.users.Keys, week) && DistinctIds(r) && Sorted(r)
      && forall u :: u in db.users && !Lists(r, u) ==> 0 < n && RanksAbove(r[n - 1], EntryOf(db, u, week))
  {
    var r := all[..n];
    forall u | u in db.users && !Lists(r, u)
      ensures 0 < n && RanksAbove(r[n - 1], EntryOf(db, u, week))
    {
      assert forall k :: 0 <= k < n ==> all[k].id != u by {
        forall k | 0 <= k < n ensures all[k].id != u {
          assert r[k] == all[k];
        }
      }
      assert Lists(all, u);
      assert 0 < n;
      PrefixBound(all, n, u);
      var k :| n <= k < |all| && all[k].id == u && RanksAbove(all[n - 1], all[k]);
      assert all[k] == EntryOf(db, u, week);
    }
  }

  /**
   * The leaderboard on day `today`: at most ten distinct users with their balance and
   * this week's gain, in ranking order, and nobody left out ranks above the last row.
   */
  ghost function Board(db: LedgerState, today: int): (r: seq<Entry>)
    ensures |r| == Min(LEADERBOARD_SIZE, |db.users|)
    ensures RowsOf(db, r, db.users.Keys, WeekStart(today)) && DistinctIds(r) && Sorted(r)
    ensures forall u :: u in db.users && !Lists(r, u) ==>
      0 < |r| && RanksAbove(r[|r| - 1], EntryOf(db, u, WeekStart(today)))
  {
    var week := WeekStart(today);
    var all := Ranking(db, db.users.Keys, week);
    var n := Min(LEADERBOARD_SIZE, |all|);
    PrefixTopK(db, all, n, week);
    all[..n]
  }

  /** Right after the weekly rollover the board orders users by balance alone. */
  lemma BoardAfterRollover(db: LedgerState, today: int)
    ensures var r := Board(RefreshTx(db, today), today);
      && (forall i :: 0 <= i < |r| ==> r[i].weeklyGain == 0)
      && (forall i, j :: 0 <= i < j < |r| ==> r[i].coins >= r[j].coins)
  {
    RolloverResetsGain(db, today, today);
  }
}

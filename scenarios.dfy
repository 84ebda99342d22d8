/**
 * Worked settlement and admission examples on small concrete ledgers, stated through the
 * same transitions the handlers run.
 */
module Scenarios {
  import opened Wrappers
  import opened Config
  import opened Records
  import opened MarketEngine
  import opened Admission
  import opened Queries

  const Alice: UserId := 1
  const Bob: UserId := 2

  /** One OPEN market at $50,000.00 with Alice on UP for 100 and Bob on DOWN for 50, both stakes already debited. */
  function TwoBettors(): LedgerState
  {
    LedgerState(
      map[Alice := User("alice", 400, None), Bob := User("bob", 150, None)],
      [NewMarket(50000.0, 0)],
      [Bet(Alice, 0, Up, 100, false), Bet(Bob, 0, Down, 50, false)],
      map[])
  }

  /** The settlement query selects both bets of the only market, which is the OPEN one. */
  lemma TwoBettorsPending()
    ensures LastOpen(TwoBettors().markets) == Some(0)
    ensures Pending(TwoBettors().bets, 0) == TwoBettors().bets
  {
    var bets := TwoBettors().bets;
    assert bets[..1] == [Bet(Alice, 0, Up, 100, false)];
    assert bets[..1][..0] == [];
  }

  /** The settlement loop over both bets when the market closes at `close`. */
  lemma TwoBettorsSettle(close: Price, alice: int, bob: int)
    requires close >= 50000.0
    requires IsTie(50000.0, close) ==> alice == 500 && bob == 200
    requires !IsTie(50000.0, close) ==> alice == 600 && bob == 150
    ensures Settle(TwoBettors().users, TwoBettors().bets, 50000.0, close) ==
      map[Alice := User("alice", alice, None), Bob := User("bob", bob, None)]
  {
    var db := TwoBettors();
    assert db.bets[..1][..0] == [];
    assert Settle(db.users, db.bets[..1][..0], 50000.0, close) == db.users;
    var first := Settle(db.users, db.bets[..1], 50000.0, close);
    assert first == db.users[Alice := User("alice", alice, None)];
  }

  /** The price rises to $50,500.00: Alice is credited 200, Bob nothing, the market closes and both bets resolve. */
  lemma PriceRisesScenario(reopen: Option<Price>, now: int)
    ensures var r := ResolveTx(TwoBettors(), Some(50500.0), reopen, now);
      && r.users[Alice].coins == 600 && r.users[Bob].coins == 150
      && r.markets[0].status == Closed && r.markets[0].closePrice == Some(50500.0)
      && r.bets == [Bet(Alice, 0, Up, 100, true), Bet(Bob, 0, Down, 50, true)]
  {
    var db := TwoBettors();
    TwoBettorsPending();
    TwoBettorsSettle(50500.0, 600, 150);
    var closed := CloseTx(db, 0, 50500.0, now);
    assert closed.bets == [Bet(Alice, 0, Up, 100, true), Bet(Bob, 0, Down, 50, true)];
    assert ResolveTx(db, Some(50500.0), reopen, now) == OpenTx(closed, reopen, now);
  }

  /** The price stays at $50,000.00: both stakes come back. */
  lemma TieScenario(reopen: Option<Price>, now: int)
    ensures var r := ResolveTx(TwoBettors(), Some(50000.0), reopen, now);
      r.users[Alice].coins == 500 && r.users[Bob].coins == 200
  {
    var db := TwoBettors();
    TwoBettorsPending();
    TwoBettorsSettle(50000.0, 500, 200);
    assert ResolveTx(db, Some(50000.0), reopen, now) == OpenTx(CloseTx(db, 0, 50000.0, now), reopen, now);
  }

  /**
   * The price creeps up by half a cent: settlement refunds both stakes as a tie, yet the
   * recent-bets query shows Alice's UP bet as won.
   */
  lemma SubCentScenario(reopen: Option<Price>, now: int)
    ensures var r := ResolveTx(TwoBettors(), Some(50000.005), reopen, now);
      && r.users[Alice].coins == 500 && r.users[Bob].coins == 200
      && Won(r.bets[0], r.markets[0]) && !Won(r.bets[1], r.markets[0])
  {
    var db := TwoBettors();
    TwoBettorsPending();
    TwoBettorsSettle(50000.005, 500, 200);
    var closed := CloseTx(db, 0, 50000.005, now);
    assert closed.bets == [Bet(Alice, 0, Up, 100, true), Bet(Bob, 0, Down, 50, true)];
    assert ResolveTx(db, Some(50000.005), reopen, now) == OpenTx(closed, reopen, now);
  }

  /** A user holding 10 coins who asks to stake 50 is refused for lack of funds; nothing changes. */
  lemma ShortOfFundsScenario(dir: Direction)
    ensures var db := LedgerState(map[Alice := User("alice", 10, None)], [NewMarket(50000.0, 0)], [], map[]);
      StakeTx(db, Alice, dir, 50) == (Rejected(InsufficientFunds), db)
  {
    var db := LedgerState(map[Alice := User("alice", 10, None)], [NewMarket(50000.0, 0)], [], map[]);
    assert LastOpen(db.markets) == Some(0);
  }
}

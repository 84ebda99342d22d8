# CoinPredict ledger model

CoinPredict is a five-minute Bitcoin prediction game with two front-ends: a Telegram
bot (`bot.py`) and an HTTP API for the Telegram Mini App (`server.py`). Both share one
SQLite database. This project models that database as one abstract ledger and proves
the business logic both processes run against it:

- **Users** have integer `coins` and the day of their last daily-reward claim.
- **Markets** form a sequence, each OPEN or CLOSED.
- **Bets** form a sequence, each with a `resolved` flag.
- **A weekly snapshot** maps each user to their coins at the start of the week.

The main pieces:

- **Settlement engine.** The scheduler's `resolve_market` and `open_new_market`, and
  the startup rule of `main`.
- **Bet admission.** Both front-ends: `/bet` in the bot and `POST /api/bet` in the API.
- **Sliding-window rate limiter.** Used by `/bet`.
- **Daily reward.** Granted when a user reacts to the reward post.
- **Weekly figures.** The weekly snapshot rollover, weekly gain, rank and the leaderboard.
- **API read queries.** The current market, the active bet, and recent bets with
  their `won` flag.

Layout, one module per file:

| file | module | what it holds |
|---|---|---|
| `wrappers.dfy` | `Wrappers` | `Option` and `Result` |
| `config.dfy` | `Config` | the constants |
| `calendar.dfy` | `Calendar` | day numbers and weekdays (`_current_week_start`) |
| `text.dfy` | `Text` | `str.upper()` and `int()` on ASCII words |
| `records.dfy` | `Records` | the table rows, `LedgerState` and the invariant `Inv` |
| `market_engine.dfy` | `MarketEngine` | the settlement transitions and the payout arithmetic |
| `accounts.dfy` | `Accounts` | user rows, daily reward, weekly snapshot, weekly gain, rank, `upsert_user` |
| `admission.dfy` | `Admission` | the stake transaction both front-ends share |
| `rate_limiter.dfy` | `RateLimit` | `is_rate_limited` and its per-user buckets |
| `requests.dfy` | `Requests` | validation of `/bet` arguments and of the JSON body |
| `leaderboard.dfy` | `Leaderboard` | the weekly leaderboard query |
| `queries.dfy` | `Queries` | the read-only API endpoints |
| `ledger.dfy` | `Store` | class `Ledger`: the four tables as fields, one method per transaction |
| `bot.dfy` | `Bot` | the `/bet` and reaction handlers |
| `server.dfy` | `Server` | the bet endpoint |
| `scenarios.dfy` | `Scenarios` | worked examples on concrete ledgers |

How the model is put together:

- **Transactions.** Every locked SQL transaction is a pure transition on
  `LedgerState`, such as `ResolveTx`, `StakeTx` or `ClaimTx`. It is also a method of
  `Store.Ledger` that updates the fields in place. Each method is proved to leave
  `State()` equal to its transition, and to keep `Inv`. The transitions' properties
  are proved as lemmas.
- **Ids.** A market's or bet's id is its position in its sequence plus one. This is
  SQLite's AUTOINCREMENT; rows are never deleted.
- **Prices.** Prices are exact decimal dollar amounts (`real`). A settlement is a tie
  when the close price is within a cent of the open price either way,
  `abs(close - open) < 0.01` (bot.py:159).
- **Dates.** Dates are day numbers, where day 0 is 1970-01-01, a Thursday.
- **Timestamps.** Timestamps are integer seconds.
- **Oracle.** The Bitcoin price oracle is an `Option<Price>` parameter; `None` means the
  price is unavailable. `resolve_market` consults the oracle twice: once for the close
  price and once inside `open_new_market`. `ResolveTx` therefore takes two oracle
  answers, `close` and `reopen`.

Facts about the code that the model keeps:

- **OPEN markets.** The code keeps at most one OPEN market, not always exactly one. A
  tick that closes the OPEN market and then fails the second oracle call at bot.py:195
  leaves none OPEN until a later tick reopens one (bot.py:151-154). `Inv` states "at
  most one"; `MarketEngine.ResolveTick` shows when none remains.
- **Amount 0.** The API refuses an amount of 0 as a missing field, not as below the
  minimum. The bot refuses it as below the minimum. See `Requests.ZeroAmountDiffers`.
- **Unknown users.** The API's bet endpoint never creates a user; only `POST /api/user`
  does (server.py:110-118). The bot creates the user before
  checking the ledger. A first-time player is therefore refused as unknown by the API,
  but as short of funds by the bot. See `Server.NewPlayerOnBothFrontEnds`.
- **Sub-cent moves.** Settlement treats any move of less than a cent as a tie and refunds
  every stake (bot.py:159, 172-179). The `won` column of the recent-bets query compares
  the prices strictly (server.py:273-274), so after a half-cent rise it shows every UP bet
  as won although it was only refunded. `Queries.SubCentMoveShownAsWon` proves the
  disagreement and `Scenarios.SubCentScenario` exhibits it; `Queries.WonMatchesSettlement`
  proves the two agree whenever the price is unchanged or moved by a cent or more.

## Model

| member | source | states |
|---|---|---|
| Calendar.Weekday | bot.py:202 | the weekday lies in 0..6, and subtracting it from the day lands on a Monday (Monday is 0) |
| Calendar.WeekStart | bot.py:199-203 | the week start is a Monday, on or before the day and at most six days before it |
| Calendar.FirstMonday | bot.py:199-203 | 1970-01-01 is a Thursday whose week starts on 1969-12-29; 1970-01-05 is a Monday |
| Calendar.NextWeekday | bot.py:202 | consecutive days have consecutive weekdays, Sunday wrapping to Monday |
| Calendar.MondaysAWeekApart | server.py:84-87 | two Mondays less than seven days apart are the same day |
| Calendar.SameWeek | server.py:84-87 | every day of a week has that week's Monday as its week start |
| Calendar.WeekStartIdempotent | bot.py:199-203 | the week start of a week start is itself, so the snapshot key is stable all week |
| Text.Upper | bot.py:314 | the result has the same length and is the upper-cased character at each position |
| Text.ParseInt | bot.py:319-323 | a word parses exactly when it is non-empty and, after at most one leading sign, is one or more digits; the value is their decimal value, negated after a minus |
| Text.NatString | bot.py:319-323 | the decimal notation of a natural number is non-empty, all digits and unsigned |
| Text.NatStringValue | bot.py:319-323 | reading the digits of a number's decimal notation gives back the number |
| Text.ParseIntRoundTrip | bot.py:319-323 | `int()` reads back every integer written in decimal notation |
| Text.UpperOfUpperCase | bot.py:314-315 | upper-casing a word with no lower-case ASCII letter leaves it unchanged |
| Records.EmptyLedger | bot.py:65-100 | the freshly created database has four empty tables and satisfies the ledger invariant |
| MarketEngine.LastOpen | bot.py:124-127 | the result is an OPEN market with no OPEN market after it, and there is none exactly when no market is OPEN |
| MarketEngine.OpenTx | bot.py:129-139 | without a price nothing changes; with one, exactly one market is appended, it is the OPEN one, at that price, with no close price and closing one interval later; users, bets and snapshot never change |
| MarketEngine.Payout | bot.py:159-188 | a bet with a non-negative stake is credited between nothing and twice its stake, and nothing when settlement does not pay it |
| MarketEngine.CloseTx | bot.py:156-194 | the market is CLOSED at the close price and the tick's time with its open price kept, every other market is unchanged, every bet on it is resolved, and the table sizes, user set and snapshot are kept |
| MarketEngine.ResolveTx | bot.py:142-195 | without a close price nothing changes; otherwise the user set, snapshot and bet count are kept and exactly one market is added when the second oracle call gave a price |
| MarketEngine.StartupTx | bot.py:481-484 | with a market already OPEN, or no price, nothing changes; otherwise a new market becomes the OPEN one and users and bets are untouched |
| MarketEngine.Pending | bot.py:166-170 | the selection is exactly the table's unresolved bets on that market: each selected bet is one, every such bet is selected, each as often as it occurs in the table |
| MarketEngine.Settle | bot.py:172-188 | the settlement loop keeps the set of users and every name and claim date |
| MarketEngine.PayoutRule | bot.py:159-188 | a bet whose price moved by less than a cent either way is credited its stake; after a rise of a cent or more UP bets get twice their stake and DOWN bets nothing, after a fall of a cent or more the reverse |
| MarketEngine.SettleCredits | bot.py:172-188 | a user's balance after the loop is their balance before it plus the payouts of their own bets |
| MarketEngine.CreditNonneg | bot.py:172-188 | with non-negative stakes nobody is credited a negative amount |
| MarketEngine.CreditOfAbsent | bot.py:172-188 | a user without a bet among the settled ones is credited nothing |
| MarketEngine.TieRefundsEachUser | bot.py:172-179 | on a tie (a move of less than a cent) each user is credited exactly what they staked |
| MarketEngine.TieRefundsTotal | bot.py:172-179 | on a tie the total credited equals the total staked |
| MarketEngine.WinPaysMultiple | bot.py:180-188 | otherwise the total credited is the multiplier times the stakes on the winning side |
| MarketEngine.CloseTxBalances | bot.py:172-188 | settling the OPEN market leaves every balance non-negative |
| MarketEngine.CloseTxBets | bot.py:194 | resolving the closed market's bets keeps every bet well formed and at most one bet per user and market |
| MarketEngine.CloseTxBetAt | bot.py:194 | after closing, each bet still names a known user and an existing market, keeps its stake within the limits, and is resolved exactly when its market is CLOSED |
| MarketEngine.MarkResolvedUnique | bot.py:194 | flipping the `resolved` flags keeps at most one bet per user and market |
| MarketEngine.OpenTxInv | bot.py:129-139 | opening a market with no market OPEN keeps the invariant, does nothing without a price and otherwise makes the new market the OPEN one |
| MarketEngine.MarkResolvedAt | bot.py:194 | resolving a market's bets keeps the table's length and flips the flag of exactly that market's bets |
| MarketEngine.CloseTxInv | bot.py:156-194 | closing the OPEN market and settling its bets keeps the invariant and leaves no market OPEN |
| MarketEngine.ResolveTxInv | bot.py:142-195 | every settlement tick keeps the invariant: at most one OPEN market, no negative balance, one bet per user and market |
| MarketEngine.ResolveTick | bot.py:142-195 | no price: nothing changes; no OPEN market: only a market is opened and nobody is credited; afterwards a fresh OPEN market exists exactly when the second oracle call gave a price |
| MarketEngine.SettledMarket | bot.py:156-194 | the settled market is CLOSED at the close price, exactly its bets become resolved, and each user is credited the payouts of their pending bets on it |
| MarketEngine.StartupTxInv | bot.py:481-484 | startup opens a market only when none is OPEN and keeps the invariant |
| Accounts.EnsureUserTx | bot.py:239-248 | the user exists afterwards under the new name with their old row, or with 0 coins if new; no other row or table changes |
| Accounts.EnsureUserInv | bot.py:239-248 | ensuring a user keeps the invariant |
| Accounts.ClaimTx | bot.py:444-457 | a granted claim reports the user's new balance and records today; a refused claim is only the user registration; markets, bets and snapshot never change |
| Accounts.ClaimEffect | bot.py:444-457 | a claim on a day already recorded changes no balance or date; otherwise it adds exactly the daily amount and records the day; nobody else changes |
| Accounts.ClaimIdempotent | bot.py:450-452 | a second claim on the same day grants nothing and changes nothing |
| Accounts.ClaimInv | bot.py:444-457 | a claim keeps the invariant |
| Accounts.WeeklyGain | server.py:124-130 | the gain is coins minus this week's snapshot, or the coins themselves when the user has no snapshot for this week |
| Accounts.RefreshTx | bot.py:205-216 | the new snapshot has exactly one row per user, holding their balance and this week's Monday; users, markets and bets are unchanged |
| Accounts.RolloverResetsGain | bot.py:205-216 | the rollover leaves exactly one snapshot row per user and touches nothing else, so every weekly gain is 0 on every day of the week |
| Accounts.RefreshInv | bot.py:205-216 | the rollover keeps the invariant |
| Accounts.Rank | server.py:132-136 | a rank is at least 1 |
| Accounts.RankBounds | server.py:132-136 | an existing user's rank lies between 1 and the number of users |
| Accounts.RankMonotone | server.py:132-136 | more coins never means a worse rank |
| Accounts.RankStrict | server.py:132-136 | a user with strictly more coins than a balance ranks strictly above it, while equal balances share a rank |
| Accounts.UpsertTx | server.py:100-138 | a refusal happens exactly for an absent or zero id and changes nothing; otherwise the reported user is the ensured one with their stored balance; markets, bets and snapshot never change |
| Accounts.UpsertKeepsCoins | server.py:100-138 | a falsy id is refused with no change; otherwise the user is ensured and reported with their unchanged balance, this week's gain and their rank; no balance ever changes |
| Accounts.UpsertInv | server.py:100-138 | an upsert keeps the invariant |
| Admission.FindPendingFrom | server.py:208-211 | the search finds the first unresolved bet of the user on the market from a position on, or reports that there is none |
| Admission.FindPending | bot.py:352-355 | the duplicate lookup finds an unresolved bet of the user on the market exactly when one exists |
| Admission.StakeTx | server.py:193-222 | a rejection changes nothing; a placed bet requires a known user and an OPEN market, debits the stake from that user, reports the new balance and appends one unresolved bet on the OPEN market; markets, snapshot and user set never change |
| Admission.StakeChecks | server.py:193-213 | the ledger checks run in order (OPEN market, known user, enough coins, no pending bet), each rejection exactly when its condition is the first to fail, and a rejection changes nothing |
| Admission.StakeDebitsOnce | bot.py:362-372 | a placed bet debits the stake exactly once from that user only, leaves the balance non-negative, appends one unresolved bet on the OPEN market and reports the new balance and twice the stake |
| Admission.NoBetOnOpenMarket | bot.py:351-360 | with no pending bet there is no bet at all by the user on the OPEN market |
| Admission.StakeInv | server.py:193-222 | a stake within the limits keeps the invariant, so the UNIQUE insert never fails |
| Admission.NoDoubleBet | bot.py:351-360 | once a bet is placed, any further attempt by the user on that market is refused and changes nothing |
| Admission.StakeThenSettle | bot.py:142-195 | a stake followed by a settlement tick leaves the user with the old balance minus the stake plus that bet's payout |
| Admission.OnlyNewBetCredited | bot.py:172-188 | with no earlier pending bet of the user on the market, settlement credits the user that new bet's payout only |
| Admission.PendingNotOf | bot.py:166-170 | with no pending bet of the user on the market, none of the bets settlement selects is theirs |
| Admission.TieRestoresBalance | bot.py:172-179 | on a tie the bettor ends exactly where they started |
| Admission.WinOrLose | bot.py:180-188 | a winner ends the stake ahead, a loser the stake behind |
| RateLimit.Recent | bot.py:231 | pruning keeps exactly the timestamps newer than the cutoff, each as many times as it occurs, and never adds any |
| RateLimit.Prune | bot.py:231 | the pruning loop computes the pruned list |
| RateLimit.Attempt | bot.py:224-235 | the kept timestamps are the attempt's own or recent ones from the bucket; an admitted attempt ends the bucket with itself and leaves at most the limit; a refused one keeps exactly the recent timestamps, already at the limit |
| RateLimit.AttemptRule | bot.py:224-235 | an attempt keeps only timestamps newer than a window, is refused exactly when the limit is already reached, records the attempt only when admitted and never lets a bucket exceed the limit |
| RateLimit.RecentDrops | bot.py:231 | a timestamp a window old is dropped by pruning |
| RateLimit.WindowReopens | bot.py:224-235 | once a window has passed since a recorded attempt, the next attempt is admitted |
| RateLimit.RecentTwice | bot.py:231 | pruning at two cutoffs keeps what pruning at the later one keeps |
| RateLimit.AdmitStep | bot.py:234 | an admitted attempt adds exactly one timestamp that survives any cutoff within a window before it |
| RateLimit.FourthWithinWindowRefused | bot.py:224-235 | after three attempts admitted within one window, every further attempt inside that window is refused |
| RateLimit.RateLimiter.constructor | bot.py:221 | the limiter starts with no buckets |
| RateLimit.RateLimiter.IsRateLimited | bot.py:224-235 | the answer and the user's new bucket are those of one attempt on the old bucket; other users' buckets are unchanged; no bucket exceeds the limit |
| Requests.Truncate | server.py:184-185 | `int()` of a float truncates toward zero |
| Requests.PyInt | server.py:184-187 | `int()` fails exactly on null, arrays and objects, and strings that are not integers; a string is read like the bot's argument; a float is truncated toward zero |
| Requests.ParseDirection | bot.py:314-317 | a parsed direction's name is the upper-cased word, and parsing fails exactly when the upper-cased word is neither UP nor DOWN |
| Requests.CheckRange | bot.py:325-330 | an amount passes exactly when it is within the limits, and otherwise is refused as below the minimum or above the maximum |
| Requests.ParseCommand | bot.py:307-330 | fewer than two words is a usage error; otherwise a word that is not UP or DOWN is refused as a bad direction, then a non-integer amount as not an integer, then an amount out of range by the range check; each refusal exactly when its check is the first to fail, and acceptance exactly when all pass, with the parsed direction and amount |
| Requests.ValidateBody | server.py:175-191 | a truthy non-string direction is a server error; otherwise a missing or falsy user id, direction or amount is refused as missing, then a direction other than UP or DOWN, then an amount `int()` cannot read, then an amount out of range; each refusal exactly when its check is the first to fail, and acceptance exactly when all pass, with the user id, direction and `int()` of the amount |
| Requests.ParseDirectionWords | bot.py:314-317 | the direction word is UP or DOWN exactly when it spells one of them in any mix of cases |
| Requests.ParseDirectionName | bot.py:314-317 | the direction names parse back to their directions |
| Requests.FrontEndsAgree | bot.py:307-330 | on a non-zero amount the bot and the API accept the same requests with the same direction and amount and refuse the others for the same range reason |
| Requests.ApiStringAmount | server.py:183-187 | a JSON string amount is read like the number it spells |
| Requests.ZeroAmountDiffers | server.py:179-180 | an amount of 0 is too small to the bot but missing to the API |
| Requests.LenientApiAmounts | server.py:183-187 | the API accepts a fractional amount, truncated, and `true` as 1 |
| Requests.ApiEdgeCases | server.py:175-191 | a fraction below one truncates to 0 and is refused as below the minimum; a truthy non-string direction is a server error |
| Leaderboard.TopExists | bot.py:404 | every non-empty set of users has one that ranks above all others under the ordering |
| Leaderboard.Ranking | bot.py:396-404 | the ordering lists every user exactly once with their current entry, sorted by weekly gain then coins, both descending |
| Leaderboard.PrefixBound | bot.py:404-405 | a user missing from the first rows of a sorted ranking ranks no higher than the last of them |
| Leaderboard.PrefixTopK | bot.py:404-405 | the first rows of the ranking are sorted, distinct current entries, and nobody left out ranks above the last row |
| Leaderboard.Board | server.py:292-307 | the leaderboard has min(10, users) distinct rows with current balance and weekly gain, sorted, and nobody left out ranks above the last row |
| Leaderboard.BoardAfterRollover | bot.py:205-216 | right after the rollover every row shows a gain of 0 and the rows are ordered by balance |
| Queries.CurrentMarket | server.py:142-151 | the result is the OPEN market with the highest id and its id, and there is none exactly when no market is OPEN |
| Queries.WonRule | server.py:272-275 | a bet shows as won exactly when it is resolved and the price moved strictly to its side; a tie or an unresolved bet is never won |
| Queries.WonMatchesSettlement | server.py:272-274 | after a tick that leaves the price unchanged or moves it by a cent or more, each bet on the settled market shows as won exactly when settlement credited it twice its stake |
| Queries.WonAgreesWithPayout | server.py:272-274 | for a resolved bet with a positive stake on a market closed at an unchanged price or a move of at least a cent, the `won` column is set exactly when the payout is twice the stake |
| Queries.SubCentMoveShownAsWon | server.py:272-274 | after a tick whose price moved by less than a cent but not zero, a bet on the side of the move is only refunded, yet shows as won |
| Queries.Won | server.py:272-274 | a bet shown as won is resolved and its market closed at a price different from its open price |
| Queries.TakeRows | server.py:276-280 | listing the newest matching bet in front of older rows keeps every row a view of one of the user's bets |
| Queries.TakeDescending | server.py:279 | listing the newest matching bet in front of older rows keeps the ids descending |
| Queries.TakeLeftOut | server.py:279-280 | listing the newest matching bet in front keeps the limit rule: anything left out is older than every listed row |
| Queries.RecentSkip | server.py:278 | a bet of another user changes nothing in the list |
| Queries.RecentFrom | server.py:269-283 | at most `limit` rows, each the view of one of the user's bets with its market's prices and `won` flag, newest first, anything left out older than every listed row |
| Queries.RecentBets | server.py:261-285 | a missing user id is refused; otherwise at most ten of the user's bets |
| Queries.ActiveBet | server.py:238-257 | a missing user id is refused; a returned bet is the user's unresolved bet on the highest-id OPEN market; none means no OPEN market or no such bet |
| Queries.ActiveBetAfterStake | server.py:245-257 | right after a bet is placed the active-bet query returns exactly the inserted row |
| Queries.NoActiveBetAfterSettle | server.py:245-257 | after a tick that had a close price nobody has an active bet |
| Store.RefundStep | bot.py:174-178 | one more iteration of the tie loop credits the next bet's stake |
| Store.PayStep | bot.py:183-188 | one more iteration of the win loop credits the next bet twice its stake if it is on the winning side |
| Store.Ledger.constructor | bot.py:65-100 | the database starts with four empty tables |
| Store.Ledger.EnsureUser | bot.py:239-248 | the tables afterwards are those of `ensure_user` on the old ones |
| Store.Ledger.OpenNewMarket | bot.py:129-139 | the tables afterwards are those of `open_new_market` with the oracle's answer; a new market is the OPEN one |
| Store.Ledger.ResolveMarket | bot.py:142-195 | the tables afterwards are those of the settlement tick on the old ones, and the invariant holds |
| Store.Ledger.RefundAll | bot.py:172-179 | the loop credits every pending bet its stake and changes no other table |
| Store.Ledger.PayWinners | bot.py:180-188 | the loop credits each winning bet twice its stake and changes no other table |
| Store.Ledger.Startup | bot.py:481-484 | the tables afterwards are those of the startup rule |
| Store.Ledger.RefreshWeeklySnapshot | bot.py:205-216 | the snapshot afterwards is every user's balance tagged with this week's Monday |
| Store.Ledger.Stake | server.py:193-226 | outcome and tables are those of the stake transaction on the old tables |
| Store.Ledger.ClaimDaily | bot.py:444-460 | the grant and the tables are those of the claim transaction |
| Store.Ledger.UpsertUser | server.py:100-138 | the reported user and the tables are those of `upsert_user` |
| Bot.DisplayName | bot.py:242 | the name is the username when present and non-empty, else the first name |
| Bot.BetCommandTx | bot.py:297-372 | a rate-limited attempt is refused with no change; bad arguments are refused with their error and no change; well-formed arguments give exactly the stake transaction on the ledger with the user ensured; markets and snapshot never change |
| Bot.BetCommandChecks | bot.py:297-372 | `/bet` refuses in order (rate limit, arguments, then no OPEN market, short of funds counting a new user as 0 coins, pending bet on the OPEN market), each ledger refusal exactly when its check is the first to fail, and places the bet exactly when all pass; never refused as an unknown user; refusals before the transaction write nothing, refusals inside it keep only the user registration, and no refusal changes a balance or a bet |
| Bot.BetCommandPlaced | bot.py:332-372 | a placed `/bet` debits exactly the parsed stake from a balance that covered it (0 for a new user), appends one unresolved bet on the OPEN market and reports the new balance and twice the stake |
| Bot.BetCommandInv | bot.py:297-372 | `/bet` keeps the invariant |
| Bot.ReactionTx | bot.py:428-457 | a grant needs a new reaction from a user who is not a bot and reports that user's new balance; bets, markets and snapshot never change |
| Bot.CmdBet | bot.py:297-372 | the rate limiter's buckets and the tables afterwards are those of one attempt and of the `/bet` transition |
| Bot.ReactionEffect | bot.py:428-457 | removed reactions, reactions to another configured message and reactions without a user or from a bot change nothing; otherwise only the reacting user gets the daily amount, once per day |
| Bot.ReactionOncePerDay | bot.py:446-452 | reacting again on the same day grants nothing and changes nothing |
| Bot.ReactionInv | bot.py:428-457 | the reaction handler keeps the invariant |
| Bot.OnReaction | bot.py:428-460 | the grant and the tables afterwards are those of the reaction transition |
| Server.PlaceBetChecks | server.py:175-213 | the body is checked before any ledger access; then no OPEN market, unknown user, short of funds and pending bet, each refusal exactly when its check is the first to fail, and the bet is placed exactly when all pass; every refusal leaves the ledger unchanged and no user is created |
| Server.PlaceBetTx | server.py:172-226 | an invalid body is refused with its error and no change; a valid one gives exactly the stake transaction on the validated user, direction and amount; no market is touched and no user created |
| Server.PlaceBetPlaced | server.py:215-234 | a placed API bet debits exactly the stake, appends one unresolved bet on the OPEN market and reports `new_balance` and `potential_payout` |
| Server.PlaceBetInv | server.py:172-226 | the bet endpoint keeps the invariant |
| Server.NewPlayerOnBothFrontEnds | server.py:200-204 | a first-time player is refused as unknown by the API with no write, but registered with 0 coins and refused for lack of funds by `/bet` |
| Server.PlaceBet | server.py:172-234 | outcome and tables are those of the bet endpoint's transition |
| Scenarios.PriceRisesScenario | bot.py:180-194 | a rise from 50,000.00 to 50,500.00 credits the UP bettor 200 and the DOWN bettor nothing, closes the market and resolves both bets |
| Scenarios.TieScenario | bot.py:172-179 | an unchanged price gives both bettors their stakes back |
| Scenarios.ShortOfFundsScenario | server.py:205-206 | a user with 10 coins asking to stake 50 is refused for lack of funds and nothing changes |
| Scenarios.TwoBettorsPending | bot.py:166-170 | in the two-bettor ledger the settlement query selects both bets of the only market, which is the OPEN one |
| Scenarios.TwoBettorsSettle | bot.py:172-188 | in the two-bettor ledger a tie refunds both stakes, while a rise of a cent or more pays Alice twice the stake and Bob nothing |
| Scenarios.SubCentScenario | server.py:272-274 | a half-cent rise refunds both bettors, yet Alice's UP bet shows as won and Bob's DOWN bet does not |

## Left out

- Telegram transport is not modelled, since it is I/O: handlers, `reply_text`, message formatting, the `/start`, `/balance` and `/price` displays, and the private win/loss notification (bot.py:462-474).
- Flask routing, CORS, HTTP status codes, the health and price endpoints, and JSON encoding of responses are not modelled. Outcomes are the `Rejection` datatype.
- `validate_init_data` and `require_valid_user` (server.py:41-80) are not modelled. They are HMAC-SHA256 computed through foreign libraries.
- The CoinGecko HTTP calls (bot.py:110-120, server.py:155-168) are not modelled. Their answers are `Option<Price>` parameters.
- The wall clock is not modelled. Today and now are integer parameters. A settlement tick reads the clock twice, for the closed market's close time (bot.py:158) and, after the second oracle call, for the new market's open time (bot.py:133); `MarketEngine.ResolveTx` uses one `now` for both, so the two share one instant.
- Persistence, concurrency and scheduling are not modelled: SQLite, WAL mode, connection handling, `_db_lock`, `_rate_lock` and the APScheduler jobs. Each locked block is one atomic method.
- Under that atomicity assumption, two interleavings are not captured:
  - The API's transaction does not take the bot's lock.
  - The bot holds its lock across the second oracle call.
- Float rounding of prices is not modelled. Prices are exact reals, so a difference that rounds across the 0.01 tie bound in binary floating point is decided as if exact.
- The percentage change shown by `/price` (bot.py:286-288) is not modelled; it is display arithmetic on floats.
- The countdown in the `/bet` reply (bot.py:373-382) is not modelled; it is display arithmetic on floats.
- ISO date and time strings are day numbers and second counts.
- `RateLimit.Attempt`: uses whole-second timestamps. The source compares float timestamps, so sub-second spacing is not modelled.
- Stored timestamps are not compared as strings anywhere in the core, so their text form does not matter.
- `Text.ParseInt`: models `int()` on ASCII words only. It refuses surrounding whitespace, `_` digit separators and non-ASCII digits, all of which Python's `int()` accepts. For `/bet` the argument words come already split on spaces, so only the separators and other digits are affected.
- `Requests.PyInt`: a JSON string amount with surrounding whitespace (`" 5 "`, `"5\n"`) or `_` separators (`"1_000"`) is accepted by the API's `int()`, but the model refuses it as not an integer.
- `Requests.ValidateBody`: inherits that difference from `Requests.PyInt`, so for such string amounts it answers NotInteger where the API goes on to the range check.
- `Text.Upper`: upper-cases ASCII letters only. Python also upper-cases other letters, but no single non-ASCII character becomes a letter of UP or DOWN, so the direction check is unaffected.
- `Requests.ValidateBody`: takes `user_id` as an absent-or-integer value. It does not model a string user id or an id of another JSON type.
- `Requests.PyInt`: treats a float amount as an exact real. It does not model float rounding, the OverflowError that `int()` raises on infinities, or the ValueError it raises on `NaN`, which Python's `json` accepts and the API would answer as not an integer; `JFloat` holds only finite values.
- `Accounts.UpsertTx`: takes `telegram_id` as absent or an integer. A truthy non-integer id, such as a non-empty string or a float, which the source would store as given, is not modelled.
- `Accounts.UpsertTx`: takes `username` as absent or a string. It does not model an explicit JSON `null` username, which the source stores as NULL.
- 64-bit integer overflow of SQLite columns is not modelled. Balances and amounts stay far below 2^63 under the bet limits.
- `Leaderboard.Board`: fixes one ordering of users whose weekly gain and coins are both equal. SQL leaves that order open. The proved properties hold for whichever order is chosen, but the model does not enumerate every order.
- `RateLimit.Recent`: its contract states which timestamps are kept and how many times each, not that they keep their order; `RateLimit.Prune` and the body keep the bucket's order.
- `MarketEngine.Pending`: its contract states which bets are selected and how many times each, not that they keep the table's id order.
- `Queries.RecentBets` and `Queries.ActiveBet`: take the query-string `user_id` as an absent-or-integer value. The source reads it as a string (server.py:241, 264) and hands it to SQLite, so a non-numeric value such as `?user_id=abc` matches no bet and yields `bet=None` or an empty list; the model cannot express that input.
- `Queries.RecentBets`: its own contract states only the limit and ownership of the rows. The ordering and the limit rule are stated by `Queries.RecentFrom`, which it returns.

/** The tunable constants of the bot and of the HTTP API (bot.py:37-45, bot.py:159, server.py:27, server.py:188-191). */
module Config {
  const DAILY_REWARD_AMOUNT := 100
  const MARKET_INTERVAL_MINS := 5
  /** Seconds between a market's opening and its scheduled close. */
  const MARKET_INTERVAL_SECS := MARKET_INTERVAL_MINS * 60
  const WIN_MULTIPLIER := 2
  /** Settlement treats a price move smaller than this many dollars as no move (bot.py:159). */
  const TIE_TOLERANCE: real := 0.01
  const MAX_BET_AMOUNT := 10000
  const MIN_BET_AMOUNT := 1
  const BET_RATE_LIMIT_COUNT := 3
  /** Length of the sliding rate-limit window, in seconds. */
  const BET_RATE_LIMIT_WINDOW := 60
  /** Rows returned by the leaderboard queries and by the recent-bets query. */
  const LEADERBOARD_SIZE := 10
  const RECENT_BETS_LIMIT := 10
}

/**
 * The per-user sliding-window limiter of the bet command (bot.py:221-235): it keeps,
 * per user, the timestamps (seconds) of admitted attempts, drops those at least a window
 * old, refuses when the limit is reached and otherwise records the attempt.
 * It lives in process memory, apart from the ledger.
 */
module RateLimit {
  import opened Config
  import opened Records

  /** `[t for t in bucket if t > cutoff]`. */
  function Recent(ts: seq<int>, cutoff: int): (r: seq<int>)
    ensures |r| <= |ts|
    ensures forall t :: t in r <==> t in ts && t > cutoff
    ensures forall t :: multiset(r)[t] == if t > cutoff then multiset(ts)[t] else 0
  {
    if ts == [] then []
    else
      assert ts == ts[..|ts| - 1] + [ts[|ts| - 1]];
      Recent(ts[..|ts| - 1], cutoff) + (if ts[|ts| - 1] > cutoff then [ts[|ts| - 1]] else [])
  }

  /** The pruning comprehension, as the loop it stands for. */
  method Prune(ts: seq<int>, cutoff: int) returns (kept: seq<int>)
    ensures kept == Recent(ts, cutoff)
  {
    kept := [];
    var i := 0;
    while i < |ts|
      invariant 0 <= i <= |ts|
      invariant kept == Recent(ts[..i], cutoff)
    {
      assert ts[..i + 1][..i] == ts[..i];
      if ts[i] > cutoff {
        kept := kept + [ts[i]];
      }
      i := i + 1;
    }
    assert ts[..i] == ts;
  }

  /** `_rate_buckets[user_id]` of a defaultdict: empty for a user never seen. */
  function Bucket(buckets: map<UserId, seq<int>>, u: UserId): seq<int>
  {
    if u in buckets then buckets[u] else []
  }

  /** One attempt at `now` against a user's timestamps: whether it is refused, and the timestamps kept. */
  function Attempt(bucket: seq<int>, now: int): (res: (bool, seq<int>))
    ensures forall t :: t in res.1 ==> t == now || (t in bucket && t > now - BET_RATE_LIMIT_WINDOW)
    ensures !res.0 ==> 0 < |res.1| <= BET_RATE_LIMIT_COUNT && res.1[|res.1| - 1] == now
    ensures res.0 ==> |res.1| >= BET_RATE_LIMIT_COUNT && res.1 == Recent(bucket, now - BET_RATE_LIMIT_WINDOW)
  {
    var kept := Recent(bucket, now - BET_RATE_LIMIT_WINDOW);
    if |kept| >= BET_RATE_LIMIT_COUNT then (true, kept) else (false, kept + [now])
  }

  /**
   * An attempt keeps only timestamps newer than a window, is refused exactly when the
   * limit is already reached among them, is recorded only when admitted, and never lets a
   * bucket grow past the limit.
   */
  lemma AttemptRule(bucket: seq<int>, now: int)
    requires |bucket| <= BET_RATE_LIMIT_COUNT
    ensures var (limited, after) := Attempt(bucket, now);
      && |after| <= BET_RATE_LIMIT_COUNT
      && (forall t :: t in after && t != now ==> t in bucket && t > now - BET_RATE_LIMIT_WINDOW)
      && (limited <==> |Recent(bucket, now - BET_RATE_LIMIT_WINDOW)| >= BET_RATE_LIMIT_COUNT)
      && (!limited ==> after[|after| - 1] == now)
      && (limited ==> now !in after || now in bucket)
  {
  }

  lemma RecentAppend(ts: seq<int>, t: int, cutoff: int)
    ensures Recent(ts + [t], cutoff) == Recent(ts, cutoff) + (if t > cutoff then [t] else [])
  {
    assert (ts + [t])[..|ts|] == ts;
  }

  /** If some timestamp is a window old, pruning drops at least one entry. */
  lemma {:induction false} RecentDrops(ts: seq<int>, cutoff: int, k: nat)
    requires k < |ts| && ts[k] <= cutoff
    ensures |Recent(ts, cutoff)| < |ts|
  {
    var init := ts[..|ts| - 1];
    if k < |ts| - 1 {
      RecentDrops(init, cutoff, k);
    }
  }

  /** Once a window has passed since the oldest recorded attempt, the next attempt is admitted. */
  lemma WindowReopens(bucket: seq<int>, now: int, k: nat)
    requires |bucket| <= BET_RATE_LIMIT_COUNT
    requires k < |bucket| && bucket[k] <= now - BET_RATE_LIMIT_WINDOW
    ensures !Attempt(bucket, now).0
  {
    RecentDrops(bucket, now - BET_RATE_LIMIT_WINDOW, k);
  }

  /** Pruning twice keeps what pruning once at the later cutoff keeps. */
  lemma {:induction false} RecentTwice(ts: seq<int>, c1: int, c2: int)
    requires c1 <= c2
    ensures Recent(Recent(ts, c1), c2) == Recent(ts, c2)
  {
    if ts != [] {
      var init, last := ts[..|ts| - 1], ts[|ts| - 1];
      RecentTwice(init, c1, c2);
      assert ts == init + [last];
      if last > c1 {
        assert Recent(ts, c1) == Recent(init, c1) + [last];
        RecentAppend(Recent(init, c1), last, c2);
      } else {
        assert Recent(ts, c1) == Recent(init, c1);
        assert Recent(ts, c2) == Recent(init, c2);
      }
    }
  }

  /** An admitted attempt at `t` adds exactly one timestamp that survives any cutoff within a window before `t`. */
  lemma AdmitStep(bucket: seq<int>, t: int, after: seq<int>, cutoff: int)
    requires Attempt(bucket, t) == (false, after)
    requires t - BET_RATE_LIMIT_WINDOW <= cutoff < t
    ensures |Recent(after, cutoff)| == |Recent(bucket, cutoff)| + 1
  {
    var kept := Recent(bucket, t - BET_RATE_LIMIT_WINDOW);
    assert after == kept + [t];
    RecentAppend(kept, t, cutoff);
    RecentTwice(bucket, t - BET_RATE_LIMIT_WINDOW, cutoff);
  }

  /** Three attempts admitted within one window make every further attempt inside that window fail. */
  lemma FourthWithinWindowRefused(b0: seq<int>, b1: seq<int>, b2: seq<int>, b3: seq<int>, t1: int, t2: int, t3: int, t4: int)
    requires t1 <= t2 <= t3 <= t4 < t1 + BET_RATE_LIMIT_WINDOW
    requires Attempt(b0, t1) == (false, b1)
    requires Attempt(b1, t2) == (false, b2)
    requires Attempt(b2, t3) == (false, b3)
    ensures Attempt(b3, t4).0
  {
    var c := t4 - BET_RATE_LIMIT_WINDOW;
    AdmitStep(b0, t1, b1, c);
    AdmitStep(b1, t2, b2, c);
    AdmitStep(b2, t3, b3, c);
  }

  class RateLimiter {
    /** `_rate_buckets`: admitted attempt times per user. */
    var buckets: map<UserId, seq<int>>

    ghost predicate Valid()
      reads this
    {
      forall u :: u in buckets ==> |buckets[u]| <= BET_RATE_LIMIT_COUNT
    }

    constructor ()
      ensures Valid() && buckets == map[]
    {
      buckets := map[];
    }

    /** `is_rate_limited(user_id)` at time `now`: prune, refuse at the limit, else record. */
    method IsRateLimited(u: UserId, now: int) returns (limited: bool)
      requires Valid()
      modifies this
      ensures Valid()
      ensures limited == Attempt(Bucket(old(buckets), u), now).0
      ensures buckets == old(buckets)[u := Attempt(Bucket(old(buckets), u), now).1]
    {
      var cutoff := now - BET_RATE_LIMIT_WINDOW;
      var kept := Prune(Bucket(buckets, u), cutoff);
      buckets := buckets[u := kept];
      if |kept| >= BET_RATE_LIMIT_COUNT {
        return true;
      }
      buckets := buckets[u := kept + [now]];
      return false;
    }
  }
}

/**
 The sliding-window login limiter (src/auth/admin-login-rate-limiter.ts). The object keeps only recent
 failures; the ghost log keeps every recorded failure since the key's last success.
 */
module LoginLimiter {

  /** The failures that count at `now`. */
  function Recent(times: seq<int>, now: int, windowMs: int): seq<int> {
    if times == [] then []
    else
      var before := Recent(times[..|times| - 1], now, windowMs);
      if times[|times| - 1] > now - windowMs then before + [times[|times| - 1]] else before
  }

  /** How many failures lie in the window that ends at t. */
  function InWindow(times: seq<int>, t: int, windowMs: int): nat {
    if times == [] then 0
    else
      var last := times[|times| - 1];
      InWindow(times[..|times| - 1], t, windowMs) + if t - windowMs < last <= t then 1 else 0
  }

  predicate Ordered(times: seq<int>) { forall i, j :: 0 <= i <= j < |times| ==> times[i] <= times[j] }

  predicate NotAfter(times: seq<int>, now: int) { forall x :: x in times ==> x <= now }

  function Ceil1000(ms: int): int { -((-ms) / 1000) }

  function Max(a: int, b: int): int { if a < b then b else a }

  datatype Answer = Answer(allowed: bool, retryAfterSeconds: int)

  /** What the limiter would say if it had kept every failure. */
  function FullAnswer(times: seq<int>, now: int, maxAttempts: int, windowMs: int): Answer {
    var recent := Recent(times, now, windowMs);
    if |recent| < maxAttempts then Answer(true, 0)
    else Answer(false, Max(1, Ceil1000((if recent == [] then now else recent[0]) + windowMs - now)))
  }

  // ---- pruning loses nothing under a clock that does not go back ----

  lemma {:induction false} RecentTwice(times: seq<int>, earlier: int, now: int, windowMs: int)
    requires earlier <= now
    ensures Recent(Recent(times, earlier, windowMs), now, windowMs) == Recent(times, now, windowMs)
  {
    if times != [] {
      var n := |times| - 1;
      RecentTwice(times[..n], earlier, now, windowMs);
      var before := Recent(times[..n], earlier, windowMs);
      assert (before + [times[n]])[..|before|] == before;
    }
  }

  lemma RecentAppend(times: seq<int>, x: int, now: int, windowMs: int)
    ensures Recent(times + [x], now, windowMs) == Recent(times, now, windowMs) + if x > now - windowMs then [x] else []
  {
    assert (times + [x])[..|times|] == times;
  }

  lemma InWindowAppend(times: seq<int>, x: int, t: int, windowMs: int)
    ensures InWindow(times + [x], t, windowMs) == InWindow(times, t, windowMs) + if t - windowMs < x <= t then 1 else 0
  {
    assert (times + [x])[..|times|] == times;
  }

  /** A window that ends at or after every failure holds at most the recent ones. */
  lemma {:induction false} WindowIsRecent(times: seq<int>, now: int, t: int, windowMs: int)
    requires now <= t
    ensures InWindow(times, t, windowMs) <= |Recent(times, now, windowMs)|
    ensures NotAfter(times, now) ==> InWindow(times, now, windowMs) == |Recent(times, now, windowMs)|
  {
    if times != [] {
      var n := |times| - 1;
      assert forall x :: x in times[..n] ==> x in times;
      assert times[n] in times;
      WindowIsRecent(times[..n], now, t, windowMs);
    }
  }

  ghost predicate NeverTooMany(times: seq<int>, maxAttempts: int, windowMs: int) {
    forall t :: InWindow(times, t, windowMs) <= maxAttempts
  }

  /** Recording a failure that the check allowed keeps every window within the limit. */
  lemma RecordedWithinLimit(times: seq<int>, now: int, maxAttempts: int, windowMs: int)
    requires NeverTooMany(times, maxAttempts, windowMs) && |Recent(times, now, windowMs)| < maxAttempts
    ensures NeverTooMany(times + [now], maxAttempts, windowMs)
  {
    forall t ensures InWindow(times + [now], t, windowMs) <= maxAttempts {
      InWindowAppend(times, now, t, windowMs);
      if now <= t { WindowIsRecent(times, now, t, windowMs); }
    }
  }

  /** From `since` on, the two lists give the same recent failures. */
  ghost predicate SameFrom(kept: seq<int>, full: seq<int>, since: int, windowMs: int) {
    forall t :: since <= t ==> Recent(kept, t, windowMs) == Recent(full, t, windowMs)
  }

  lemma PrunedStaysSame(kept: seq<int>, full: seq<int>, since: int, now: int, windowMs: int)
    requires SameFrom(kept, full, since, windowMs) && since <= now
    ensures SameFrom(Recent(kept, now, windowMs), full, now, windowMs) && SameFrom(kept, full, now, windowMs)
  {
    forall t | now <= t ensures Recent(Recent(kept, now, windowMs), t, windowMs) == Recent(full, t, windowMs) {
      RecentTwice(kept, now, t, windowMs);
    }
  }

  lemma AppendedStaysSame(kept: seq<int>, full: seq<int>, x: int, since: int, windowMs: int)
    requires SameFrom(kept, full, since, windowMs)
    ensures SameFrom(kept + [x], full + [x], since, windowMs)
  {
    forall t | since <= t ensures Recent(kept + [x], t, windowMs) == Recent(full + [x], t, windowMs) {
      RecentAppend(kept, x, t, windowMs);
      RecentAppend(full, x, t, windowMs);
    }
  }

  lemma LaterStaysOrdered(times: seq<int>, now: int)
    requires Ordered(times) && NotAfter(times, now)
    ensures Ordered(times + [now]) && NotAfter(times + [now], now)
  {
    assert forall i :: 0 <= i < |times| ==> times[i] in times;
  }

  // ---- the retry time is exact ----

  lemma {:induction false} RecentOfOrdered(times: seq<int>, now: int, windowMs: int) returns (k: nat)
    requires Ordered(times)
    ensures k <= |times| && Recent(times, now, windowMs) == times[k..] && SplitAt(times, k, now - windowMs)
  {
    if times == [] {
      k := 0;
    } else {
      var n := |times| - 1;
      k := RecentOfOrdered(times[..n], now, windowMs);
      SplitGrows(times, k, now - windowMs);
      hide SplitAt, Ordered;
      if times[n] > now - windowMs {
        assert times[k..] == times[..n][k..] + [times[n]];
      } else {
        k := |times|;
      }
    }
  }

  /** The times before position k are at most the bound, the others above it. */
  predicate SplitAt(times: seq<int>, k: nat, bound: int) {
    && k <= |times|
    && (forall i :: 0 <= i < k ==> times[i] <= bound) && (forall i :: k <= i < |times| ==> times[i] > bound)
  }

  lemma SplitGrows(times: seq<int>, k: nat, bound: int)
    requires times != [] && Ordered(times) && SplitAt(times[..|times| - 1], k, bound)
    ensures times[|times| - 1] > bound ==> SplitAt(times, k, bound)
    ensures times[|times| - 1] <= bound ==> k == |times| - 1 && SplitAt(times, |times|, bound)
  {
    var n := |times| - 1;
    assert forall i :: 0 <= i < n ==> times[..n][i] == times[i];
    if k < n { assert times[..n][k] == times[k] <= times[n]; }
  }

  lemma CeilExact(ms: int)
    requires ms > 0
    ensures var r := Ceil1000(ms); 1 <= r && ms <= 1000 * r && 1000 * (r - 1) < ms
  {
  }

  /**
   A refused caller that waits as long as it is told is let in, and one that waits a second less is still
   refused, if nothing else happens to its key meanwhile.
   */
  lemma RetryIsExact(times: seq<int>, now: int, maxAttempts: int, windowMs: int)
    requires maxAttempts >= 1 && Ordered(times) && NotAfter(times, now) && NeverTooMany(times, maxAttempts, windowMs)
    requires !FullAnswer(times, now, maxAttempts, windowMs).allowed
    ensures var seconds := FullAnswer(times, now, maxAttempts, windowMs).retryAfterSeconds;
            && 1 <= seconds
            && FullAnswer(times, now + 1000 * seconds, maxAttempts, windowMs).allowed
            && !FullAnswer(times, now + 1000 * (seconds - 1), maxAttempts, windowMs).allowed
  {
    hide Recent, InWindow, Ceil1000, Ordered, NotAfter, NeverTooMany;
    var k := RefusedAt(times, now, maxAttempts, windowMs);
    CeilExact(times[k] + windowMs - now);
    var seconds := Ceil1000(times[k] + windowMs - now);
    StillRecent(times, k, now + 1000 * seconds, windowMs);
    StillRecent(times, k, now + 1000 * (seconds - 1), windowMs);
  }

  /** A refusal counts exactly the last `maxAttempts` failures; the oldest of them sets the wait. */
  lemma RefusedAt(times: seq<int>, now: int, maxAttempts: int, windowMs: int) returns (k: nat)
    requires maxAttempts >= 1 && Ordered(times) && NotAfter(times, now) && NeverTooMany(times, maxAttempts, windowMs)
    requires !FullAnswer(times, now, maxAttempts, windowMs).allowed
    ensures k < |times| && |times| - k == maxAttempts && times[k] > now - windowMs
    ensures FullAnswer(times, now, maxAttempts, windowMs).retryAfterSeconds == Max(1, Ceil1000(times[k] + windowMs - now))
  {
    WindowIsRecent(times, now, now, windowMs);
    assert InWindow(times, now, windowMs) <= maxAttempts;
    k := RecentOfOrdered(times, now, windowMs);
    hide Recent, InWindow, Ceil1000;
    assert times[k..][0] == times[k];
  }

  /** The failures from position k on all count exactly as long as the k-th does. */
  lemma StillRecent(times: seq<int>, k: nat, now: int, windowMs: int)
    requires Ordered(times) && k < |times|
    ensures times[k] > now - windowMs ==> |Recent(times, now, windowMs)| >= |times| - k
    ensures times[k] <= now - windowMs ==> |Recent(times, now, windowMs)| < |times| - k
  {
    var j := RecentOfOrdered(times, now, windowMs);
    hide Recent;
  }

  // ---- the limiter ----

  function Entry(m: map<string, seq<int>>, key: string): seq<int> { if key in m then m[key] else [] }

  class AdminLoginRateLimiter {
    var attempts: map<string, seq<int>>
    const maxAttempts: int
    const windowMs: int
    ghost var log: map<string, seq<int>>
    ghost var clock: int

    ghost predicate Valid()
      reads this
    {
      && 1 <= maxAttempts <= 100 && 1000 <= windowMs <= 24 * 60 * 60 * 1000
      && forall key :: ValidEntry(Entry(attempts, key), Entry(log, key), clock)
    }

    /** The kept list answers like the full one, and no window ever held too many failures. */
    ghost predicate ValidEntry(kept: seq<int>, full: seq<int>, since: int) {
      SameFrom(kept, full, since, windowMs) && Ordered(full) && NotAfter(full, since) && NeverTooMany(full, maxAttempts, windowMs)
    }

    constructor (maxAttempts: int, windowMs: int, ghost start: int)
      requires 1 <= maxAttempts <= 100 && 1000 <= windowMs <= 24 * 60 * 60 * 1000
      ensures Valid() && this.maxAttempts == maxAttempts && this.windowMs == windowMs && log == map[] && clock == start
    {
      this.maxAttempts, this.windowMs := maxAttempts, windowMs;
      attempts, log, clock := map[], map[], start;
    }

    /** The options the source accepts; it throws on others. */
    static method Create(maxAttempts: int, windowMs: int, ghost start: int) returns (r: AdminLoginRateLimiter?)
      ensures (r != null) == (1 <= maxAttempts <= 100 && 1000 <= windowMs <= 24 * 60 * 60 * 1000)
      ensures r != null ==> fresh(r) && r.Valid() && r.maxAttempts == maxAttempts && r.windowMs == windowMs && r.log == map[] && r.clock == start
    {
      if maxAttempts < 1 || maxAttempts > 100 || windowMs < 1000 || windowMs > 24 * 60 * 60 * 1000 { return null; }
      r := new AdminLoginRateLimiter(maxAttempts, windowMs, start);
    }

    /** Answers like the full log, and forgets what can no longer count. */
    method Check(key: string, now: int) returns (answer: Answer)
      requires Valid() && clock <= now
      modifies this
      ensures Valid() && clock == now && log == old(log)
      ensures answer == FullAnswer(Entry(log, key), now, maxAttempts, windowMs)
    {
      hide Recent, InWindow, NeverTooMany;
      var recent := Recent(Entry(attempts, key), now, windowMs);
      assert recent == Recent(Entry(log, key), now, windowMs);
      hide SameFrom;
      ghost var was := attempts;
      if recent == [] { attempts := attempts - {key}; } else { attempts := attempts[key := recent]; }
      forall k ensures ValidEntry(Entry(attempts, k), Entry(log, k), now) {
        PrunedStaysSame(Entry(was, k), Entry(log, k), clock, now, windowMs);
        assert Entry(attempts, k) == if k == key then recent else Entry(was, k);
      }
      clock := now;
      if |recent| < maxAttempts { return Answer(true, 0); }
      return Answer(false, Max(1, Ceil1000((if recent == [] then now else recent[0]) + windowMs - now)));
    }

    /** Records a failure, unless the key is already refused. */
    method Fail(key: string, now: int)
      requires Valid() && clock <= now
      modifies this
      ensures Valid() && clock == now
      ensures log == if FullAnswer(Entry(old(log), key), now, maxAttempts, windowMs).allowed
                     then old(log)[key := Entry(old(log), key) + [now]] else old(log)
    {
      hide Recent, InWindow, SameFrom, NeverTooMany;
      var current := Check(key, now);
      if current.allowed {
        ghost var kept, full := Entry(attempts, key), Entry(log, key);
        assert ValidEntry(kept, full, now);
        RecordedWithinLimit(full, now, maxAttempts, windowMs);
        AppendedStaysSame(kept, full, now, now, windowMs);
        LaterStaysOrdered(full, now);
        ghost var before, logged := attempts, log;
        attempts := attempts[key := Entry(attempts, key) + [now]];
        log := log[key := Entry(log, key) + [now]];
        forall k ensures ValidEntry(Entry(attempts, k), Entry(log, k), now) {
          assert k == key || ValidEntry(Entry(before, k), Entry(logged, k), now);
        }
      }
    }

    method Success(key: string)
      requires Valid()
      modifies this
      ensures Valid() && clock == old(clock) && log == old(log) - {key}
    {
      assert ValidEntry([], [], clock);
      hide Recent, InWindow, ValidEntry;
      ghost var before, logged := attempts, log;
      attempts := attempts - {key};
      log := log - {key};
      forall k ensures ValidEntry(Entry(attempts, k), Entry(log, k), clock) {
        assert k == key || ValidEntry(Entry(before, k), Entry(logged, k), clock);
      }
    }
  }
}

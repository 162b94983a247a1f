/** Bounded retries with capped exponential backoff around the promotion of staging nodes. */
module RetriedPromotion {
  import opened OntologyGraph

  const DEFAULT_MAX_RETRIES := 3
  const DEFAULT_BASE_DELAY := 0.5
  const DEFAULT_MAX_DELAY := 5.0

  /** How the retried operation ends; `NeverTried` is a negative retry count. */
  datatype RetryResult = Succeeded | Exhausted | FailedAtOnce | NeverTried

  /** Attempt `i` of an operation behaves as `script(i)` says. */
  type Script = nat -> Attempt

  /** Attempts made out of at most `n`: up to and including the first one that does not fail transiently. */
  function Tries(script: Script, n: nat, from: nat): (t: nat)
    requires from <= n
    ensures if from == n then t == n else from < t <= n
    decreases n - from
  {
    if from == n then n
    else if script(from).Transient? then Tries(script, n, from + 1)
    else from + 1
  }

  /** The furthest statement that any of the first `n` attempts applied. */
  function Furthest(script: Script, n: nat): nat {
    if n == 0 then 0 else Max(Furthest(script, n - 1), Reach(script(n - 1)))
  }

  /** The graph after the first `n` attempts. */
  function AfterAttempts(nodes: seq<Node>, tenant: string, snapshot: string, script: Script, n: nat): seq<Node> {
    PromotePrefix(nodes, tenant, snapshot, Furthest(script, n))
  }

  lemma OneMoreAttempt(nodes: seq<Node>, tenant: string, snapshot: string, script: Script, n: nat)
    ensures PromotePrefix(AfterAttempts(nodes, tenant, snapshot, script, n), tenant, snapshot, Reach(script(n)))
         == AfterAttempts(nodes, tenant, snapshot, script, n + 1)
    ensures script(n).Clean? ==>
              AfterAttempts(nodes, tenant, snapshot, script, n + 1) == Promote(nodes, tenant, snapshot)
  {
    PrefixesAbsorb(nodes, tenant, snapshot, Furthest(script, n), Reach(script(n)));
  }

  function ResultOf(script: Script, n: nat): RetryResult {
    if n == 0 then NeverTried
    else
      match script(Tries(script, n, 0) - 1)
      case Clean => Succeeded
      case Transient(_) => Exhausted
      case Fatal(_) => FailedAtOnce
  }

  // ── Backoff ──

  function Pow2(n: nat): real {
    if n == 0 then 1.0 else 2.0 * Pow2(n - 1)
  }

  function Delay(base: real, cap: real, attempt: nat): real {
    if base * Pow2(attempt) < cap then base * Pow2(attempt) else cap
  }

  function TotalSleep(base: real, cap: real, sleeps: nat): real {
    if sleeps == 0 then 0.0 else TotalSleep(base, cap, sleeps - 1) + Delay(base, cap, sleeps - 1)
  }

  lemma Distribute(base: real, p: real)
    ensures base * (p - 1.0) + base * p == base * (2.0 * p - 1.0)
  {
  }

  lemma {:induction false} GeometricBound(base: real, cap: real, sleeps: nat)
    ensures TotalSleep(base, cap, sleeps) <= base * (Pow2(sleeps) - 1.0)
  {
    if sleeps == 0 {
    } else {
      GeometricBound(base, cap, sleeps - 1);
      Distribute(base, Pow2(sleeps - 1));
    }
  }

  lemma {:induction false} LinearBound(base: real, cap: real, sleeps: nat)
    ensures TotalSleep(base, cap, sleeps) <= sleeps as real * cap
  {
    if sleeps == 0 {
    } else {
      LinearBound(base, cap, sleeps - 1);
      var n := (sleeps - 1) as real;
      assert sleeps as real == n + 1.0;
      assert (n + 1.0) * cap == n * cap + cap;
    }
  }

  lemma {:induction false} SleepGrows(base: real, cap: real, n: nat, m: nat)
    requires base >= 0.0 && cap >= 0.0 && n <= m
    ensures TotalSleep(base, cap, n) <= TotalSleep(base, cap, m)
    decreases m - n
  {
    if n < m {
      PowPositive(n);
      assert base * Pow2(n) >= 0.0;
      SleepGrows(base, cap, n + 1, m);
    }
  }

  lemma {:induction false} PowPositive(n: nat)
    ensures Pow2(n) >= 1.0
  {
    if n == 0 {
    } else {
      PowPositive(n - 1);
    }
  }

  /**
   Whatever each failed attempt already applied, the graph is that of one run cut off at the
   furthest statement reached; after a success it is the graph of one clean run.
   */
  method Retry(repo: GraphRepository, tenant: string, snapshot: string, script: Script,
               maxRetries: int, base: real, cap: real)
    returns (r: RetryResult, tried: nat, slept: real)
    modifies repo
    ensures var n := if maxRetries < 0 then 0 else maxRetries + 1;
            r == ResultOf(script, n) && tried == Tries(script, n, 0)
    ensures repo.nodes == AfterAttempts(old(repo.nodes), tenant, snapshot, script, tried)
    ensures r.Succeeded? ==> repo.nodes == Promote(old(repo.nodes), tenant, snapshot)
    ensures tried > 0 ==> slept == TotalSleep(base, cap, tried - 1)
    ensures tried == 0 ==> slept == 0.0
  {
    r, tried, slept := NeverTried, 0, 0.0;
    ghost var n := if maxRetries < 0 then 0 else maxRetries + 1;
    while tried <= maxRetries
      invariant tried <= n
      invariant Tries(script, n, 0) == Tries(script, n, tried)
      invariant repo.nodes == AfterAttempts(old(repo.nodes), tenant, snapshot, script, tried)
      invariant slept == TotalSleep(base, cap, if tried > maxRetries >= 0 then tried - 1 else tried)
      invariant r == if tried == 0 then NeverTried else Exhausted
      invariant tried > 0 ==> script(tried - 1).Transient?
    {
      var attempt := script(tried);
      assert Tries(script, n, tried) == if attempt.Transient? then Tries(script, n, tried + 1) else tried + 1;
      var ok := repo.PromoteStagingToActive(tenant, snapshot, attempt);
      OneMoreAttempt(old(repo.nodes), tenant, snapshot, script, tried);
      if ok {
        return Succeeded, tried + 1, slept;
      }
      if attempt.Fatal? {
        return FailedAtOnce, tried + 1, slept;
      }
      if tried < maxRetries {
        slept := slept + Delay(base, cap, tried);
      }
      r, tried := Exhausted, tried + 1;
    }
  }

  /** At most `maxRetries + 1` attempts, and both bounds on the total sleep. */
  lemma RetriesAreBounded(script: Script, maxRetries: nat, base: real, cap: real)
    requires base >= 0.0 && cap >= 0.0
    ensures var tried := Tries(script, maxRetries + 1, 0);
            && 1 <= tried <= maxRetries + 1
            && TotalSleep(base, cap, tried - 1) <= base * (Pow2(maxRetries) - 1.0)
            && TotalSleep(base, cap, tried - 1) <= maxRetries as real * cap
  {
    var tried := Tries(script, maxRetries + 1, 0);
    SleepGrows(base, cap, tried - 1, maxRetries);
    GeometricBound(base, cap, maxRetries);
    LinearBound(base, cap, maxRetries);
  }
}

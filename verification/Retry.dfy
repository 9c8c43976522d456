/** The generic poller and the verification loop: how often they call, how long they wait, what they
    return. Successive outcomes of the called function are a function of the call's index. */
module Retry {
  import opened Schemas

  datatype Event = Call | Sleep(seconds: real)

  function Budget(attempts: int): (n: nat)
    ensures n >= 1
  {
    if attempts > 1 then attempts else 1
  }

  /** Index of the last call: the first success within the budget, or the last attempt. */
  function LastCall(ready: nat -> bool, budget: nat, i: nat): (k: nat)
    requires i < budget
    ensures i <= k < budget
    ensures forall j :: i <= j < k ==> !ready(j)
    ensures ready(k) || k == budget - 1
    decreases budget - i
  {
    if ready(i) || i == budget - 1 then i else LastCall(ready, budget, i + 1)
  }

  /** The two clauses of LastCall leave no choice. */
  lemma LastCallUnique(ready: nat -> bool, budget: nat, k: nat)
    requires k < budget && (forall j: nat :: j < k ==> !ready(j)) && (ready(k) || k == budget - 1)
    ensures LastCall(ready, budget, 0) == k
  {
  }

  function Pow2(i: nat): real {
    if i == 0 then 1.0 else 2.0 * Pow2(i - 1)
  }

  /** The wait after call number i. */
  function Wait(delay: real, exponential: bool, i: nat): real {
    if exponential then delay * Pow2(i) else delay
  }

  /** What an observer sees of k + 1 calls: a wait between any two, none after the last. */
  function Trace(delay: real, exponential: bool, k: nat): seq<Event> {
    if k == 0 then [Call] else Trace(delay, exponential, k - 1) + [Sleep(Wait(delay, exponential, k - 1)), Call]
  }

  function TotalSleep(t: seq<Event>): real {
    if t == [] then 0.0
    else TotalSleep(t[..|t| - 1]) + (if t[|t| - 1].Sleep? then t[|t| - 1].seconds else 0.0)
  }

  function CountCalls(t: seq<Event>): nat {
    if t == [] then 0 else CountCalls(t[..|t| - 1]) + (if t[|t| - 1].Call? then 1 else 0)
  }

  lemma TotalsAppend(t: seq<Event>, w: real)
    ensures CountCalls(t + [Sleep(w), Call]) == CountCalls(t) + 1
    ensures TotalSleep(t + [Sleep(w), Call]) == TotalSleep(t) + w
  {
    var s := t + [Sleep(w), Call];
    assert s[..|s| - 1] == t + [Sleep(w)];
    assert (t + [Sleep(w)])[..|t|] == t;
  }

  /** The waits between k + 1 calls add up to k delays, or to 2^k - 1 of them when they double. */
  function Slept(delay: real, exponential: bool, k: nat): real {
    if exponential then delay * (Pow2(k) - 1.0) else delay * k as real
  }

  lemma SleptStep(delay: real, exponential: bool, k: nat)
    ensures Slept(delay, exponential, k + 1) == Slept(delay, exponential, k) + Wait(delay, exponential, k)
    ensures Slept(delay, exponential, 0) == 0.0
  {
    assert (k + 1) as real == k as real + 1.0;
  }

  /** Polling that stops after call number k makes k + 1 calls, separated by exactly those waits. */
  lemma {:induction false} TraceTotals(delay: real, exponential: bool, k: nat)
    ensures CountCalls(Trace(delay, exponential, k)) == k + 1
    ensures |Trace(delay, exponential, k)| == 2 * k + 1
    ensures TotalSleep(Trace(delay, exponential, k)) == Slept(delay, exponential, k)
  {
    hide Slept, Wait;
    if k == 0 {
      SleptStep(delay, exponential, 0);
      assert [Call][..0] == [];
    } else {
      hide CountCalls, TotalSleep;
      TraceTotals(delay, exponential, k - 1);
      TotalsAppend(Trace(delay, exponential, k - 1), Wait(delay, exponential, k - 1));
      SleptStep(delay, exponential, k - 1);
    }
  }

  function Truthy<T>(fn: nat -> T, truthy: T -> bool): nat -> bool {
    (i: nat) => truthy(fn(i))
  }

  /** What polling amounts to: the result of the last call, and the observable events. */
  function PollOutcome<T>(fn: nat -> T, truthy: T -> bool, attempts: int, delay: real,
                          exponential: bool): (T, seq<Event>)
  {
    var k := LastCall(Truthy(fn, truthy), Budget(attempts), 0);
    (fn(k), Trace(delay, exponential, k))
  }

  /** Something never ready is called the configured number of times, and at least once; something ready is
      called until the first success, if that comes in time. */
  lemma Calls(ready: nat -> bool, attempts: int, k: nat)
    ensures (forall j: nat :: !ready(j)) ==>
              LastCall(ready, Budget(attempts), 0) + 1 == if attempts >= 1 then attempts else 1
    ensures (forall j: nat :: j < k ==> !ready(j)) && ready(k) && (k == 0 || k < attempts) ==>
              LastCall(ready, Budget(attempts), 0) == k
  {
  }

  /** Call until a truthy result; wait between attempts but not after the final one. */
  method PollUntil<T(0)>(fn: nat -> T, truthy: T -> bool, attempts: int, delay: real, exponential: bool)
    returns (result: T, trace: seq<Event>)
    ensures (result, trace) == PollOutcome(fn, truthy, attempts, delay, exponential)
  {
    hide Wait;
    ghost var k := LastCall(Truthy(fn, truthy), Budget(attempts), 0);
    trace := [];
    var n := Budget(attempts);
    for i := 0 to n
      invariant i <= k
      invariant trace == if i == 0 then []
                         else Trace(delay, exponential, i - 1) + [Sleep(Wait(delay, exponential, i - 1))]
    {
      result := fn(i);
      trace := trace + [Call];
      assert trace == Trace(delay, exponential, i);
      assert Truthy(fn, truthy)(i) == truthy(result);
      if truthy(result) { return; }
      if i < attempts - 1 {
        trace := trace + [Sleep(Wait(delay, exponential, i))];
      } else {
        return;
      }
    }
  }

  /** One confirmation probe of the now-active model. */
  datatype Probe = Probe(health: HealthProbe, metrics: Option<MetricSnapshot>)

  predicate Traffic(p: Probe) { p.metrics.Some? && p.metrics.value.requestCount > 0 }

  /** Healthy, and neither the error rate nor the confidence of observed traffic is out of bounds. A
      model that has served nothing yet is judged on health alone. */
  predicate ProbeRecovered(cfg: Settings, p: Probe) {
    p.health.reachable && p.health.status == Healthy &&
    (Traffic(p) ==> p.metrics.value.errorRate <= cfg.errorRateThreshold) &&
    (Traffic(p) ==> p.metrics.value.avgConfidence >= cfg.confidenceFloor)
  }

  /** The verdict on a probe, read off its fields: the model was reached and is healthy and, if it has served
      requests, its error rate is at most the threshold and its confidence at least the floor. */
  lemma ProbeRecoveredIff(cfg: Settings, p: Probe)
    ensures ProbeRecovered(cfg, p) <==>
            p.health == HealthProbe(true, Healthy) &&
            (p.metrics == None || p.metrics.value.requestCount <= 0 ||
             (p.metrics.value.errorRate <= cfg.errorRateThreshold &&
              p.metrics.value.avgConfidence >= cfg.confidenceFloor))
  {
  }

  predicate NoWorse(p: Probe, q: Probe)
    requires p.metrics.Some?
  {
    q.health == p.health && q.metrics.Some? && q.metrics.value.errorRate <= p.metrics.value.errorRate &&
    q.metrics.value.avgConfidence >= p.metrics.value.avgConfidence
  }

  /** Absence of data is not failure: a model without traffic is recovered iff it is healthy. Data of
      failure is: with traffic, a confidence of 0 never passes a positive floor, and for a healthy model
      better figures never turn the verdict against it. */
  lemma ProbeVerdicts(cfg: Settings, p: Probe, q: Probe)
    ensures !Traffic(p) ==> (ProbeRecovered(cfg, p) <==> p.health == HealthProbe(true, Healthy))
    ensures Traffic(p) && p.metrics.value.avgConfidence == 0.0 && cfg.confidenceFloor > 0.0 ==> !ProbeRecovered(cfg, p)
    ensures Traffic(p) && ProbeRecovered(cfg, p) && NoWorse(p, q) ==> ProbeRecovered(cfg, q)
  {
  }

  function Confirms(cfg: Settings, probes: nat -> Probe): nat -> bool {
    (i: nat) => ProbeRecovered(cfg, probes(i))
  }

  /** The verdict of the probe verification ends on, and the observable events. */
  function VerifyOutcome(cfg: Settings, probes: nat -> Probe): (bool, seq<Event>) {
    var k := LastCall(Confirms(cfg, probes), Budget(cfg.verifyRetries), 0);
    (ProbeRecovered(cfg, probes(k)), Trace(cfg.verifyBackoff, false, k))
  }

  function Recovered(cfg: Settings, probes: nat -> Probe): bool {
    VerifyOutcome(cfg, probes).0
  }

  /** Verification succeeds exactly when one of the probes in the budget does. */
  lemma RecoveredIffSomeProbe(cfg: Settings, probes: nat -> Probe)
    ensures Recovered(cfg, probes) <==>
            exists i: nat :: i < Budget(cfg.verifyRetries) && ProbeRecovered(cfg, probes(i))
  {
    hide ProbeRecovered;
    var ready := Confirms(cfg, probes);
    var k := LastCall(ready, Budget(cfg.verifyRetries), 0);
    assert ready(k) == ProbeRecovered(cfg, probes(k));
    if i: nat :| i < Budget(cfg.verifyRetries) && ProbeRecovered(cfg, probes(i)) {
      assert ready(i);
    }
  }

  /** Re-probe until the model is recovered or the budget is spent. */
  method Verify(cfg: Settings, probes: nat -> Probe) returns (recovered: bool, trace: seq<Event>)
    ensures (recovered, trace) == VerifyOutcome(cfg, probes)
  {
    hide ProbeRecovered;
    ghost var ready := Confirms(cfg, probes);
    ghost var k := LastCall(ready, Budget(cfg.verifyRetries), 0);
    var attempts := Budget(cfg.verifyRetries);
    recovered := ProbeRecovered(cfg, probes(0));
    trace := [Call];
    assert recovered == ready(0);
    for attempt := 1 to attempts
      invariant attempt - 1 <= k
      invariant recovered == ready(attempt - 1)
      invariant trace == Trace(cfg.verifyBackoff, false, attempt - 1)
    {
      if recovered { return; }
      trace := trace + [Sleep(cfg.verifyBackoff)];
      recovered := ProbeRecovered(cfg, probes(attempt));
      assert recovered == ready(attempt);
      trace := trace + [Call];
    }
  }

  lemma {:induction false} LastCallSame(f: nat -> bool, g: nat -> bool, budget: nat, i: nat)
    requires i < budget && forall j: nat :: f(j) == g(j)
    ensures LastCall(f, budget, i) == LastCall(g, budget, i)
    decreases budget - i
  {
    if !f(i) && i < budget - 1 { LastCallSame(f, g, budget, i + 1); }
  }

  /** The verification loop is the generic poller with a fixed delay and "recovered" for truthy: on every
      sequence of probe outcomes it makes the same calls and the same waits, and ends on the same probe. */
  lemma VerifyRefinesPoll(cfg: Settings, probes: nat -> Probe)
    ensures var (last, trace) := PollOutcome(probes, (p: Probe) => ProbeRecovered(cfg, p),
                                             cfg.verifyRetries, cfg.verifyBackoff, false);
            VerifyOutcome(cfg, probes) == (ProbeRecovered(cfg, last), trace)
  {
    hide ProbeRecovered;
    LastCallSame(Confirms(cfg, probes), Truthy(probes, (p: Probe) => ProbeRecovered(cfg, p)),
                 Budget(cfg.verifyRetries), 0);
  }
}

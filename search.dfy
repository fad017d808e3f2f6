/**
 * The maximum-throughput search (escalate, or bisect, then confirm) over
 * an oracle that stands for one complete load-test run at a given
 * concurrency level and ramp-up time.
 */
module Search {
  import opened Outcome
  import opened Stats

  /** What one run reports to the search: successes under the overall rule, requests, and the
      measured requests per second. */
  datatype Trial = Trial(successes: nat, requests: nat, rps: real)

  /** The tolerated error rate of the service-level objective (99.99% success). */
  const ErrorRateThreshold: real := 0.0001

  const LowerBound: nat := 10
  const UpperBound: nat := 200
  const StepSize: nat := 50
  const SafetyLimit: nat := 1000
  const Precision: nat := 5
  /** The level the safety-limit branch reports: one step past the last level it ran. */
  const SafetyReport: nat := SafetyLimit + StepSize

  function SuccessRate(t: Trial): real
  {
    if t.requests > 0 then t.successes as real / t.requests as real else 0.0
  }

  /** The SLA predicate `success_rate >= 1 - error_rate_threshold`. */
  predicate Passes(t: Trial)
  {
    SuccessRate(t) >= 1.0 - ErrorRateThreshold
  }

  /** The SLA predicate in integers: a run with no requests fails, otherwise at most one request
      in ten thousand may fail. */
  lemma PassesExactly(t: Trial)
    ensures Passes(t) <==> t.requests > 0 && 10000 * t.successes >= 9999 * t.requests
  {
    if t.requests > 0 {
      var n, s := t.requests as real, t.successes as real;
      QuotientAtLeast(s, n, 0.9999);
      assert (10000 * t.successes) as real == 10000.0 * s;
      assert (9999 * t.requests) as real == 9999.0 * n;
    }
  }

  /** For a positive divisor, a quotient reaches `c` exactly when the dividend reaches `c` times it. */
  lemma QuotientAtLeast(s: real, n: real, c: real)
    requires n > 0.0
    ensures s / n >= c <==> s >= c * n
  {
    var q := s / n;
    assert q * n == s;
    ProductSign(q - c, n);
    ProductSign(c - q, n);
    assert (q - c) * n == s - c * n;
    assert (c - q) * n == c * n - s;
  }

  lemma ProductSign(a: real, n: real)
    requires n > 0.0
    ensures a >= 0.0 ==> a * n >= 0.0
    ensures a > 0.0 ==> a * n > 0.0
  {
  }

  /** The trial that a run's records give matches the run's own success rate. */
  lemma TrialOfRecords(results: seq<Record>, rps: real)
    ensures SuccessRate(Trial(SuccessCount(results), |results|, rps)) == CalculateSuccessRate(results)
  {
  }

  /** A run performed during the search: the level, the ramp-up time and what it reported. */
  datatype Probe = Probe(users: nat, rampUp: real, trial: Trial)

  /** The escalation and bisection runs use a 5-second ramp-up. */
  predicate PassesAt(run: (nat, real) -> Trial, users: nat)
  {
    Passes(run(users, 5.0))
  }

  /** Every logged probe reports what the oracle gives for its level and ramp-up. */
  ghost predicate Logged(probes: seq<Probe>, run: (nat, real) -> Trial)
  {
    forall k :: 0 <= k < |probes| ==> probes[k].trial == run(probes[k].users, probes[k].rampUp)
  }

  /** Some logged run at level `users` met the SLA. */
  ghost predicate PassedIn(probes: seq<Probe>, users: nat)
  {
    exists k :: 0 <= k < |probes| && probes[k].users == users && Passes(probes[k].trial)
  }

  /** Some logged run at a level in `(lo, hi]` missed the SLA. */
  ghost predicate FailedWithin(probes: seq<Probe>, lo: nat, hi: nat)
  {
    exists k :: 0 <= k < |probes| && lo < probes[k].users <= hi && !Passes(probes[k].trial)
  }

  /** The oracle is monotone with threshold `t`: exactly the levels up to `t` meet the SLA. */
  ghost predicate ThresholdAt(run: (nat, real) -> Trial, t: nat)
  {
    forall n: nat, r: real :: Passes(run(n, r)) <==> n <= t
  }

  lemma PassedInAppend(probes: seq<Probe>, x: Probe, users: nat)
    requires PassedIn(probes, users)
    ensures PassedIn(probes + [x], users)
  {
    var k :| 0 <= k < |probes| && probes[k].users == users && Passes(probes[k].trial);
    assert (probes + [x])[k] == probes[k];
  }

  /** Logging one more run of the oracle keeps the log faithful and its levels within the search's
      range, and leaves the earlier entries in place. */
  lemma LoggedAppend(probes: seq<Probe>, x: Probe, run: (nat, real) -> Trial)
    requires Logged(probes, run) && x.trial == run(x.users, x.rampUp)
    requires forall k :: 0 <= k < |probes| ==> LowerBound <= probes[k].users <= SafetyLimit
    requires LowerBound <= x.users <= SafetyLimit
    ensures Logged(probes + [x], run)
    ensures forall k :: 0 <= k < |probes| + 1 ==> LowerBound <= (probes + [x])[k].users <= SafetyLimit
    ensures (probes + [x])[..|probes|] == probes && (probes + [x])[|probes|] == x
  {
  }

  lemma FailedWithinAppend(probes: seq<Probe>, x: Probe, lo: nat, hi: nat)
    requires FailedWithin(probes, lo, hi)
    ensures FailedWithin(probes + [x], lo, hi)
  {
    var k :| 0 <= k < |probes| && lo < probes[k].users <= hi && !Passes(probes[k].trial);
    assert (probes + [x])[k] == probes[k];
  }

  /** The two opening runs, at the lower bound and at the upper bound. */
  function Opening(run: (nat, real) -> Trial): seq<Probe>
  {
    [Probe(LowerBound, 2.0, run(LowerBound, 2.0)), Probe(UpperBound, 5.0, run(UpperBound, 5.0))]
  }

  /** Every escalation level from the upper bound up to, not including, `current` passed. */
  ghost predicate AllPassBelow(run: (nat, real) -> Trial, current: nat)
  {
    forall n :: UpperBound <= n < current && n % StepSize == 0 ==> PassesAt(run, n)
  }

  lemma AllPassStep(run: (nat, real) -> Trial, current: nat)
    requires current % StepSize == 0 && AllPassBelow(run, current) && PassesAt(run, current)
    ensures AllPassBelow(run, current + StepSize)
  {
    forall n | UpperBound <= n < current + StepSize && n % StepSize == 0
      ensures PassesAt(run, n)
    {
      if n >= current {
        assert n - current == (n / StepSize - current / StepSize) * StepSize;
      }
    }
  }

  /** The escalation loop, entered when both bounds pass: step up by 50 until a level fails or
      the level passes 1000. `safety` tells that the safety limit ended it. */
  method Escalate(run: (nat, real) -> Trial) returns (maxUsers: nat, maxRps: real, probes: seq<Probe>, safety: bool)
    requires Passes(run(LowerBound, 2.0)) && PassesAt(run, UpperBound)
    ensures Logged(probes, run) && |probes| > 2 && probes[..2] == Opening(run)
    ensures forall k :: 0 <= k < |probes| ==> LowerBound <= probes[k].users <= SafetyLimit
    ensures safety <==> AllPassBelow(run, SafetyLimit + 1)
    ensures safety ==> maxUsers == SafetyReport && maxRps == run(SafetyLimit, 5.0).rps
    ensures !safety ==> PassedIn(probes, maxUsers)
    ensures !safety ==>
      (maxUsers == LowerBound && maxRps == 0.0 && !PassesAt(run, UpperBound + StepSize)) ||
      (UpperBound + StepSize <= maxUsers <= SafetyLimit - StepSize && maxUsers % StepSize == 0 &&
       maxRps == run(maxUsers, 5.0).rps && PassesAt(run, maxUsers) && !PassesAt(run, maxUsers + StepSize))
    ensures !safety ==>
      AllPassBelow(run, if maxUsers == LowerBound then UpperBound + StepSize else maxUsers + StepSize)
  {
    probes := Opening(run);
    maxUsers, maxRps, safety := LowerBound, 0.0, false;
    ghost var lowAt := 0;
    var current := UpperBound + StepSize;
    while true
      invariant UpperBound + StepSize <= current <= SafetyLimit && current % StepSize == 0
      invariant Logged(probes, run) && |probes| >= 2 && probes[..2] == Opening(run)
      invariant forall k :: 0 <= k < |probes| ==> LowerBound <= probes[k].users < current
      invariant AllPassBelow(run, current)
      invariant current == UpperBound + StepSize ==> maxUsers == LowerBound && maxRps == 0.0
      invariant current > UpperBound + StepSize ==>
        maxUsers == current - StepSize && maxRps == run(maxUsers, 5.0).rps
      invariant 0 <= lowAt < |probes| && probes[lowAt].users == maxUsers && Passes(probes[lowAt].trial)
      decreases SafetyLimit - current
    {
      var trial := run(current, 5.0);
      probes := probes + [Probe(current, 5.0, trial)];
      if Passes(trial) {
        AllPassStep(run, current);
        maxUsers := current;
        maxRps := trial.rps;
        lowAt := |probes| - 1;
        current := current + StepSize;
      } else {
        assert PassedIn(probes, maxUsers) by {
          assert probes[lowAt].users == maxUsers && Passes(probes[lowAt].trial);
        }
        break;
      }
      if current > SafetyLimit {
        assert current == SafetyLimit + StepSize;
        maxUsers := current;
        maxRps := trial.rps;
        safety := true;
        return;
      }
    }
    assert !PassesAt(run, current);
  }

  /** The bisection loop, entered when the lower bound passes and the upper bound fails: halve
      the bracket until it is at most 5 wide. The lower end always passed, the upper end failed. */
  method Bisect(run: (nat, real) -> Trial) returns (maxUsers: nat, maxRps: real, probes: seq<Probe>)
    requires Passes(run(LowerBound, 2.0)) && !PassesAt(run, UpperBound)
    ensures Logged(probes, run) && |probes| >= 2 && probes[..2] == Opening(run)
    ensures forall k :: 0 <= k < |probes| ==> LowerBound <= probes[k].users <= UpperBound
    ensures LowerBound <= maxUsers < UpperBound
    ensures PassedIn(probes, maxUsers) && FailedWithin(probes, maxUsers, maxUsers + Precision)
    ensures maxRps == if maxUsers == LowerBound then 0.0 else run(maxUsers, 5.0).rps
  {
    probes := Opening(run);
    var lowerBound, upperBound := LowerBound, UpperBound;
    maxUsers, maxRps := LowerBound, 0.0;
    ghost var lowAt, highAt := 0, 1;
    while upperBound - lowerBound > Precision
      invariant LowerBound <= lowerBound < upperBound <= UpperBound
      invariant Logged(probes, run) && |probes| >= 2 && probes[..2] == Opening(run)
      invariant forall k :: 0 <= k < |probes| ==> LowerBound <= probes[k].users <= UpperBound
      invariant maxUsers == lowerBound
      invariant maxRps == if lowerBound == LowerBound then 0.0 else run(lowerBound, 5.0).rps
      invariant 0 <= lowAt < |probes| && probes[lowAt].users == lowerBound && Passes(probes[lowAt].trial)
      invariant 0 <= highAt < |probes| && probes[highAt].users == upperBound && !Passes(probes[highAt].trial)
      decreases upperBound - lowerBound
    {
      var mid := (lowerBound + upperBound) / 2;
      var trial := run(mid, 5.0);
      probes := probes + [Probe(mid, 5.0, trial)];
      if Passes(trial) {
        lowerBound := mid;
        maxUsers := mid;
        maxRps := trial.rps;
        lowAt := |probes| - 1;
      } else {
        upperBound := mid;
        highAt := |probes| - 1;
      }
    }
    assert maxUsers < probes[highAt].users <= maxUsers + Precision;
  }

  /** What the search should report against a monotone service with threshold `t`, range by
      range: the lower bound below 10; within 5 below `t` under 200; the lower bound again when
      only 200 passes (the source's first escalation step does not record 200); the last passing
      multiple of 50 up to 1000; the safety report from 1000 on. */
  ghost predicate ReportFitsThreshold(maxUsers: nat, t: nat)
  {
    (t < LowerBound ==> maxUsers == LowerBound) &&
    (LowerBound <= t < UpperBound ==> t - Precision < maxUsers <= t) &&
    (UpperBound <= t < UpperBound + StepSize ==> maxUsers == LowerBound) &&
    (UpperBound + StepSize <= t < SafetyLimit ==> maxUsers <= t < maxUsers + StepSize) &&
    (SafetyLimit <= t ==> maxUsers == SafetyReport)
  }

  /** `find_maximum_throughput` over `run`, which stands for `run_load_test(users, ramp_up_time)`.
      Returns the reported level, the reported requests per second, and the runs in order. */
  method FindMaximumThroughput(run: (nat, real) -> Trial) returns (maxUsers: nat, maxRps: real, probes: seq<Probe>)
    ensures |probes| >= 1 && probes[0] == Probe(LowerBound, 2.0, run(LowerBound, 2.0))
    ensures Passes(run(LowerBound, 2.0)) ==> |probes| >= 2 && probes[1] == Probe(UpperBound, 5.0, run(UpperBound, 5.0))
    ensures Logged(probes, run)
    ensures forall k :: 0 <= k < |probes| ==> LowerBound <= probes[k].users <= SafetyLimit
    // the early return: the lower bound already misses the SLA
    ensures !Passes(run(LowerBound, 2.0)) ==>
      maxUsers == LowerBound && maxRps == run(LowerBound, 2.0).rps && |probes| == 1
    // the safety-limit branch is taken exactly when every level from 200 to 1000 passes
    ensures Passes(run(LowerBound, 2.0)) ==>
      (maxUsers == SafetyReport <==>
        AllPassBelow(run, SafetyLimit + 1))
    ensures maxUsers == SafetyReport ==> maxRps == run(SafetyLimit, 5.0).rps
    // otherwise the reported level was seen to pass, and the last run confirms it
    ensures Passes(run(LowerBound, 2.0)) && maxUsers != SafetyReport ==>
      PassedIn(probes, maxUsers) && probes[|probes| - 1] == Probe(maxUsers, 5.0, run(maxUsers, 5.0))
    ensures Passes(run(LowerBound, 2.0)) && maxUsers != SafetyReport ==>
      maxRps == if maxUsers == LowerBound then 0.0 else run(maxUsers, 5.0).rps
    // bisection: the reported level passed and a level at most 5 above it failed
    ensures Passes(run(LowerBound, 2.0)) && !PassesAt(run, UpperBound) ==>
      LowerBound <= maxUsers < UpperBound && FailedWithin(probes, maxUsers, maxUsers + Precision)
    // escalation that stops: the next step failed, and a first failing step reports the lower bound
    ensures Passes(run(LowerBound, 2.0)) && PassesAt(run, UpperBound) && maxUsers != SafetyReport ==>
      (maxUsers == LowerBound && !PassesAt(run, UpperBound + StepSize)) ||
      (UpperBound + StepSize <= maxUsers <= SafetyLimit - StepSize && maxUsers % StepSize == 0 &&
       PassesAt(run, maxUsers) && !PassesAt(run, maxUsers + StepSize))
    // ... and that step is the first failing one: every step before it passed
    ensures Passes(run(LowerBound, 2.0)) && PassesAt(run, UpperBound) && maxUsers != SafetyReport ==>
      AllPassBelow(run, if maxUsers == LowerBound then UpperBound + StepSize else maxUsers + StepSize)
  {
    var trial := run(LowerBound, 2.0);
    if !Passes(trial) {
      maxUsers, maxRps, probes := LowerBound, trial.rps, [Probe(LowerBound, 2.0, trial)];
      return;
    }
    trial := run(UpperBound, 5.0);
    if Passes(trial) {
      var safety;
      maxUsers, maxRps, probes, safety := Escalate(run);
      if safety {
        return;
      }
    } else {
      maxUsers, maxRps, probes := Bisect(run);
    }
    assert probes[0] == Opening(run)[0] && probes[1] == Opening(run)[1];
    // final confirmatory run at the reported level
    trial := run(maxUsers, 5.0);
    LoggedAppend(probes, Probe(maxUsers, 5.0, trial), run);
    PassedInAppend(probes, Probe(maxUsers, 5.0, trial), maxUsers);
    if !PassesAt(run, UpperBound) {
      FailedWithinAppend(probes, Probe(maxUsers, 5.0, trial), maxUsers, maxUsers + Precision);
    }
    probes := probes + [Probe(maxUsers, 5.0, trial)];
  }

  /** Against a monotone service with threshold `t`, any outcome with the guarantees of
      `FindMaximumThroughput` reports what `ReportFitsThreshold` describes. */
  lemma SearchFitsThreshold(run: (nat, real) -> Trial, t: nat, maxUsers: nat, probes: seq<Probe>)
    requires ThresholdAt(run, t) && Logged(probes, run)
    requires !Passes(run(LowerBound, 2.0)) ==> maxUsers == LowerBound
    requires Passes(run(LowerBound, 2.0)) ==> (maxUsers == SafetyReport <==> AllPassBelow(run, SafetyLimit + 1))
    requires Passes(run(LowerBound, 2.0)) && maxUsers != SafetyReport ==> PassedIn(probes, maxUsers)
    requires Passes(run(LowerBound, 2.0)) && !PassesAt(run, UpperBound) ==>
      LowerBound <= maxUsers < UpperBound && FailedWithin(probes, maxUsers, maxUsers + Precision)
    requires Passes(run(LowerBound, 2.0)) && PassesAt(run, UpperBound) && maxUsers != SafetyReport ==>
      (maxUsers == LowerBound && !PassesAt(run, UpperBound + StepSize)) ||
      (UpperBound + StepSize <= maxUsers <= SafetyLimit - StepSize && maxUsers % StepSize == 0 &&
       PassesAt(run, maxUsers) && !PassesAt(run, maxUsers + StepSize))
    ensures ReportFitsThreshold(maxUsers, t)
  {
    if !Passes(run(LowerBound, 2.0)) {
      assert t < LowerBound;
    } else if !PassesAt(run, UpperBound) {
      var k :| 0 <= k < |probes| && probes[k].users == maxUsers && Passes(probes[k].trial);
      assert Passes(run(probes[k].users, probes[k].rampUp));
      var j :| 0 <= j < |probes| && maxUsers < probes[j].users <= maxUsers + Precision && !Passes(probes[j].trial);
      assert !Passes(run(probes[j].users, probes[j].rampUp));
      assert LowerBound <= t < UpperBound;
    } else if maxUsers == SafetyReport {
      assert PassesAt(run, SafetyLimit);
    } else {
      assert UpperBound <= t;
    }
  }
}

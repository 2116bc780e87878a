/** Health counting: the bounded gate that a starting instance must pass, and
    the continuous monitor, which share one result history per instance. */
module Health {
  import opened Common

  datatype CheckResult = CheckResult(healthy: bool, consecutiveFailures: int)

  /** How many of the last elements equal `v`. */
  function Trailing(s: seq<bool>, v: bool): (n: nat)
    ensures n <= |s|
  {
    if s == [] || s[|s| - 1] != v then 0 else 1 + Trailing(s[..|s| - 1], v)
  }

  /** A trailing run of n, said without the counter. */
  lemma {:induction false} TrailingIsARun(s: seq<bool>, v: bool, n: nat)
    ensures Trailing(s, v) >= n <==> n <= |s| && forall i | |s| - n <= i < |s| :: s[i] == v
  {
    if s == [] || n == 0 {
    } else {
      TrailingIsARun(s[..|s| - 1], v, n - 1);
      assert forall i | 0 <= i < |s| - 1 :: s[..|s| - 1][i] == s[i];
    }
  }

  /** How many of the first k probes' last outcomes equal `v`. */
  function RunAt(probe: nat -> bool, k: nat, v: bool): nat {
    if k == 0 || probe(k - 1) != v then 0 else 1 + RunAt(probe, k - 1, v)
  }

  /** The n probes before probe k all came out as `v`. */
  ghost predicate InARow(probe: nat -> bool, k: nat, v: bool, n: nat) {
    n <= k && forall i: nat | k - n <= i < k :: probe(i) == v
  }

  /** A run of n, said without the counter. */
  lemma {:induction false} RunAtIsARun(probe: nat -> bool, k: nat, v: bool, n: nat)
    ensures RunAt(probe, k, v) >= n <==> InARow(probe, k, v, n)
  {
    if k > 0 && n > 0 {
      RunAtIsARun(probe, k - 1, v, n - 1);
    } else if k == 0 {
      assert RunAt(probe, k, v) == 0;
    }
  }

  /** The row the gate stores for probe i. */
  function GateRow(probe: nat -> bool, i: nat): CheckResult {
    CheckResult(probe(i), RunAt(probe, i + 1, false))
  }

  function Max0(x: int): nat {
    if x < 0 then 0 else x
  }

  predicate Passed(probe: nat -> bool, k: nat, healthyThreshold: int) {
    RunAt(probe, k, true) >= healthyThreshold
  }

  predicate GivenUp(probe: nat -> bool, k: nat, unhealthyThreshold: int) {
    RunAt(probe, k, false) >= unhealthyThreshold
  }

  /** The gate stops at the first probe after which either threshold is met, or
      after both thresholds' worth of probes. */
  ghost predicate GateOutcome(probe: nat -> bool, up: int, down: int, n: nat, ok: bool) {
    && n <= Max0(up + down)
    && (forall j: nat | 1 <= j < n :: !Passed(probe, j, up) && !GivenUp(probe, j, down))
    && (n < Max0(up + down) ==> n > 0 && (Passed(probe, n, up) || GivenUp(probe, n, down)))
    && (ok <==> n > 0 && Passed(probe, n, up))
  }

  method WaitUntilHealthy(up: int, down: int, probe: nat -> bool)
    returns (ok: bool, results: seq<CheckResult>)
    ensures GateOutcome(probe, up, down, |results|, ok)
    ensures forall i | 0 <= i < |results| ::
              results[i] == GateRow(probe, i)
  {
    var successes, failures := 0, 0;
    var maxAttempts := up + down;
    results := [];
    var i: nat := 0;
    while i < maxAttempts
      invariant i <= Max0(maxAttempts) && |results| == i
      invariant successes == RunAt(probe, i, true)
      invariant failures == RunAt(probe, i, false)
      invariant forall j: nat | 1 <= j <= i :: !Passed(probe, j, up) && !GivenUp(probe, j, down)
      invariant forall j | 0 <= j < i :: results[j] == GateRow(probe, j)
    {
      var healthy := probe(i);
      if healthy {
        successes, failures := successes + 1, 0;
      } else {
        failures, successes := failures + 1, 0;
      }
      results := results + [CheckResult(healthy, failures)];
      if successes >= up {
        return true, results;
      }
      if failures >= down {
        return false, results;
      }
      i := i + 1;
    }
    return false, results;
  }

  /** The gate passes exactly when, within the first `up + down` probes, `up`
      successes in a row come before any `down` failures in a row. */
  lemma GateIsExact(probe: nat -> bool, up: int, down: int, n: nat, ok: bool)
    requires GateOutcome(probe, up, down, n, ok)
    ensures ok <==> exists k: nat ::
              && 1 <= k <= up + down && InARow(probe, k, true, Max0(up))
              && forall j: nat | 1 <= j < k :: !InARow(probe, j, false, Max0(down))
  {
    forall k: nat ensures Passed(probe, k, up) <==> InARow(probe, k, true, Max0(up)) {
      RunAtIsARun(probe, k, true, Max0(up));
    }
    forall j: nat ensures GivenUp(probe, j, down) <==> InARow(probe, j, false, Max0(down)) {
      RunAtIsARun(probe, j, false, Max0(down));
    }
    if ok {
      assert InARow(probe, n, true, Max0(up));
    }
    if k: nat :| 1 <= k <= up + down && InARow(probe, k, true, Max0(up))
                 && forall j: nat | 1 <= j < k :: !InARow(probe, j, false, Max0(down))
    {
      assert n <= k;
    }
  }

  // ---- The monitor over an instance's whole life -----------------------

  function Outcomes(history: seq<CheckResult>): (s: seq<bool>)
    ensures |s| == |history| && forall i | 0 <= i < |s| :: s[i] == history[i].healthy
  {
    if history == [] then []
    else Outcomes(history[..|history| - 1]) + [history[|history| - 1].healthy]
  }

  /** The row one poll stores, from the last row alone. */
  function NextResult(history: seq<CheckResult>, healthy: bool): CheckResult {
    if healthy then CheckResult(true, 0)
    else if history != [] && !history[|history| - 1].healthy
    then CheckResult(false, history[|history| - 1].consecutiveFailures + 1)
    else CheckResult(false, 1)
  }

  /** `_poll_and_maybe_heal` once the instance is due. */
  method Poll(history: seq<CheckResult>, healthy: bool, down: int)
    returns (history': seq<CheckResult>, heal: bool)
    ensures history' == history + [NextResult(history, healthy)]
    ensures Counted(history) ==> Counted(history')
    ensures Counted(history) && down >= 1 ==> (heal <==> Trailing(Outcomes(history'), false) >= down)
  {
    var failures := 0;
    if !healthy {
      if history != [] && !history[|history| - 1].healthy {
        failures := history[|history| - 1].consecutiveFailures + 1;
      } else {
        failures := 1;
      }
    }
    history' := history + [CheckResult(healthy, failures)];
    heal := !healthy && failures >= down;
  }

  /** What happens to one instance: it is started behind a gate or without one,
      polled while in service, restarted by healing (gated) or by hand (not),
      and is never polled again once a gate fails. */
  datatype Life =
    | Gated(probe: nat -> bool, n: nat, ok: bool)
    | Ungated
    | Polled(healthy: bool)

  datatype Instance = Instance(history: seq<CheckResult>, inService: bool, gone: bool)

  const BORN := Instance([], false, false)

  function GateResults(probe: nat -> bool, n: nat): (rows: seq<CheckResult>)
    ensures |rows| == n && forall i | 0 <= i < n :: rows[i] == GateRow(probe, i)
  {
    if n == 0 then [] else GateResults(probe, n - 1) + [GateRow(probe, n - 1)]
  }

  ghost predicate Lives(x: Instance, e: Life, up: int, down: int) {
    && !x.gone
    && (e.Polled? ==> x.inService)
    && (e.Gated? ==> GateOutcome(e.probe, up, down, e.n, e.ok))
  }

  function After(x: Instance, e: Life): Instance {
    match e
    case Gated(probe, n, ok) => Instance(x.history + GateResults(probe, n), ok, !ok)
    case Ungated => x.(inService := true)
    case Polled(healthy) => x.(history := x.history + [NextResult(x.history, healthy)])
  }

  ghost predicate IsLife(lives: seq<Life>, xs: seq<Instance>, up: int, down: int) {
    && |xs| == |lives| + 1 && xs[0] == BORN
    && forall i | 0 <= i < |lives| :: Lives(xs[i], lives[i], up, down) && xs[i + 1] == After(xs[i], lives[i])
  }

  /** The last stored counter is the failure run of the whole history. */
  predicate Counted(history: seq<CheckResult>) {
    history != [] ==>
      history[|history| - 1].consecutiveFailures == Trailing(Outcomes(history), false)
  }

  lemma NextIsCounted(history: seq<CheckResult>, healthy: bool)
    requires Counted(history)
    ensures Counted(history + [NextResult(history, healthy)])
  {
    var history' := history + [NextResult(history, healthy)];
    assert history'[..|history'| - 1] == history;
    var s := Outcomes(history');
    assert s[..|s| - 1] == Outcomes(history);
    assert history == [] ==> Trailing(Outcomes(history), false) == 0;
    assert history != [] ==> Outcomes(history)[|history| - 1] == history[|history| - 1].healthy;
  }

  /** A gate that passes ends on a success, so nothing trails. */
  lemma PassedGateIsCounted(history: seq<CheckResult>, probe: nat -> bool, up: int, n: nat)
    requires up >= 1 && n > 0 && Passed(probe, n, up)
    ensures Counted(history + GateResults(probe, n))
  {
    var h := history + GateResults(probe, n);
    assert probe(n - 1);
    assert h[|h| - 1] == GateRow(probe, n - 1);
    assert Outcomes(h)[|h| - 1];
  }

  lemma GateIsCounted(history: seq<CheckResult>, probe: nat -> bool, up: int, down: int, n: nat, ok: bool)
    requires (up >= 1 || up + down <= 0) && GateOutcome(probe, up, down, n, ok)
    ensures ok ==> Counted(history + GateResults(probe, n))
  {
    if ok {
      PassedGateIsCounted(history, probe, up, n);
    }
  }

  lemma {:induction false} LifeIsCounted(
    lives: seq<Life>, xs: seq<Instance>, up: int, down: int, n: nat)
    requires (up >= 1 || up + down <= 0) && IsLife(lives, xs, up, down) && n < |xs|
    ensures !xs[n].gone ==> Counted(xs[n].history)
  {
    if n == 0 {
    } else {
      LifeIsCounted(lives, xs, up, down, n - 1);
      var x, e := xs[n - 1], lives[n - 1];
      assert Lives(x, e, up, down) && xs[n] == After(x, e);
      match e {
        case Polled(healthy) => NextIsCounted(x.history, healthy);
        case Gated(probe, k, ok) => GateIsCounted(x.history, probe, up, down, k, ok);
        case Ungated =>
      }
    }
  }

  /** The last n results are all failures. */
  ghost predicate LastFailed(history: seq<CheckResult>, n: nat) {
    n <= |history| && forall i | |history| - n <= i < |history| :: !history[i].healthy
  }

  lemma {:induction false} FailedRun(history: seq<CheckResult>, n: nat)
    ensures Trailing(Outcomes(history), false) >= n <==> LastFailed(history, n)
  {
    TrailingIsARun(Outcomes(history), false, n);
  }

  /** Whenever an instance is polled, the stored counter is the failure run of
      its whole result history - although the gate restarts its own count - and
      healing is requested exactly when the last `down` results are all failures.
      The configuration admits no threshold below one. */
  lemma MonitorCountsWholeHistory(lives: seq<Life>, xs: seq<Instance>, up: int, down: int, n: nat)
    requires (up >= 1 || up + down <= 0) && down >= 1 && IsLife(lives, xs, up, down)
    requires n < |lives| && lives[n].Polled?
    ensures var stored := NextResult(xs[n].history, lives[n].healthy);
            var run := Trailing(Outcomes(xs[n + 1].history), false);
            && xs[n + 1].history == xs[n].history + [stored]
            && stored.consecutiveFailures == run
            && (!stored.healthy && stored.consecutiveFailures >= down <==> LastFailed(xs[n + 1].history, down))
  {
    FailedRun(xs[n + 1].history, down);
    LifeIsCounted(lives, xs, up, down, n);
    NextIsCounted(xs[n].history, lives[n].healthy);
    assert Lives(xs[n], lives[n], up, down);
  }

  ghost predicate CountHolds(up: int, down: int) {
    forall lives: seq<Life>, xs: seq<Instance>, n: nat |
      IsLife(lives, xs, up, down) && n < |xs| :: !xs[n].gone ==> Counted(xs[n].history)
  }

  /** Why the configuration's bound on the healthy threshold is needed: the count
      covers the whole history of every life exactly if a gate cannot be passed
      without a success. */
  lemma BoundIsNeeded(up: int, down: int)
    ensures CountHolds(up, down) <==> up >= 1 || up + down <= 0
  {
    if up >= 1 || up + down <= 0 {
      forall lives: seq<Life>, xs: seq<Instance>, n: nat | IsLife(lives, xs, up, down) && n < |xs|
        ensures !xs[n].gone ==> Counted(xs[n].history)
      {
        LifeIsCounted(lives, xs, up, down, n);
      }
    } else {
      FreePassBreaksTheCount(up, down);
    }
  }

  /** A gate that asks for no success lets a failing instance in. */
  lemma FreePassBreaksTheCount(up: int, down: int)
    requires up <= 0 < up + down
    ensures !CountHolds(up, down)
  {
    var never: nat -> bool := _ => false;
    var lives := [Ungated, Polled(false), Gated(never, 1, true)];
    var x1 := After(BORN, lives[0]);
    var x2 := After(x1, lives[1]);
    var x3 := After(x2, lives[2]);
    var xs := [BORN, x1, x2, x3];
    NeverGate(never, up, down);
    assert x3.history == [CheckResult(false, 1), CheckResult(false, 1)];
    TwoFailures(x3.history);
    assert Lives(BORN, lives[0], up, down) && Lives(x1, lives[1], up, down) && Lives(x2, lives[2], up, down);
    assert IsLife(lives, xs, up, down);
    assert !xs[3].gone && !Counted(xs[3].history);
  }

  lemma NeverGate(never: nat -> bool, up: int, down: int)
    requires !never(0) && up <= 0 < up + down
    ensures GateOutcome(never, up, down, 1, true) && GateResults(never, 1) == [CheckResult(false, 1)]
  {
    assert RunAt(never, 1, true) == 0 && RunAt(never, 1, false) == 1;
  }

  lemma TwoFailures(h: seq<CheckResult>)
    requires h == [CheckResult(false, 1), CheckResult(false, 1)]
    ensures !Counted(h)
  {
    var s := Outcomes(h);
    assert s == [false, false];
    assert s[..1] == [false] && s[..1][..0] == [];
    assert Trailing(s, false) == 2;
  }
}

/**
 Health-check hysteresis: a backend is marked down after `unhealthyThreshold` consecutive failed
 probes and up after `healthyThreshold` consecutive successful ones.  The two streak counters and the
 flag are updated in place; the specification reads them off the whole probe history.
 */
module Health {
  import opened Cyclic

  datatype Thresholds = Thresholds(healthy: nat, unhealthy: nat)

  /** The backend fields the checker touches. */
  class Backend {
    var healthy: bool
    var successes: nat
    var failures: nat
    var queueDepth: nat
    var kvUsage: nat

    constructor ()
      ensures Abs() == Fresh() && queueDepth == 0 && kvUsage == 0
    {
      healthy, successes, failures, queueDepth, kvUsage := true, 0, 0, 0, 0;
    }

    ghost function Abs(): Status
      reads this
    {
      Status(healthy, successes, failures)
    }

    method MarkHealthy()
      modifies this`healthy, this`failures
      ensures healthy && failures == 0
    {
      healthy := true;
      failures := 0;
    }

    method MarkUnhealthy()
      modifies this`healthy, this`successes
      ensures !healthy && successes == 0
    {
      healthy := false;
      successes := 0;
    }

    method ApplyProbeResult(ok: bool, t: Thresholds)
      modifies this`healthy, this`successes, this`failures
      ensures Abs() == Probe(old(Abs()), t, ok)
    {
      if ok {
        successes := successes + 1;
        var streak := successes;
        failures := 0;
        if streak >= t.healthy && !healthy {
          MarkHealthy();
        }
      } else {
        failures := failures + 1;
        var streak := failures;
        successes := 0;
        if streak >= t.unhealthy && healthy {
          MarkUnhealthy();
        }
      }
    }

    /** Applies the probe and forgets scraped values once the backend is down; says whether to scrape. */
    method RecordProbe(ok: bool, t: Thresholds) returns (scrape: bool)
      modifies this
      ensures Abs() == Probe(old(Abs()), t, ok) && scrape == ok
      ensures if !ok && !healthy then queueDepth == 0 && kvUsage == 0
              else queueDepth == old(queueDepth) && kvUsage == old(kvUsage)
    {
      ApplyProbeResult(ok, t);
      if !ok && !healthy {
        queueDepth := 0;
        kvUsage := 0;
      }
      scrape := ok;
    }
  }

  datatype Status = Status(healthy: bool, successes: nat, failures: nat)

  function Fresh(): Status {
    Status(true, 0, 0)
  }

  function Probe(s: Status, t: Thresholds, ok: bool): Status {
    if ok then Status(s.healthy || s.successes + 1 >= t.healthy, s.successes + 1, 0)
    else Status(s.healthy && s.failures + 1 < t.unhealthy, 0, s.failures + 1)
  }

  function After(h: seq<bool>, t: Thresholds): Status {
    if h == [] then Fresh() else Probe(After(h[..|h| - 1], t), t, h[|h| - 1])
  }

  // ----------------------------------------------------- the history specification

  /** Length of the run of `ok` results that ends the history. */
  function Run(h: seq<bool>, ok: bool): nat {
    if h == [] || h[|h| - 1] != ok then 0 else 1 + Run(h[..|h| - 1], ok)
  }

  /** It is the longest suffix of that result. */
  lemma {:induction false} RunIsLongest(h: seq<bool>, ok: bool)
    ensures Run(h, ok) <= |h|
    ensures forall i :: |h| - Run(h, ok) <= i < |h| ==> h[i] == ok
    ensures Run(h, ok) < |h| ==> h[|h| - Run(h, ok) - 1] != ok
  {
    if h != [] && h[|h| - 1] == ok {
      var init := h[..|h| - 1];
      RunIsLongest(init, ok);
      assert forall i :: 0 <= i < |init| ==> h[i] == init[i];
    }
  }

  /** A threshold of 0 acts as 1: the first result of the kind reaches it. */
  function Needed(t: Thresholds, ok: bool): (n: nat)
    ensures n >= 1
  {
    var k := if ok then t.healthy else t.unhealthy;
    if k < 1 then 1 else k
  }

  /** The last result of the history completes or extends a run that has reached its threshold. */
  predicate Decides(h: seq<bool>, t: Thresholds) {
    h != [] && Run(h, h[|h| - 1]) >= Needed(t, h[|h| - 1])
  }

  /** `k` is the most recent moment at which a run had reached its threshold. */
  predicate LastDecision(h: seq<bool>, t: Thresholds, k: nat) {
    && 0 < k <= |h| && Decides(h[..k], t)
    && forall j :: k < j <= |h| ==> !Decides(h[..j], t)
  }

  /** The counters are the trailing run lengths. */
  lemma {:induction false} CountersAreRuns(h: seq<bool>, t: Thresholds)
    ensures After(h, t).successes == Run(h, true) && After(h, t).failures == Run(h, false)
  {
    if h == [] {
    } else {
      CountersAreRuns(h[..|h| - 1], t);
    }
  }

  /** The flag is decided by the most recent run to reach its threshold, and is up if none has. */
  lemma {:induction false} FlagIsLastDecision(h: seq<bool>, t: Thresholds)
    ensures forall k: nat :: LastDecision(h, t, k) ==> After(h, t).healthy == h[k - 1]
    ensures (forall k :: 0 < k <= |h| ==> !Decides(h[..k], t)) ==> After(h, t).healthy
  {
    if h == [] {
    } else {
      var init := h[..|h| - 1];
      FlagIsLastDecision(init, t);
      CountersAreRuns(init, t);
      CountersAreRuns(h, t);
      assert h[..|h|] == h;
      forall j | 0 < j <= |init| ensures init[..j] == h[..j] {}
      if !Decides(h, t) {
        assert After(h, t).healthy == After(init, t).healthy;
        forall k: nat | LastDecision(h, t, k) ensures LastDecision(init, t, k) {
          assert k != |h|;
        }
      } else {
        assert After(h, t).healthy == h[|h| - 1];
        assert Decides(h[..|h|], t);
        forall k: nat | LastDecision(h, t, k) ensures k == |h| {}
      }
    }
  }

  // ------------------------------------------------------------------ flap bound

  /** Times the flag went down (`up` false) or up (`up` true) during the history. */
  function Flips(h: seq<bool>, t: Thresholds, up: bool): nat {
    if h == [] then 0
    else
      var before, after := After(h[..|h| - 1], t).healthy, After(h, t).healthy;
      Flips(h[..|h| - 1], t, up) + (if before != after && after == up then 1 else 0)
  }

  /** Results already spent on the next flip. */
  function Pending(s: Status): nat {
    if s.healthy then s.failures else s.successes
  }

  /** One probe either adds at most one to what is pending, or flips the flag, and then what was
      pending and this probe make up the threshold. */
  lemma ProbePays(s: Status, t: Thresholds, ok: bool)
    requires Pending(s) < Needed(t, !s.healthy)
    ensures var s' := Probe(s, t, ok);
            && Pending(s') < Needed(t, !s'.healthy)
            && (s'.healthy == s.healthy ==> Pending(s') <= Pending(s) + 1)
            && (s'.healthy != s.healthy ==> Pending(s') == 0 && Needed(t, s'.healthy) <= Pending(s) + 1)
  {
  }

  lemma {:induction false} FlipsCostProbes(h: seq<bool>, t: Thresholds)
    ensures var s := After(h, t);
            && Flips(h, t, false) * Needed(t, false) + Flips(h, t, true) * Needed(t, true) + Pending(s) <= |h|
            && Pending(s) < Needed(t, !s.healthy)
  {
    if h == [] {
    } else {
      var init := h[..|h| - 1];
      FlipsCostProbes(init, t);
      ProbePays(After(init, t), t, h[|h| - 1]);
      OneMore(Flips(init, t, false), Needed(t, false));
      OneMore(Flips(init, t, true), Needed(t, true));
    }
  }

  /** Every flip down costs at least the unhealthy threshold in probes, every flip up the healthy one. */
  lemma FlapBound(h: seq<bool>, t: Thresholds)
    ensures var down, up := if t.unhealthy < 1 then 1 else t.unhealthy, if t.healthy < 1 then 1 else t.healthy;
            Flips(h, t, false) * down + Flips(h, t, true) * up <= |h|
  {
    FlipsCostProbes(h, t);
  }
}

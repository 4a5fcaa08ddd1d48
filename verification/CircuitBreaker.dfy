/**
 The breaker as the router stores it: a fixed array of one-second buckets updated in place under a
 lock.  The ghost field `log` is the plain sample log the array stands for; `Valid` ties them, and
 each method is proved to do to the state and the log exactly what the function of the same name in
 module `Breaker` does.
 */
module CircuitBreakers {
  import opened Cyclic
  import opened Options
  import opened SlidingWindow
  import B = Breaker

  /** The fields behind the breaker's mutex. */
  class Inner {
    var state: B.State
    var openedAt: Option<nat>
    const buckets: array<Bucket>
    var head: nat
    var headStart: nat
    var probeInFlight: bool
    ghost var log: Log

    ghost function Stored(): Ring
      reads this`head, this`headStart, buckets
    {
      Ring(buckets[..], head, headStart)
    }

    ghost function Abs(): B.Breaker
      reads this
    {
      B.Breaker(state, openedAt, probeInFlight, log)
    }

    ghost predicate Valid()
      reads this`head, this`headStart, this`log, buckets
    {
      Files(Stored(), log)
    }

    constructor (window: nat, now: nat)
      requires window >= 1
      ensures Valid() && Abs() == B.Initial(now) && buckets.Length == window && fresh(buckets)
    {
      state, openedAt, probeInFlight := B.Closed, None, false;
      head, headStart := 0, now;
      log := Log(now, []);
      buckets := new Bucket[window](_ => EMPTY);
      new;
      assert Stored() == Cleared(Stored(), now);
      ClearRefines(Stored(), now);
    }

    /** Rotated to the reading `now`: counting a sample of any kind, or none, restores `Valid`. */
    ghost predicate ReadyFor(now: nat)
      reads this`head, this`headStart, this`log, buckets
    {
      && Stored().WellFormed()
      && forall kind :: Files(Tally(Stored(), kind), Append(log, now, kind))
    }

    /** Slide the window forward to `now`, zeroing the buckets that fell out. */
    method Rotate(now: nat)
      requires Valid()
      modifies this`head, this`headStart, buckets
      ensures Stored() == SlidingWindow.Rotate(old(Stored()), now) && ReadyFor(now)
      ensures old(headStart) <= now ==> headStart <= now < headStart + 1_000_000_000
      ensures now < old(headStart) ==> headStart == old(headStart) && head == old(head)
    {
      ghost var before := Stored();
      forall kind ensures Files(Tally(SlidingWindow.Rotate(before, now), kind), Append(log, now, kind)) {
        RecordRefines(before, log, now, kind);
      }
      RotateBuckets(now);
    }

    method RotateBuckets(now: nat)
      requires Stored().WellFormed()
      modifies this`head, this`headStart, buckets
      ensures Stored() == SlidingWindow.Rotate(old(Stored()), now)
      ensures old(headStart) <= now ==> headStart <= now < headStart + 1_000_000_000
      ensures now < old(headStart) ==> headStart == old(headStart) && head == old(head)
    {
      ghost var before := Stored();
      var elapsed := if now <= headStart then 0 else (now - headStart) / TICKS_PER_SEC;
      assert elapsed == Elapsed(before, now);
      if elapsed == 0 {
        RotateIdle(before, now);
        return;
      }
      var n := buckets.Length;
      var steps := if elapsed < n then elapsed else n;
      for i := 0 to steps
        invariant head == before.head && headStart == before.headStart
        invariant buckets[..] == ClearAhead(before.buckets, head, i)
      {
        buckets[Wrap(head + (i + 1), n)] := EMPTY;
      }
      head := Wrap(head + steps, n);
      headStart := headStart + elapsed * TICKS_PER_SEC;
    }

    method Totals() returns (failures: nat, total: nat)
      requires Valid()
      ensures failures == Failures(log, buckets.Length)
      ensures total == Total(log, buckets.Length)
    {
      failures := 0;
      var successes := 0;
      for i := 0 to buckets.Length
        invariant failures == SumFailures(buckets[..i]) && successes == SumSuccesses(buckets[..i])
      {
        assert buckets[..i + 1][..i] == buckets[..i];
        failures := failures + buckets[i].failures;
        successes := successes + buckets[i].successes;
      }
      assert buckets[..buckets.Length] == buckets[..];
      TotalsRefine(Stored(), log);
      total := failures + successes;
    }

    method ShouldTrip(cfg: B.Config) returns (trip: bool)
      requires Valid() && buckets.Length == cfg.window
      ensures trip <==> B.Trips(cfg, log)
    {
      var failures, total := Totals();
      trip := total >= cfg.minRequests && B.RateReached(failures, total, cfg.threshold);
    }

    method Clear(now: nat)
      requires Stored().WellFormed()
      modifies this`head, this`headStart, this`log, buckets
      ensures Stored() == Cleared(old(Stored()), now) && log == Log(now, []) && ReadyFor(now)
    {
      for i := 0 to buckets.Length
        invariant forall k :: 0 <= k < i ==> buckets[k] == EMPTY
      {
        buckets[i] := EMPTY;
      }
      head := 0;
      headStart := now;
      log := Log(now, []);
      ghost var r := Stored();
      assert r == Cleared(r, now);
      ClearRefines(r, now);
      RotateIdle(r, now);
      forall kind ensures Files(Tally(r, kind), Append(log, now, kind)) {
        RecordRefines(r, log, now, kind);
      }
    }

    method Refresh(cfg: B.Config, now: nat)
      modifies this`state
      ensures Abs() == B.Refresh(old(Abs()), cfg, now)
    {
      if state == B.Open && openedAt.Some? {
        if B.Since(now, openedAt.value) >= cfg.openTicks {
          state := B.HalfOpen;
        }
      }
    }

    /** Count one sample in the head bucket. */
    method Count(now: nat, success: bool)
      requires ReadyFor(now)
      modifies this`log, buckets
      ensures Valid() && log == Append(old(log), now, if success then Ok else Fail)
    {
      ghost var kind := if success then Ok else Fail;
      ghost var after := Tally(Stored(), kind);
      var b := buckets[head];
      buckets[head] := if success then b.(successes := b.successes + 1) else b.(failures := b.failures + 1);
      log := Append(log, now, kind);
      assert buckets[..] == after.buckets;
      assert Stored() == after;
    }

    /** The reading moved the window but is not a sample. */
    ghost method CountNothing(now: nat)
      requires ReadyFor(now)
      modifies this`log
      ensures Valid() && log == Append(old(log), now, Uncounted)
    {
      assert Tally(Stored(), Uncounted) == Stored();
      log := Append(log, now, Uncounted);
    }

    /** Overwrite the state fields, leaving the window alone. */
    method Become(to: B.State, at: Option<nat>, probe: bool)
      requires Valid()
      modifies this`state, this`openedAt, this`probeInFlight
      ensures Valid() && Abs() == B.Breaker(to, at, probe, log)
    {
      state, openedAt, probeInFlight := to, at, probe;
    }

    /** The window's part of a success: rotate, start afresh if the circuit has just closed, count. */
    method TakeSuccess(now: nat, restart: bool)
      requires Valid()
      modifies this`head, this`headStart, this`log, buckets
      ensures Valid()
      ensures log == Append(if restart then Log(now, []) else old(log), now, Ok)
    {
      Rotate(now);
      if restart {
        Clear(now);
      }
      Count(now, true);
    }

    /** The window's part of a failure: rotate, and count it unless it is the probe's. */
    method TakeFailure(now: nat, counted: bool)
      requires Valid()
      modifies this`head, this`headStart, this`log, buckets
      ensures Valid()
      ensures log == Append(old(log), now, if counted then Fail else Uncounted)
    {
      Rotate(now);
      if counted {
        Count(now, false);
      } else {
        CountNothing(now);
      }
    }
  }

  class CircuitBreaker {
    const inner: Inner
    const cfg: B.Config

    ghost predicate Valid()
      reads inner`head, inner`headStart, inner`log, inner.buckets
    {
      inner.Valid() && inner.buckets.Length == cfg.window
    }

    ghost function Abs(): B.Breaker
      reads inner
    {
      inner.Abs()
    }

    constructor (threshold: real, minRequests: nat, windowSecs: nat, openSecs: nat, now: nat)
      ensures Valid() && Abs() == B.Initial(now)
      ensures cfg == B.Config(threshold, Max(minRequests, 1), Max(windowSecs, 1), openSecs * TICKS_PER_SEC)
      ensures fresh(inner) && fresh(inner.buckets)
    {
      cfg := B.Config(threshold, Max(minRequests, 1), Max(windowSecs, 1), openSecs * TICKS_PER_SEC);
      inner := new Inner(Max(windowSecs, 1), now);
    }

    method State(now: nat) returns (s: B.State)
      requires Valid()
      modifies inner
      ensures Valid() && Abs() == B.Refresh(old(Abs()), cfg, now) && s == Abs().state
    {
      inner.Refresh(cfg, now);
      s := inner.state;
    }

    method IsRoutable(now: nat) returns (ok: bool)
      requires Valid()
      modifies inner
      ensures Valid() && (Abs(), ok) == B.IsRoutable(old(Abs()), cfg, now)
    {
      inner.Refresh(cfg, now);
      match inner.state
      case Closed => ok := true;
      case HalfOpen => ok := !inner.probeInFlight;
      case Open => ok := false;
    }

    method TryBegin(now: nat) returns (adm: Option<B.Admission>)
      requires Valid()
      modifies inner
      ensures Valid() && (Abs(), adm) == B.TryBegin(old(Abs()), cfg, now)
    {
      inner.Refresh(cfg, now);
      match inner.state
      case Closed => adm := Some(B.Normal);
      case Open => adm := None;
      case HalfOpen =>
        if inner.probeInFlight {
          adm := None;
        } else {
          inner.probeInFlight := true;
          adm := Some(B.Probe);
        }
    }

    method RecordSuccess(adm: B.Admission, now: nat)
      requires Valid()
      modifies inner, inner.buckets
      ensures Valid() && Abs() == B.RecordSuccess(old(Abs()), cfg, adm, now)
    {
      inner.Refresh(cfg, now);
      var judged := inner.state == B.HalfOpen && adm == B.Probe;
      inner.TakeSuccess(now, judged);
      if judged {
        inner.Become(B.Closed, None, false);
      }
    }

    method RecordFailure(adm: B.Admission, now: nat)
      requires Valid()
      modifies inner, inner.buckets
      ensures Valid() && Abs() == B.RecordFailure(old(Abs()), cfg, adm, now)
    {
      inner.Refresh(cfg, now);
      var judged := inner.state == B.HalfOpen && adm == B.Probe;
      inner.TakeFailure(now, !judged);
      if judged {
        inner.Become(B.Open, Some(now), false);
      } else if inner.state == B.Closed {
        TripIfDue(now);
      }
    }

    /** A closed circuit with a failure just counted opens if the window says so. */
    method TripIfDue(now: nat)
      requires Valid()
      modifies inner`state, inner`openedAt, inner`probeInFlight
      ensures Valid()
      ensures Abs() == if B.Trips(cfg, inner.log) then old(Abs()).(state := B.Open, openedAt := Some(now))
                       else old(Abs())
    {
      var trip := inner.ShouldTrip(cfg);
      if trip {
        inner.Become(B.Open, Some(now), inner.probeInFlight);
      }
    }

    method Abandon(adm: B.Admission)
      requires Valid()
      modifies inner
      ensures Valid() && Abs() == B.Abandon(old(Abs()), adm)
    {
      if adm != B.Probe {
        return;
      }
      if inner.state == B.HalfOpen {
        inner.probeInFlight := false;
      }
    }
  }
}

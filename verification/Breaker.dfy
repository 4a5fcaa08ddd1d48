/**
 The circuit breaker as a state machine over the plain sample log.

 Every function is one critical section of the breaker's mutex.  The clock is read before the lock
 is taken, so `now` is an arbitrary instant: two calls may present their readings in either order.
 `CircuitBreaker` is the class that stores buckets instead of the log; its methods are proved equal
 to these functions.
 */
module Breaker {
  import opened Options
  import opened SlidingWindow

  datatype State = Closed | Open | HalfOpen

  datatype Admission = Normal | Probe

  datatype RawConfig = Config(threshold: real, minRequests: nat, window: nat, openTicks: nat)

  /** The constructor raises both counts to at least one. */
  type Config = c: RawConfig | c.minRequests >= 1 && c.window >= 1
    witness Config(0.5, 1, 1, 0)

  datatype Breaker = Breaker(state: State, openedAt: Option<nat>, probe: bool, log: Log)

  function Initial(now: nat): Breaker {
    Breaker(Closed, None, false, Log(now, []))
  }

  function Since(now: nat, earlier: nat): nat {
    if now <= earlier then 0 else now - earlier
  }

  function Refresh(b: Breaker, cfg: Config, now: nat): Breaker {
    if b.state == Open && b.openedAt.Some? && Since(now, b.openedAt.value) >= cfg.openTicks
    then b.(state := HalfOpen)
    else b
  }

  function IsRoutable(b: Breaker, cfg: Config, now: nat): (Breaker, bool) {
    var b1 := Refresh(b, cfg, now);
    (b1, match b1.state
         case Closed => true
         case HalfOpen => !b1.probe
         case Open => false)
  }

  function TryBegin(b: Breaker, cfg: Config, now: nat): (Breaker, Option<Admission>) {
    var b1 := Refresh(b, cfg, now);
    match b1.state
    case Closed => (b1, Some(Normal))
    case Open => (b1, None)
    case HalfOpen => if b1.probe then (b1, None) else (b1.(probe := true), Some(Probe))
  }

  function RecordSuccess(b: Breaker, cfg: Config, adm: Admission, now: nat): Breaker {
    var b1 := Refresh(b, cfg, now);
    if b1.state == HalfOpen && adm == Probe
    then Breaker(Closed, None, false, Append(Log(now, []), now, Ok))
    else b1.(log := Append(b1.log, now, Ok))
  }

  predicate RateReached(failures: nat, total: nat, rate: real)
    requires total > 0
  {
    failures as real / total as real >= rate
  }

  /** Enough samples, and the failure rate at or over the threshold. */
  predicate Trips(cfg: Config, log: Log) {
    && Total(log, cfg.window) >= cfg.minRequests
    && RateReached(Failures(log, cfg.window), Total(log, cfg.window), cfg.threshold)
  }

  function RecordFailure(b: Breaker, cfg: Config, adm: Admission, now: nat): Breaker {
    var b1 := Refresh(b, cfg, now);
    if b1.state == HalfOpen && adm == Probe then
      Breaker(Open, Some(now), false, Append(b1.log, now, Uncounted))
    else
      var b2 := b1.(log := Append(b1.log, now, Fail));
      if b2.state == Closed && Trips(cfg, b2.log) then b2.(state := Open, openedAt := Some(now)) else b2
  }

  function Abandon(b: Breaker, adm: Admission): Breaker {
    if adm == Probe && b.state == HalfOpen then b.(probe := false) else b
  }

  // ------------------------------------------------------------------- runs

  datatype Call =
    | AskState(now: nat)
    | AskRoutable(now: nat)
    | Begin(now: nat)
    | Succeed(adm: Admission, now: nat)
    | Failed(adm: Admission, now: nat)
    | GiveUp(adm: Admission)

  datatype Answer = Nothing | IsIn(state: State) | MayRoute(ok: bool) | Granted(adm: Option<Admission>)

  function Step(b: Breaker, cfg: Config, c: Call): Breaker {
    match c
    case AskState(now) => Refresh(b, cfg, now)
    case AskRoutable(now) => IsRoutable(b, cfg, now).0
    case Begin(now) => TryBegin(b, cfg, now).0
    case Succeed(adm, now) => RecordSuccess(b, cfg, adm, now)
    case Failed(adm, now) => RecordFailure(b, cfg, adm, now)
    case GiveUp(adm) => Abandon(b, adm)
  }

  function Reply(b: Breaker, cfg: Config, c: Call): Answer {
    match c
    case AskState(now) => IsIn(Refresh(b, cfg, now).state)
    case AskRoutable(now) => MayRoute(IsRoutable(b, cfg, now).1)
    case Begin(now) => Granted(TryBegin(b, cfg, now).1)
    case _ => Nothing
  }

  function Run(b: Breaker, cfg: Config, cs: seq<Call>): Breaker {
    if cs == [] then b else Step(Run(b, cfg, cs[..|cs| - 1]), cfg, cs[|cs| - 1])
  }

  /** What every call keeps, whatever tokens and clock readings it carries. */
  predicate Sound(b: Breaker) {
    && (b.openedAt.Some? <==> b.state != Closed)
    && (b.probe ==> b.state == HalfOpen)
  }

  lemma StepKeepsSound(b: Breaker, cfg: Config, c: Call)
    requires Sound(b)
    ensures Sound(Step(b, cfg, c))
  {
  }

  lemma {:induction false} RunKeepsSound(b: Breaker, cfg: Config, cs: seq<Call>)
    requires Sound(b)
    ensures Sound(Run(b, cfg, cs))
  {
    if cs == [] {
    } else {
      RunKeepsSound(b, cfg, cs[..|cs| - 1]);
      StepKeepsSound(Run(b, cfg, cs[..|cs| - 1]), cfg, cs[|cs| - 1]);
    }
  }

  // ------------------------------------------------ the log is the history

  /** The call hands a probe's verdict to a half-open breaker. */
  predicate JudgesProbe(b: Breaker, cfg: Config, c: Call) {
    (c.Succeed? || c.Failed?) && c.adm == Probe && Refresh(b, cfg, c.now).state == HalfOpen
  }

  predicate Closes(b: Breaker, cfg: Config, c: Call) {
    c.Succeed? && JudgesProbe(b, cfg, c)
  }

  /** Position of the last call that closed the circuit, or -1. */
  function LastClose(b: Breaker, cfg: Config, cs: seq<Call>): (i: int)
    ensures -1 <= i < |cs|
    ensures i >= 0 ==> cs[i].Succeed?
  {
    if cs == [] then -1
    else if Closes(Run(b, cfg, cs[..|cs| - 1]), cfg, cs[|cs| - 1]) then |cs| - 1
    else LastClose(b, cfg, cs[..|cs| - 1])
  }

  /** The verdicts from position `from` on, as samples: successes, failures, and the probe failures
      that only move the window. */
  function Samples(b: Breaker, cfg: Config, cs: seq<Call>, from: nat): seq<Entry> {
    if |cs| <= from then []
    else
      var init, c := cs[..|cs| - 1], cs[|cs| - 1];
      Samples(b, cfg, init, from)
      + match c {
          case Succeed(_, now) => [Entry(now, Ok)]
          case Failed(_, now) => [Entry(now, if JudgesProbe(Run(b, cfg, init), cfg, c) then Uncounted else Fail)]
          case _ => []
        }
  }

  /** The samples of a run since its last close, with the instant the window was last cleared. */
  function History(start: nat, cfg: Config, cs: seq<Call>): Log {
    var b := Initial(start);
    var i := LastClose(b, cfg, cs);
    if i < 0 then Log(start, Samples(b, cfg, cs, 0)) else Log(cs[i].now, Samples(b, cfg, cs, i))
  }

  /** After any run the log holds exactly the verdicts since the last close, in order. */
  lemma {:induction false} LogIsHistory(start: nat, cfg: Config, cs: seq<Call>)
    ensures Run(Initial(start), cfg, cs).log == History(start, cfg, cs)
  {
    var b := Initial(start);
    if cs == [] {
    } else {
      var init, c := cs[..|cs| - 1], cs[|cs| - 1];
      LogIsHistory(start, cfg, init);
      var i := LastClose(b, cfg, init);
      if Closes(Run(b, cfg, init), cfg, c) {
        assert Samples(b, cfg, init, |cs| - 1) == [];
      } else {
        assert LastClose(b, cfg, cs) == i;
        assert i >= 0 ==> cs[i] == init[i];
      }
    }
  }

  // ------------------------------------------------------ trips are justified

  lemma RatioBound(failures: nat, total: nat, least: nat, rate: real)
    requires 0 < least <= total && rate >= 0.0
    requires RateReached(failures, total, rate)
    ensures failures as real >= rate * least as real
  {
  }

  /** At least threshold * min_requests failures in the window. */
  predicate EnoughFailures(cfg: Config, log: Log) {
    Failures(log, cfg.window) as real >= cfg.threshold * cfg.minRequests as real
  }

  lemma TripsOnFailures(cfg: Config, log: Log)
    requires cfg.threshold >= 0.0 && Trips(cfg, log)
    ensures EnoughFailures(cfg, log)
  {
    RatioBound(Failures(log, cfg.window), Total(log, cfg.window), cfg.minRequests, cfg.threshold);
  }

  /** The only step out of Closed. */
  lemma LeavesClosed(b: Breaker, cfg: Config, c: Call)
    requires b.state == Closed && Step(b, cfg, c).state != Closed
    ensures c.Failed? && Step(b, cfg, c).state == Open && Step(b, cfg, c).openedAt == Some(c.now)
    ensures Trips(cfg, Step(b, cfg, c).log)
  {
  }

  /** A run leaves Closed for Open only on a failure verdict, with at least threshold * min_requests
      failures among the verdicts since the last close that fall in the last `window` slots, and
      the open period starts at that verdict's reading. */
  lemma TripIsJustified(start: nat, cfg: Config, cs: seq<Call>, c: Call)
    requires cfg.threshold >= 0.0
    requires Run(Initial(start), cfg, cs).state == Closed
    requires Run(Initial(start), cfg, cs + [c]).state != Closed
    ensures c.Failed?
    ensures Run(Initial(start), cfg, cs + [c]).state == Open
    ensures Run(Initial(start), cfg, cs + [c]).openedAt == Some(c.now)
    ensures var seen := History(start, cfg, cs + [c]);
            Total(seen, cfg.window) >= cfg.minRequests && EnoughFailures(cfg, seen)
  {
    assert (cs + [c])[..|cs + [c]| - 1] == cs;
    LeavesClosed(Run(Initial(start), cfg, cs), cfg, c);
    LogIsHistory(start, cfg, cs + [c]);
    TripsOnFailures(cfg, History(start, cfg, cs + [c]));
  }

  /** Enough samples in the window, and at least the threshold's share of them failures. */
  predicate IsBad(cfg: Config, seen: Log) {
    && Total(seen, cfg.window) >= cfg.minRequests
    && Failures(seen, cfg.window) as real >= cfg.threshold * Total(seen, cfg.window) as real
  }

  lemma RateIsShare(failures: nat, total: nat, rate: real)
    requires total > 0
    ensures RateReached(failures, total, rate) <==> failures as real >= rate * total as real
  {
    var f, t := failures as real, total as real;
    assert f / t * t == f;
    if f / t >= rate {
      assert (f / t - rate) * t >= 0.0;
    } else {
      assert (rate - f / t) * t > 0.0;
    }
  }

  /** A closed circuit opens on a failure exactly when the window, with that failure in it, is bad. */
  lemma FailureOpensIff(b: Breaker, cfg: Config, adm: Admission, now: nat)
    requires b.state == Closed
    ensures var b' := Step(b, cfg, Failed(adm, now));
            && b'.log == Append(b.log, now, Fail)
            && b'.state == (if IsBad(cfg, b'.log) then Open else Closed)
  {
    var log := Append(b.log, now, Fail);
    if Total(log, cfg.window) >= cfg.minRequests {
      RateIsShare(Failures(log, cfg.window), Total(log, cfg.window), cfg.threshold);
    }
  }

  /** In any run a closed circuit opens with the next call if and only if that is a failure verdict and
      the verdicts since the last close, this one included, make a bad window. */
  lemma RunOpensIff(start: nat, cfg: Config, cs: seq<Call>, c: Call)
    requires Run(Initial(start), cfg, cs).state == Closed
    ensures Run(Initial(start), cfg, cs + [c]).state != HalfOpen
    ensures Run(Initial(start), cfg, cs + [c]).state == Open <==>
            c.Failed? && IsBad(cfg, History(start, cfg, cs + [c]))
  {
    assert (cs + [c])[..|cs + [c]| - 1] == cs;
    LogIsHistory(start, cfg, cs + [c]);
    if c.Failed? {
      FailureOpensIff(Run(Initial(start), cfg, cs), cfg, c.adm, c.now);
    }
  }

  function AllFailing(nows: seq<nat>): seq<Call> {
    seq(|nows|, i requires 0 <= i < |nows| => Failed(Normal, nows[i]))
  }

  lemma {:induction false} CountShrinks(base: nat, es: seq<Entry>, kind: Kind, lo: int, lo': int, hi: int, hi': int)
    requires lo <= lo' && (hi' <= hi || Newest(base, es) < hi)
    ensures Count(base, es, kind, lo', hi') <= Count(base, es, kind, lo, hi)
  {
    if es == [] {
    } else {
      CountShrinks(base, es[..|es| - 1], kind, lo, lo', hi, hi');
    }
  }

  /** A further failure brings no success back into the window. */
  lemma NoSuccessReturns(log: Log, now: nat, n: nat)
    ensures InWindow(Append(log, now, Fail), n, Ok) <= InWindow(log, n, Ok)
  {
    var es := Append(log, now, Fail).entries;
    assert es[..|es| - 1] == log.entries;
    var top, top' := Newest(log.base, log.entries), Newest(log.base, es);
    CountShrinks(log.base, log.entries, Ok, top - n + 1, top' - n + 1, top + 1, top' + 1);
  }

  function FailLog(log: Log, nows: seq<nat>): Log {
    if nows == [] then log else Append(FailLog(log, nows[..|nows| - 1]), nows[|nows| - 1], Fail)
  }

  /** With no success in the window the rate is 1, so only the sample count decides. */
  lemma AllFailuresTrip(cfg: Config, log: Log)
    requires 0.0 < cfg.threshold <= 1.0 && InWindow(log, cfg.window, Ok) == 0
    ensures Trips(cfg, log) <==> Failures(log, cfg.window) >= cfg.minRequests
  {
  }

  lemma FailureStep(b: Breaker, cfg: Config, now: nat)
    requires 0.0 < cfg.threshold <= 1.0
    requires b.state == Closed && InWindow(b.log, cfg.window, Ok) == 0
    ensures InWindow(Append(b.log, now, Fail), cfg.window, Ok) == 0
    ensures Step(b, cfg, Failed(Normal, now)).state == Closed <==>
            Failures(Append(b.log, now, Fail), cfg.window) < cfg.minRequests
    ensures Step(b, cfg, Failed(Normal, now)).state == Closed ==>
            Step(b, cfg, Failed(Normal, now)) == b.(log := Append(b.log, now, Fail))
  {
    NoSuccessReturns(b.log, now, cfg.window);
    AllFailuresTrip(cfg, Append(b.log, now, Fail));
  }

  lemma RunFailing(b: Breaker, cfg: Config, nows: seq<nat>)
    requires nows != []
    ensures var b1 := Run(b, cfg, AllFailing(nows[..|nows| - 1]));
            Run(b, cfg, AllFailing(nows)) == Step(b1, cfg, Failed(Normal, nows[|nows| - 1]))
  {
    assert AllFailing(nows)[..|nows| - 1] == AllFailing(nows[..|nows| - 1]);
  }

  lemma FailureStaysOut(b: Breaker, cfg: Config, now: nat)
    requires b.state != Closed
    ensures Step(b, cfg, Failed(Normal, now)).state != Closed
  {
  }

  ghost predicate StaysBelow(log: Log, cfg: Config, nows: seq<nat>) {
    forall m :: 0 <= m <= |nows| ==> Failures(FailLog(log, nows[..m]), cfg.window) < cfg.minRequests
  }

  lemma StaysBelowStep(log: Log, cfg: Config, nows: seq<nat>)
    requires nows != []
    ensures StaysBelow(log, cfg, nows) <==>
            StaysBelow(log, cfg, nows[..|nows| - 1]) && Failures(FailLog(log, nows), cfg.window) < cfg.minRequests
  {
    var init := nows[..|nows| - 1];
    assert nows[..|nows|] == nows;
    assert forall m :: 0 <= m <= |init| ==> nows[..m] == init[..m];
  }

  /** A backend that only fails leaves Closed exactly when the window first holds min_requests
      failures, for clock readings in any order. */
  lemma {:induction false} OnlyFailingTrips(b: Breaker, cfg: Config, nows: seq<nat>)
    requires 0.0 < cfg.threshold <= 1.0
    requires b.state == Closed && InWindow(b.log, cfg.window, Ok) == 0
    requires Failures(b.log, cfg.window) < cfg.minRequests
    ensures Run(b, cfg, AllFailing(nows)).state == Closed <==> StaysBelow(b.log, cfg, nows)
    ensures Run(b, cfg, AllFailing(nows)).state == Closed ==>
            Run(b, cfg, AllFailing(nows)) == b.(log := FailLog(b.log, nows))
    ensures Run(b, cfg, AllFailing(nows)).state == Closed ==> InWindow(FailLog(b.log, nows), cfg.window, Ok) == 0
  {
    if nows == [] {
    } else {
      var init := nows[..|nows| - 1];
      OnlyFailingTrips(b, cfg, init);
      StaysBelowStep(b.log, cfg, nows);
      RunFailing(b, cfg, nows);
      if Run(b, cfg, AllFailing(init)).state == Closed {
        FailureStep(b.(log := FailLog(b.log, init)), cfg, nows[|nows| - 1]);
      } else {
        FailureStaysOut(Run(b, cfg, AllFailing(init)), cfg, nows[|nows| - 1]);
      }
    }
  }

  /** Failures of the first `n` seconds are all in the window. */
  lemma {:induction false} FreshFailuresCount(start: nat, n: nat, nows: seq<nat>)
    requires n >= 1 && forall i :: 0 <= i < |nows| ==> SlotOf(start, nows[i]) < n
    ensures var log := FailLog(Log(start, []), nows);
            log.base == start && Newest(start, log.entries) < n && Count(start, log.entries, Fail, 0, n) == |nows|
  {
    if nows == [] {
    } else {
      FreshFailuresCount(start, n, nows[..|nows| - 1]);
      var es := FailLog(Log(start, []), nows).entries;
      assert es[..|es| - 1] == FailLog(Log(start, []), nows[..|nows| - 1]).entries;
    }
  }

  lemma FreshFailuresInWindow(start: nat, n: nat, nows: seq<nat>)
    requires n >= 1 && forall i :: 0 <= i < |nows| ==> SlotOf(start, nows[i]) < n
    ensures Failures(FailLog(Log(start, []), nows), n) == |nows|
  {
    FreshFailuresCount(start, n, nows);
    WindowCoversAll(FailLog(Log(start, []), nows), n, Fail);
  }

  /** While no failure has aged out of the window, the circuit opens at exactly the
      min_requests-th failure. */
  lemma FreshBackendTripsAtMinRequests(start: nat, cfg: Config, nows: seq<nat>)
    requires 0.0 < cfg.threshold <= 1.0
    requires forall i :: 0 <= i < |nows| ==> SlotOf(start, nows[i]) < cfg.window
    ensures Run(Initial(start), cfg, AllFailing(nows)).state == Closed <==> |nows| < cfg.minRequests
  {
    var b := Initial(start);
    OnlyFailingTrips(b, cfg, nows);
    forall m | 0 <= m <= |nows| ensures Failures(FailLog(b.log, nows[..m]), cfg.window) == m {
      FreshFailuresInWindow(start, cfg.window, nows[..m]);
    }
    assert Failures(FailLog(b.log, nows[..|nows|]), cfg.window) == |nows|;
  }

  // ------------------------------------------------- open periods are respected

  /** The open period that began at `t` has run out at reading `now`; one of length zero always has. */
  predicate Due(cfg: Config, t: nat, now: nat) {
    cfg.openTicks == 0 || now >= t + cfg.openTicks
  }

  predicate NotDue(cfg: Config, t: nat, c: Call) {
    c.GiveUp? || !Due(cfg, t, c.now)
  }

  /** Exactly the open circuits whose period has run out at the reading are moved, to half-open. */
  lemma RefreshMovesIff(b: Breaker, cfg: Config, now: nat)
    requires Sound(b)
    ensures Refresh(b, cfg, now) == b.(state := Refresh(b, cfg, now).state)
    ensures Refresh(b, cfg, now).state != b.state <==>
            b.state == Open && (cfg.openTicks == 0 || now >= b.openedAt.value + cfg.openTicks)
    ensures Refresh(b, cfg, now).state != b.state ==> Refresh(b, cfg, now).state == HalfOpen
  {
  }

  /** The breaker turns a request away: open with its period still running, or half-open with its probe
      out. */
  predicate TurnsAway(b: Breaker, cfg: Config, now: nat) {
    || (b.state == Open && (b.openedAt.None? || (cfg.openTicks > 0 && now < b.openedAt.value + cfg.openTicks)))
    || (b.state != Closed && b.probe)
  }

  /** The question and the claim agree, and both refuse exactly when the breaker turns requests away. */
  lemma RoutableIffGranted(b: Breaker, cfg: Config, now: nat)
    ensures IsRoutable(b, cfg, now).1 <==> TryBegin(b, cfg, now).1.Some?
    ensures IsRoutable(b, cfg, now).1 <==> !TurnsAway(b, cfg, now)
    ensures TryBegin(b, cfg, now).1 == Some(Normal) <==> b.state == Closed
    ensures IsRoutable(b, cfg, now).0 == Refresh(b, cfg, now)
  {
  }

  /** Once opened at `t`, no verdict and no question moves or extends the open period; the next
      claim is granted exactly when its reading is due, and then it is the probe. */
  lemma {:induction false} OpenPeriodIsRespected(b: Breaker, cfg: Config, t: nat, cs: seq<Call>, now: nat)
    requires Sound(b) && b.state == Open && b.openedAt == Some(t)
    requires forall i :: 0 <= i < |cs| ==> NotDue(cfg, t, cs[i])
    ensures var b' := Run(b, cfg, cs);
            && b'.state == Open && b'.openedAt == Some(t) && !b'.probe
            && TryBegin(b', cfg, now).1 == (if Due(cfg, t, now) then Some(Probe) else None)
            && (IsRoutable(b', cfg, now).1 <==> Due(cfg, t, now))
  {
    if cs == [] {
    } else {
      OpenPeriodIsRespected(b, cfg, t, cs[..|cs| - 1], now);
      assert NotDue(cfg, t, cs[|cs| - 1]);
    }
  }
}

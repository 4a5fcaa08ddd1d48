/**
 Each backend's breaker, followed through a run of the whole system, has itself made a run of
 breaker calls; so what is proved of every breaker run holds in every interleaving of requests.
 */
module SystemRuns {
  import opened Options
  import opened Breaker
  import opened Lifecycle

  function VerdictCall(adm: Admission, o: Outcome, now: nat): Call {
    if o.ClientDisconnect? then GiveUp(adm)
    else if IsBackendFailure(o) then Failed(adm, now)
    else Succeed(adm, now)
  }

  /** The breaker call, if any, that event `e` makes on backend `b`. */
  function CallsOn(s: System, e: Event, b: nat): seq<Call> {
    match e
    case Look(c, now) => if c == b then [AskState(now)] else []
    case Claim(r, c, now) => if r in s.requests && s.requests[r].HasPermit? && c == b then [Begin(now)] else []
    case Headers(r, status, now) =>
      if Placed(s, r) && s.requests[r].Forwarding? && s.requests[r].backend == b
         && s.requests[r].adm == Probe && IsSuccess(status)
      then [Succeed(Probe, now)] else []
    case Verdict(r, now) =>
      if Placed(s, r) && s.requests[r].Ending? && s.requests[r].backend == b
      then [VerdictCall(s.requests[r].adm, s.requests[r].outcome, now)] else []
    case _ => []
  }

  function Trace(count: nat, start: nat, lim: Limits, es: seq<Event>, b: nat): seq<Call> {
    if es == [] then []
    else
      var init := es[..|es| - 1];
      Trace(count, start, lim, init, b) + CallsOn(Exec(Start(count, start), lim, init), es[|es| - 1], b)
  }

  lemma EventIsCalls(s: System, lim: Limits, e: Event, b: nat)
    requires b < |s.backends|
    ensures var k, cs := s.backends[b].breaker, CallsOn(s, e, b);
            Next(s, lim, e).backends[b].breaker == (if cs == [] then k else Step(k, lim.cfg, cs[0]))
    ensures |CallsOn(s, e, b)| <= 1
  {
  }

  lemma RunMore(b: Breaker, cfg: Config, cs: seq<Call>, more: seq<Call>)
    requires |more| <= 1
    ensures Run(b, cfg, cs + more) == if more == [] then Run(b, cfg, cs) else Step(Run(b, cfg, cs), cfg, more[0])
  {
    if more == [] {
      assert cs + more == cs;
    } else {
      assert (cs + more)[..|cs|] == cs;
    }
  }

  /** Backend `b`'s breaker after a run of the system. */
  function BreakerAfter(count: nat, start: nat, lim: Limits, es: seq<Event>, b: nat): Breaker
    requires b < count
  {
    Exec(Start(count, start), lim, es).backends[b].breaker
  }

  lemma {:induction false} SystemRunIsBreakerRun(count: nat, start: nat, lim: Limits, es: seq<Event>, b: nat)
    requires b < count
    ensures BreakerAfter(count, start, lim, es, b) == Run(Initial(start), lim.cfg, Trace(count, start, lim, es, b))
  {
    if es == [] {
    } else {
      var init := es[..|es| - 1];
      var s := Exec(Start(count, start), lim, init);
      SystemRunIsBreakerRun(count, start, lim, init, b);
      EventIsCalls(s, lim, es[|es| - 1], b);
      RunMore(Initial(start), lim.cfg, Trace(count, start, lim, init, b), CallsOn(s, es[|es| - 1], b));
    }
  }

  /** Only a failed outcome's verdict takes a backend out of Closed. */
  lemma LeavingEvent(s: System, lim: Limits, e: Event, b: nat)
    requires b < |s.backends| && s.backends[b].breaker.state == Closed
    requires Next(s, lim, e).backends[b].breaker.state != Closed
    ensures e.Verdict? && Placed(s, e.r) && s.requests[e.r].Ending? && s.requests[e.r].backend == b
    ensures IsBackendFailure(s.requests[e.r].outcome)
    ensures CallsOn(s, e, b) == [Failed(s.requests[e.r].adm, e.now)]
  {
  }

  /** In any interleaving, a backend leaves service only on the failed outcome of one of its requests,
      with threshold * min_requests failures in the window since it last closed. */
  lemma SystemTripIsJustified(count: nat, start: nat, lim: Limits, es: seq<Event>, b: nat)
    requires b < count && lim.cfg.threshold >= 0.0 && es != []
    requires BreakerAfter(count, start, lim, es[..|es| - 1], b).state == Closed
    requires BreakerAfter(count, start, lim, es, b).state != Closed
    ensures var s, e := Exec(Start(count, start), lim, es[..|es| - 1]), es[|es| - 1];
            && e.Verdict? && Placed(s, e.r) && s.requests[e.r].Ending?
            && s.requests[e.r].backend == b && IsBackendFailure(s.requests[e.r].outcome)
    ensures EnoughFailures(lim.cfg, History(start, lim.cfg, Trace(count, start, lim, es, b)))
  {
    var init, e := es[..|es| - 1], es[|es| - 1];
    var s := Exec(Start(count, start), lim, init);
    var cs := Trace(count, start, lim, init, b);
    LeavingEvent(s, lim, e, b);
    var c := CallsOn(s, e, b)[0];
    assert Trace(count, start, lim, es, b) == cs + [c];
    SystemRunIsBreakerRun(count, start, lim, init, b);
    SystemRunIsBreakerRun(count, start, lim, es, b);
    TripIsJustified(start, lim.cfg, cs, c);
  }

  /** The event delivers the failed outcome of one of backend `b`'s requests. */
  predicate DeliversFailure(s: System, e: Event, b: nat) {
    && e.Verdict? && Placed(s, e.r) && s.requests[e.r].Ending? && s.requests[e.r].backend == b
    && IsBackendFailure(s.requests[e.r].outcome)
  }

  lemma FailedCallIff(s: System, e: Event, b: nat)
    ensures (CallsOn(s, e, b) != [] && CallsOn(s, e, b)[0].Failed?) <==> DeliversFailure(s, e, b)
    ensures |CallsOn(s, e, b)| <= 1
  {
  }

  lemma OpensOnCalls(start: nat, cfg: Config, cs: seq<Call>, more: seq<Call>)
    requires |more| <= 1 && Run(Initial(start), cfg, cs).state == Closed
    ensures Run(Initial(start), cfg, cs + more).state == Open <==>
            more != [] && more[0].Failed? && IsBad(cfg, History(start, cfg, cs + more))
  {
    if more == [] {
      assert cs + more == cs;
    } else {
      assert more == [more[0]];
      RunOpensIff(start, cfg, cs, more[0]);
    }
  }

  /** And conversely: a closed backend opens with an event if and only if that delivers the failed outcome
      of one of its requests and its verdicts since it last closed make a bad window. */
  lemma SystemOpensIff(count: nat, start: nat, lim: Limits, es: seq<Event>, b: nat)
    requires b < count && es != []
    requires BreakerAfter(count, start, lim, es[..|es| - 1], b).state == Closed
    ensures BreakerAfter(count, start, lim, es, b).state == Open <==>
            && DeliversFailure(Exec(Start(count, start), lim, es[..|es| - 1]), es[|es| - 1], b)
            && IsBad(lim.cfg, History(start, lim.cfg, Trace(count, start, lim, es, b)))
  {
    var init := es[..|es| - 1];
    var s := Exec(Start(count, start), lim, init);
    SystemRunIsBreakerRun(count, start, lim, init, b);
    SystemRunIsBreakerRun(count, start, lim, es, b);
    FailedCallIff(s, es[|es| - 1], b);
    OpensOnCalls(start, lim.cfg, Trace(count, start, lim, init, b), CallsOn(s, es[|es| - 1], b));
  }

  /** The calls of a run extend those of any earlier part of it. */
  lemma {:induction false} TraceGrows(count: nat, start: nat, lim: Limits, es: seq<Event>, n: nat, b: nat)
    requires n <= |es|
    ensures Trace(count, start, lim, es[..n], b) <= Trace(count, start, lim, es, b)
  {
    if n == |es| {
      assert es[..n] == es;
    } else {
      var init := es[..|es| - 1];
      assert init[..n] == es[..n];
      TraceGrows(count, start, lim, init, n, b);
    }
  }

  /** The breaker calls made on backend `b` after the first `n` events. */
  function CallsSince(count: nat, start: nat, lim: Limits, es: seq<Event>, n: nat, b: nat): (calls: seq<Call>)
    requires n <= |es|
    ensures Trace(count, start, lim, es, b) == Trace(count, start, lim, es[..n], b) + calls
  {
    TraceGrows(count, start, lim, es, n, b);
    Trace(count, start, lim, es, b)[|Trace(count, start, lim, es[..n], b)|..]
  }

  /** In any interleaving, while every clock reading presented to a backend since it opened is before
      the end of its open period, whatever the requests in flight come to, a claim on it is granted
      only if its own reading is due. */
  lemma SystemRespectsOpenPeriod(count: nat, start: nat, lim: Limits, es: seq<Event>, n: nat,
                                 b: nat, t: nat, now: nat)
    requires b < count && n <= |es|
    requires BreakerAfter(count, start, lim, es[..n], b).state == Open
    requires BreakerAfter(count, start, lim, es[..n], b).openedAt == Some(t)
    requires forall c :: c in CallsSince(count, start, lim, es, n, b) ==> NotDue(lim.cfg, t, c)
    ensures TryBegin(BreakerAfter(count, start, lim, es, b), lim.cfg, now).1
         == if Due(lim.cfg, t, now) then Some(Probe) else None
  {
    var first, calls := Trace(count, start, lim, es[..n], b), CallsSince(count, start, lim, es, n, b);
    SystemRunIsBreakerRun(count, start, lim, es[..n], b);
    SystemRunIsBreakerRun(count, start, lim, es, b);
    RunKeepsSound(Initial(start), lim.cfg, first);
    RunAppend(Initial(start), lim.cfg, first, calls);
    OpenPeriodIsRespected(Run(Initial(start), lim.cfg, first), lim.cfg, t, calls, now);
  }

  lemma {:induction false} RunAppend(b: Breaker, cfg: Config, cs: seq<Call>, more: seq<Call>)
    ensures Run(b, cfg, cs + more) == Run(Run(b, cfg, cs), cfg, more)
  {
    if more == [] {
      assert cs + more == cs;
    } else {
      RunAppend(b, cfg, cs, more[..|more| - 1]);
      assert (cs + more)[..|cs + more| - 1] == cs + more[..|more| - 1];
    }
  }
}

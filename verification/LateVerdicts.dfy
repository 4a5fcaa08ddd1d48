/**
 Verdicts of requests that started before a trip ("late" verdicts: `Normal` tokens arriving while
 the circuit is Open or HalfOpen).

 The breaker promises that they never close the circuit, release the probe or extend the open
 period.  As two-run statements: two runs that differ only in late verdicts answer every question
 alike from then on, as long as clock readings do not run backwards.  Without that condition the
 promise fails in exactly one way: a late verdict also looks at the clock, and one whose reading is
 past the open period lets a later call with a stale reading be admitted.  The lemmas say exactly
 when two given runs answer alike, and when no continuation can tell them apart.
 */
module LateVerdicts {
  import opened Options
  import opened SlidingWindow
  import opened Breaker

  predicate IsNormalVerdict(c: Call) {
    (c.Succeed? || c.Failed?) && c.adm == Normal
  }

  predicate ReadsFrom(c: Call, t: nat) {
    c.GiveUp? || c.now >= t
  }

  /** Indistinguishable to any call whose reading is at least `t`. */
  predicate Alike(a: Breaker, b: Breaker, cfg: Config, t: nat) {
    && Sound(a) && Sound(b)
    && a.openedAt == b.openedAt && a.probe == b.probe
    && (if a.state == Closed then a == b else Refresh(a, cfg, t).state == Refresh(b, cfg, t).state)
  }

  lemma AlikeLater(a: Breaker, b: Breaker, cfg: Config, t: nat, t': nat)
    requires Alike(a, b, cfg, t) && t <= t'
    ensures Alike(a, b, cfg, t')
  {
  }

  /** One call shared by both runs: the same reply, and still alike; a call that reads the clock
      brings the two to the same state. */
  lemma SharedStep(a: Breaker, b: Breaker, cfg: Config, t: nat, c: Call)
    requires Alike(a, b, cfg, t) && ReadsFrom(c, t)
    ensures Reply(a, cfg, c) == Reply(b, cfg, c)
    ensures Alike(Step(a, cfg, c), Step(b, cfg, c), cfg, if c.GiveUp? then t else 0)
  {
    if !c.GiveUp? {
      AlikeLater(a, b, cfg, t, c.now);
    }
  }

  /** A late verdict made in one run only is invisible to readings no older than its own. */
  lemma LateStep(a: Breaker, b: Breaker, cfg: Config, t: nat, v: Call)
    requires Alike(a, b, cfg, t) && IsNormalVerdict(v) && v.now >= t && a.state != Closed
    ensures Alike(Step(a, cfg, v), b, cfg, v.now) && Alike(b, Step(a, cfg, v), cfg, v.now)
  {
  }

  // ------------------------------------------------------- two whole runs

  /** Two runs side by side: a call both make, or a verdict only one of them makes. */
  datatype Event = Both(call: Call) | Left(call: Call) | Right(call: Call)

  function StepLeft(a: Breaker, cfg: Config, e: Event): Breaker {
    if e.Right? then a else Step(a, cfg, e.call)
  }

  function StepRight(b: Breaker, cfg: Config, e: Event): Breaker {
    if e.Left? then b else Step(b, cfg, e.call)
  }

  /** The runs differ only in late verdicts. */
  predicate DifferOnlyLate(a: Breaker, b: Breaker, cfg: Config, es: seq<Event>)
    decreases es
  {
    es != [] ==>
    && (es[0].Left? ==> IsNormalVerdict(es[0].call) && a.state != Closed)
    && (es[0].Right? ==> IsNormalVerdict(es[0].call) && b.state != Closed)
    && DifferOnlyLate(StepLeft(a, cfg, es[0]), StepRight(b, cfg, es[0]), cfg, es[1..])
  }

  predicate ClockRuns(es: seq<Event>, t: nat) {
    es != [] ==> (ReadsFrom(es[0].call, t) && ClockRuns(es[1..], if es[0].call.GiveUp? then t else es[0].call.now))
  }

  predicate SameReplies(a: Breaker, b: Breaker, cfg: Config, es: seq<Event>)
    decreases es
  {
    es != [] ==>
    && (es[0].Both? ==> Reply(a, cfg, es[0].call) == Reply(b, cfg, es[0].call))
    && SameReplies(StepLeft(a, cfg, es[0]), StepRight(b, cfg, es[0]), cfg, es[1..])
  }

  /** Same but for the samples and for having noticed the end of the open period. */
  predicate Twins(a: Breaker, b: Breaker) {
    && Sound(a) && Sound(b)
    && a.openedAt == b.openedAt && a.probe == b.probe
    && (a.state == Closed ==> a == b)
  }

  /** Only one of the two has noticed the end of the open period, and a call both make, other than a
      late verdict, carries a reading from before that end. */
  predicate ReadsEarly(a: Breaker, b: Breaker, cfg: Config, e: Event) {
    && e.Both? && !e.call.GiveUp? && !IsNormalVerdict(e.call)
    && a.state != b.state && a.openedAt.Some? && !Due(cfg, a.openedAt.value, e.call.now)
  }

  predicate NoneReadsEarly(a: Breaker, b: Breaker, cfg: Config, es: seq<Event>)
    decreases es
  {
    es != [] ==>
    && !ReadsEarly(a, b, cfg, es[0])
    && NoneReadsEarly(StepLeft(a, cfg, es[0]), StepRight(b, cfg, es[0]), cfg, es[1..])
  }

  /** A probe's verdict while no probe is out; no request ever makes one. */
  predicate IsStray(a: Breaker, e: Event) {
    e.Both? && (e.call.Succeed? || e.call.Failed?) && e.call.adm == Probe && !a.probe
  }

  predicate NoneIsStray(a: Breaker, b: Breaker, cfg: Config, es: seq<Event>)
    decreases es
  {
    es != [] ==>
    && !IsStray(a, es[0])
    && NoneIsStray(StepLeft(a, cfg, es[0]), StepRight(b, cfg, es[0]), cfg, es[1..])
  }

  /** A shared call that does not read early. */
  lemma TwinsTogether(a: Breaker, b: Breaker, cfg: Config, c: Call)
    requires Twins(a, b) && !ReadsEarly(a, b, cfg, Both(c))
    ensures Twins(Step(a, cfg, c), Step(b, cfg, c)) && Reply(a, cfg, c) == Reply(b, cfg, c)
  {
    if a.state == Closed {
    } else {
      assert !c.GiveUp? && !IsNormalVerdict(c) ==> Refresh(a, cfg, c.now).state == Refresh(b, cfg, c.now).state;
    }
  }

  /** A late verdict in one of them. */
  lemma TwinApart(a: Breaker, b: Breaker, cfg: Config, v: Call)
    requires Twins(a, b) && IsNormalVerdict(v) && a.state != Closed
    ensures Twins(Step(a, cfg, v), b) && Twins(b, Step(a, cfg, v))
  {
  }

  lemma EarlyQuestion(a: Breaker, b: Breaker, cfg: Config, e: Event)
    requires Twins(a, b) && ReadsEarly(a, b, cfg, e) && !IsStray(a, e)
    ensures Reply(a, cfg, e.call) != Reply(b, cfg, e.call)
  {
  }

  /** One event of two twin runs: the same reply and twins again, unless a call reads early; an early
      question is answered differently. */
  lemma TwinStep(a: Breaker, b: Breaker, cfg: Config, e: Event)
    requires Twins(a, b) && DifferOnlyLate(a, b, cfg, [e])
    ensures !ReadsEarly(a, b, cfg, e) ==> Twins(StepLeft(a, cfg, e), StepRight(b, cfg, e))
    ensures e.Both? && !ReadsEarly(a, b, cfg, e) ==> Reply(a, cfg, e.call) == Reply(b, cfg, e.call)
    ensures ReadsEarly(a, b, cfg, e) && !IsStray(a, e) ==> Reply(a, cfg, e.call) != Reply(b, cfg, e.call)
  {
    if ReadsEarly(a, b, cfg, e) {
      if !IsStray(a, e) {
        EarlyQuestion(a, b, cfg, e);
      }
    } else {
      match e {
        case Both(c) => TwinsTogether(a, b, cfg, c);
        case Left(v) => TwinApart(a, b, cfg, v);
        case Right(v) => TwinApart(b, a, cfg, v);
      }
    }
  }

  /** Late verdicts inserted into either run, anywhere and in any number, with readings in any order:
      every reply is the same in both runs if and only if no shared call reads early. */
  lemma {:induction false} LateVerdictsAreInvisible(a: Breaker, b: Breaker, cfg: Config, es: seq<Event>)
    requires Twins(a, b) && DifferOnlyLate(a, b, cfg, es)
    ensures NoneReadsEarly(a, b, cfg, es) ==> SameReplies(a, b, cfg, es)
    ensures NoneIsStray(a, b, cfg, es) ==> (SameReplies(a, b, cfg, es) <==> NoneReadsEarly(a, b, cfg, es))
    decreases es
  {
    if es == [] {
    } else {
      TwinStep(a, b, cfg, es[0]);
      if !ReadsEarly(a, b, cfg, es[0]) {
        LateVerdictsAreInvisible(StepLeft(a, cfg, es[0]), StepRight(b, cfg, es[0]), cfg, es[1..]);
      }
    }
  }

  /** With readings that do not run backwards no call reads early. */
  lemma {:induction false} SteadyClockNeverReadsEarly(a: Breaker, b: Breaker, cfg: Config, es: seq<Event>, t: nat)
    requires Alike(a, b, cfg, t) && DifferOnlyLate(a, b, cfg, es) && ClockRuns(es, t)
    ensures NoneReadsEarly(a, b, cfg, es)
    decreases es
  {
    if es == [] {
    } else {
      var e := es[0];
      var a', b' := StepLeft(a, cfg, e), StepRight(b, cfg, e);
      match e {
        case Both(c) =>
          SharedStep(a, b, cfg, t, c);
          if !c.GiveUp? {
            AlikeLater(a', b', cfg, 0, c.now);
          }
        case Left(v) => LateStep(a, b, cfg, t, v);
        case Right(v) =>
          AlikeSymmetric(a, b, cfg, t);
          LateStep(b, a, cfg, t, v);
      }
      SteadyClockNeverReadsEarly(a', b', cfg, es[1..], if e.call.GiveUp? then t else e.call.now);
    }
  }

  /** So then late verdicts never change a reply. */
  lemma SteadyClockHidesLateVerdicts(a: Breaker, b: Breaker, cfg: Config, es: seq<Event>, t: nat)
    requires Alike(a, b, cfg, t) && DifferOnlyLate(a, b, cfg, es) && ClockRuns(es, t)
    ensures SameReplies(a, b, cfg, es)
  {
    SteadyClockNeverReadsEarly(a, b, cfg, es, t);
    LateVerdictsAreInvisible(a, b, cfg, es);
  }

  lemma AlikeSymmetric(a: Breaker, b: Breaker, cfg: Config, t: nat)
    requires Alike(a, b, cfg, t)
    ensures Alike(b, a, cfg, t)
  {
  }

  // ------------------------------------------- with clock readings in any order

  function Replies(b: Breaker, cfg: Config, cs: seq<Call>): seq<Answer>
    decreases cs
  {
    if cs == [] then [] else [Reply(b, cfg, cs[0])] + Replies(Step(b, cfg, cs[0]), cfg, cs[1..])
  }

  /** Alike at instant 0 is alike for ever, whatever the clock does. */
  lemma {:induction false} AlikeForEver(a: Breaker, b: Breaker, cfg: Config, cs: seq<Call>)
    requires Alike(a, b, cfg, 0)
    ensures Replies(a, cfg, cs) == Replies(b, cfg, cs)
    decreases cs
  {
    if cs == [] {
    } else {
      SharedStep(a, b, cfg, 0, cs[0]);
      AlikeForEver(Step(a, cfg, cs[0]), Step(b, cfg, cs[0]), cfg, cs[1..]);
    }
  }

  /** The one thing a late verdict does that can be seen: its reading ends a running open period. */
  predicate EndsOpenPeriod(b: Breaker, cfg: Config, v: Call)
    requires !v.GiveUp?
  {
    b.state == Open && b.openedAt.Some? && cfg.openTicks > 0 && v.now >= b.openedAt.value + cfg.openTicks
  }

  /** The event is a verdict made in one run only, and its reading ends an open period there. */
  predicate EndsOneSidedly(a: Breaker, b: Breaker, cfg: Config, e: Event) {
    || (e.Left? && !e.call.GiveUp? && EndsOpenPeriod(a, cfg, e.call))
    || (e.Right? && !e.call.GiveUp? && EndsOpenPeriod(b, cfg, e.call))
  }

  predicate NoneEndsOneSidedly(a: Breaker, b: Breaker, cfg: Config, es: seq<Event>)
    decreases es
  {
    es != [] ==>
    && !EndsOneSidedly(a, b, cfg, es[0])
    && NoneEndsOneSidedly(StepLeft(a, cfg, es[0]), StepRight(b, cfg, es[0]), cfg, es[1..])
  }

  ghost predicate Indistinguishable(a: Breaker, b: Breaker, cfg: Config) {
    forall cs: seq<Call> :: Replies(a, cfg, cs) == Replies(b, cfg, cs)
  }

  /** At every moment of the two runs no continuation, with readings in any order, tells them apart. */
  ghost predicate NeverToldApart(a: Breaker, b: Breaker, cfg: Config, es: seq<Event>)
    decreases es
  {
    && Indistinguishable(a, b, cfg)
    && (es != [] ==> NeverToldApart(StepLeft(a, cfg, es[0]), StepRight(b, cfg, es[0]), cfg, es[1..]))
  }

  lemma AlikeIsIndistinguishable(a: Breaker, b: Breaker, cfg: Config)
    requires Alike(a, b, cfg, 0)
    ensures Indistinguishable(a, b, cfg)
  {
    forall cs: seq<Call> ensures Replies(a, cfg, cs) == Replies(b, cfg, cs) {
      AlikeForEver(a, b, cfg, cs);
    }
  }

  /** Two breakers alike at instant 0, and one of them takes a late verdict: they stay alike unless
      the verdict's reading ends the open period, and then a stale claim tells them apart. */
  lemma OneSidedStep(a: Breaker, b: Breaker, cfg: Config, v: Call)
    requires Alike(a, b, cfg, 0) && IsNormalVerdict(v) && a.state != Closed
    ensures !EndsOpenPeriod(a, cfg, v) ==> Alike(Step(a, cfg, v), b, cfg, 0) && Alike(b, Step(a, cfg, v), cfg, 0)
    ensures EndsOpenPeriod(a, cfg, v) ==>
            Replies(Step(a, cfg, v), cfg, [Begin(a.openedAt.value)]) != Replies(b, cfg, [Begin(a.openedAt.value)])
  {
    if EndsOpenPeriod(a, cfg, v) {
      AlikeForEver(a, b, cfg, [Begin(a.openedAt.value)]);
      StaleClaimSeesIt(a, cfg, v);
    }
  }

  /** One event of two runs alike at instant 0: alike again, or told apart by a stale claim. */
  lemma EventStep(a: Breaker, b: Breaker, cfg: Config, e: Event)
    requires Alike(a, b, cfg, 0) && DifferOnlyLate(a, b, cfg, [e])
    ensures !EndsOneSidedly(a, b, cfg, e) ==> Alike(StepLeft(a, cfg, e), StepRight(b, cfg, e), cfg, 0)
    ensures EndsOneSidedly(a, b, cfg, e) ==> !Indistinguishable(StepLeft(a, cfg, e), StepRight(b, cfg, e), cfg)
  {
    match e {
      case Both(c) => SharedStep(a, b, cfg, 0, c);
      case Left(v) => OneSidedStep(a, b, cfg, v);
      case Right(v) =>
        AlikeSymmetric(a, b, cfg, 0);
        OneSidedStep(b, a, cfg, v);
    }
  }

  /** Whole runs, readings in any order: two runs that differ only in late verdicts can never be told
      apart, by any continuation at any moment, if and only if no verdict made in one of them alone
      ends a running open period there. */
  lemma {:induction false} NeverToldApartIff(a: Breaker, b: Breaker, cfg: Config, es: seq<Event>)
    requires Alike(a, b, cfg, 0) && DifferOnlyLate(a, b, cfg, es)
    ensures NeverToldApart(a, b, cfg, es) <==> NoneEndsOneSidedly(a, b, cfg, es)
    ensures NoneEndsOneSidedly(a, b, cfg, es) ==> SameReplies(a, b, cfg, es)
    decreases es
  {
    AlikeIsIndistinguishable(a, b, cfg);
    if es == [] {
    } else {
      var e := es[0];
      EventStep(a, b, cfg, e);
      if e.Both? {
        SharedStep(a, b, cfg, 0, e.call);
      }
      if !EndsOneSidedly(a, b, cfg, e) {
        NeverToldApartIff(StepLeft(a, cfg, e), StepRight(b, cfg, e), cfg, es[1..]);
      }
    }
  }

  /** Leaving a late verdict out changes no reply of any continuation, with readings in any order,
      if and only if the verdict's own reading does not end a running open period. */
  lemma DroppingIsInvisibleIff(b: Breaker, cfg: Config, v: Call)
    requires Sound(b) && b.state != Closed && IsNormalVerdict(v)
    ensures Indistinguishable(Step(b, cfg, v), b, cfg) <==> !EndsOpenPeriod(b, cfg, v)
  {
    if EndsOpenPeriod(b, cfg, v) {
      StaleClaimSeesIt(b, cfg, v);
    } else {
      AlikeIsIndistinguishable(Step(b, cfg, v), b, cfg);
    }
  }

  /** The distinguishing continuation: one claim whose reading is as old as the trip itself. */
  lemma StaleClaimSeesIt(b: Breaker, cfg: Config, v: Call)
    requires Sound(b) && IsNormalVerdict(v) && EndsOpenPeriod(b, cfg, v)
    ensures Replies(Step(b, cfg, v), cfg, [Begin(b.openedAt.value)]) == [Granted(Some(Probe))]
    ensures Replies(b, cfg, [Begin(b.openedAt.value)]) == [Granted(None)]
  {
  }

  /** A run that shows it: a circuit opened at instant 0 for ten seconds; a late failure read at ten
      seconds; then a claim read at five. */
  lemma StaleClaimExample()
    ensures var cfg: Config := Config(0.5, 1, 1, 10 * TICKS_PER_SEC);
            var b, late, claim := Run(Initial(0), cfg, [Failed(Normal, 0)]), 10 * TICKS_PER_SEC, 5 * TICKS_PER_SEC;
            && b.state == Open
            && Reply(Step(b, cfg, Failed(Normal, late)), cfg, Begin(claim)) == Granted(Some(Probe))
            && Reply(b, cfg, Begin(claim)) == Granted(None)
  {
    var cfg: Config := Config(0.5, 1, 1, 10 * TICKS_PER_SEC);
    FreshBackendTripsAtMinRequests(0, cfg, [0]);
    assert AllFailing([0]) == [Failed(Normal, 0)];
    assert Run(Initial(0), cfg, [Failed(Normal, 0)][..0]) == Initial(0);
    LeavesClosed(Initial(0), cfg, Failed(Normal, 0));
  }

  /** What a late verdict says never matters: swapping success for failure, or for a bare look at
      the clock, is invisible with readings in any order. */
  lemma LateVerdictIsOnlyALook(b: Breaker, cfg: Config, v: Call, cs: seq<Call>)
    requires Sound(b) && b.state != Closed && IsNormalVerdict(v)
    ensures Replies(Step(b, cfg, v), cfg, cs) == Replies(Step(b, cfg, AskState(v.now)), cfg, cs)
  {
    AlikeForEver(Step(b, cfg, v), Step(b, cfg, AskState(v.now)), cfg, cs);
  }
}

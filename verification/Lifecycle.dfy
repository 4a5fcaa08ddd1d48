/**
 Many requests sharing the in-flight budget and the backends, at the granularity of single atomic
 updates: each `Event` is one mutex critical section or one atomic read-modify-write, and a run is
 any interleaving of them.  A request's phase records what it owns between two such updates: the
 permit, the admission token, its place in `active_connections`.

 Nothing can be cancelled between a successful claim and the start of accounting (there is no await
 point there), so `Selected` leads only to `Forwarding`; from there the client may vanish at any
 time.  An event that is not enabled leaves the state alone.
 */
module Lifecycle {
  import opened Options
  import opened SlidingWindow
  import opened Breaker

  datatype Outcome = Completed(status: nat) | TransportError | StreamError | ClientDisconnect

  predicate IsSuccess(status: nat) { 200 <= status < 300 }

  predicate IsServerError(status: nat) { 500 <= status < 600 }

  predicate IsBackendFailure(o: Outcome) {
    match o
    case Completed(status) => IsServerError(status)
    case TransportError => true
    case StreamError => true
    case ClientDisconnect => false
  }

  datatype Phase =
    | HasPermit
    | Selected(backend: nat, adm: Admission)
    | Forwarding(backend: nat, adm: Admission)
    | Responding(backend: nat, adm: Admission, status: nat)
    | Ending(backend: nat, adm: Admission, outcome: Outcome)
    | Judged(backend: nat, outcome: Outcome)

  datatype Backend = Backend(breaker: Breaker, active: int)

  datatype System = System(inFlight: int, backends: seq<Backend>, requests: map<nat, Phase>)

  datatype Limits = Limits(cfg: Config, maxInFlight: nat)

  function Start(count: nat, now: nat): System {
    System(0, seq(count, _ => Backend(Initial(now), 0)), map[])
  }

  datatype Event =
    | Acquire(r: nat)
    | Look(b: nat, now: nat)
    | Claim(r: nat, b: nat, now: nat)
    | Begun(r: nat)
    | Headers(r: nat, status: nat, now: nat)
    | End(r: nat, outcome: Outcome)
    | Verdict(r: nat, now: nat)
    | Release(r: nat)

  /** Which outcomes a request in this phase can still come to. */
  predicate MayEnd(p: Phase, o: Outcome) {
    match p
    case Forwarding(_, _) => !o.Completed?
    case Responding(_, _, status) => o == Completed(status) || o.StreamError? || o.ClientDisconnect?
    case _ => false
  }

  /** The breaker call made when the accounting guard is dropped with this outcome. */
  function Judge(b: Breaker, cfg: Config, adm: Admission, o: Outcome, now: nat): Breaker {
    match o
    case Completed(status) =>
      if IsBackendFailure(o) then RecordFailure(b, cfg, adm, now) else RecordSuccess(b, cfg, adm, now)
    case TransportError => RecordFailure(b, cfg, adm, now)
    case StreamError => RecordFailure(b, cfg, adm, now)
    case ClientDisconnect => Abandon(b, adm)
  }

  predicate OnBackend(p: Phase) {
    !p.HasPermit?
  }

  predicate Placed(s: System, r: nat) {
    r in s.requests && OnBackend(s.requests[r]) && s.requests[r].backend < |s.backends|
  }

  function SetBreaker(s: System, b: nat, k: Breaker): (s': System)
    requires b < |s.backends|
    ensures |s'.backends| == |s.backends|
  {
    s.(backends := s.backends[b := s.backends[b].(breaker := k)])
  }

  function AddActive(s: System, b: nat, d: int): (s': System)
    requires b < |s.backends|
    ensures |s'.backends| == |s.backends|
  {
    s.(backends := s.backends[b := s.backends[b].(active := s.backends[b].active + d)])
  }

  function SetPhase(s: System, r: nat, p: Phase): System {
    s.(requests := s.requests[r := p])
  }

  function Next(s: System, lim: Limits, e: Event): (s': System)
    ensures |s'.backends| == |s.backends|
  {
    match e
    case Acquire(r) =>
      if r !in s.requests && s.inFlight < lim.maxInFlight
      then SetPhase(s, r, HasPermit).(inFlight := s.inFlight + 1) else s
    case Look(b, now) =>
      if b < |s.backends| then SetBreaker(s, b, Refresh(s.backends[b].breaker, lim.cfg, now)) else s
    case Claim(r, b, now) =>
      if r in s.requests && s.requests[r].HasPermit? && b < |s.backends| then
        var (k, adm) := TryBegin(s.backends[b].breaker, lim.cfg, now);
        var s1 := SetBreaker(s, b, k);
        if adm.Some? then SetPhase(s1, r, Selected(b, adm.value)) else s1
      else s
    case Begun(r) =>
      if Placed(s, r) && s.requests[r].Selected? then
        var p := s.requests[r];
        SetPhase(AddActive(s, p.backend, 1), r, Forwarding(p.backend, p.adm))
      else s
    case Headers(r, status, now) =>
      if Placed(s, r) && s.requests[r].Forwarding? then
        var p := s.requests[r];
        if p.adm == Probe && IsSuccess(status) then
          var k := RecordSuccess(s.backends[p.backend].breaker, lim.cfg, Probe, now);
          SetPhase(SetBreaker(s, p.backend, k), r, Responding(p.backend, Normal, status))
        else SetPhase(s, r, Responding(p.backend, p.adm, status))
      else s
    case End(r, o) =>
      if Placed(s, r) && MayEnd(s.requests[r], o) then
        var p := s.requests[r];
        SetPhase(AddActive(s, p.backend, -1), r, Ending(p.backend, p.adm, o))
      else s
    case Verdict(r, now) =>
      if Placed(s, r) && s.requests[r].Ending? then
        var p := s.requests[r];
        var k := Judge(s.backends[p.backend].breaker, lim.cfg, p.adm, p.outcome, now);
        SetPhase(SetBreaker(s, p.backend, k), r, Judged(p.backend, p.outcome))
      else s
    case Release(r) =>
      if r in s.requests && (s.requests[r].HasPermit? || s.requests[r].Judged?)
      then s.(requests := s.requests - {r}, inFlight := s.inFlight - 1) else s
  }

  function Exec(s: System, lim: Limits, es: seq<Event>): (s': System)
    ensures |s'.backends| == |s.backends|
  {
    if es == [] then s else Next(Exec(s, lim, es[..|es| - 1]), lim, es[|es| - 1])
  }

  // ------------------------------------------------------------- who owns what

  predicate HoldsProbe(p: Phase, b: nat) {
    (p.Selected? || p.Forwarding? || p.Responding? || p.Ending?) && p.backend == b && p.adm == Probe
  }

  predicate IsServing(p: Phase, b: nat) {
    (p.Forwarding? || p.Responding?) && p.backend == b
  }

  function Holders(reqs: map<nat, Phase>, b: nat): set<nat> {
    set r | r in reqs && HoldsProbe(reqs[r], b)
  }

  function Serving(reqs: map<nat, Phase>, b: nat): set<nat> {
    set r | r in reqs && IsServing(reqs[r], b)
  }

  /** One backend's books: the breaker is sound, exactly one live request holds the probe when the
      breaker says so and none otherwise, and `active` counts the live accountings. */
  predicate Balanced(k: Backend, reqs: map<nat, Phase>, b: nat) {
    && Sound(k.breaker)
    && |Holders(reqs, b)| == (if k.breaker.probe then 1 else 0)
    && k.active == |Serving(reqs, b)|
  }

  ghost predicate Inv(s: System, lim: Limits) {
    && s.inFlight == |s.requests| <= lim.maxInFlight
    && (forall r :: r in s.requests && OnBackend(s.requests[r]) ==> s.requests[r].backend < |s.backends|)
    && (forall b :: 0 <= b < |s.backends| ==> Balanced(s.backends[b], s.requests, b))
  }

  /** Giving request `r` the phase `p` moves it in or out of each set and touches no other request. */
  lemma SetsAfter(reqs: map<nat, Phase>, r: nat, p: Phase, b: nat)
    ensures Holders(reqs[r := p], b) == if HoldsProbe(p, b) then Holders(reqs, b) + {r} else Holders(reqs, b) - {r}
    ensures Serving(reqs[r := p], b) == if IsServing(p, b) then Serving(reqs, b) + {r} else Serving(reqs, b) - {r}
  {
  }

  lemma SetsWithout(reqs: map<nat, Phase>, r: nat, b: nat)
    requires r in reqs ==> !HoldsProbe(reqs[r], b) && !IsServing(reqs[r], b)
    ensures Holders(reqs - {r}, b) == Holders(reqs, b) && Serving(reqs - {r}, b) == Serving(reqs, b)
  {
  }

  /** A new request with only a permit enters neither set. */
  lemma SetsWithNew(reqs: map<nat, Phase>, r: nat, b: nat)
    requires r !in reqs
    ensures Holders(reqs[r := HasPermit], b) == Holders(reqs, b)
    ensures Serving(reqs[r := HasPermit], b) == Serving(reqs, b)
  {
  }

  /** A sole holder is the only one. */
  lemma SoleHolder(reqs: map<nat, Phase>, b: nat, r: nat)
    requires r in Holders(reqs, b) && |Holders(reqs, b)| <= 1
    ensures Holders(reqs, b) == {r}
  {
    assert |Holders(reqs, b) - {r}| == 0;
  }

  function One(p: bool): int { if p then 1 else 0 }

  /** When live request `r` moves to phase `p`, backend `c`'s books stay balanced if its connection
      count and its probe flag move with the request. */
  lemma BooksAfter(k: Backend, k': Backend, reqs: map<nat, Phase>, r: nat, p: Phase, c: nat)
    requires Balanced(k, reqs, c) && r in reqs && Sound(k'.breaker)
    requires k'.active == k.active + One(IsServing(p, c)) - One(IsServing(reqs[r], c))
    requires HoldsProbe(p, c) ==> k'.breaker.probe && (HoldsProbe(reqs[r], c) || !k.breaker.probe)
    requires !HoldsProbe(p, c) ==> k'.breaker.probe == (k.breaker.probe && !HoldsProbe(reqs[r], c))
    ensures Balanced(k', reqs[r := p], c)
  {
    SetsAfter(reqs, r, p, c);
    assert r in Serving(reqs, c) <==> IsServing(reqs[r], c);
    if HoldsProbe(reqs[r], c) {
      SoleHolder(reqs, c, r);
    } else {
      assert r !in Holders(reqs, c);
    }
  }

  // ------------------------------------------------- every event keeps the books

  lemma AcquireKeeps(s: System, lim: Limits, r: nat)
    requires Inv(s, lim) && r !in s.requests && s.inFlight < lim.maxInFlight
    ensures Inv(Next(s, lim, Acquire(r)), lim)
  {
    var s' := Next(s, lim, Acquire(r));
    assert s'.requests.Keys == s.requests.Keys + {r};
    forall b | 0 <= b < |s'.backends| ensures Balanced(s'.backends[b], s'.requests, b) {
      SetsWithNew(s.requests, r, b);
    }
  }

  lemma LookKeeps(s: System, lim: Limits, b: nat, now: nat)
    requires Inv(s, lim)
    ensures Inv(Next(s, lim, Look(b, now)), lim)
  {
  }

  /** An event that moves live request `r` to phase `p` and rewrites the backend it is on. */
  lemma MoveKeeps(s: System, lim: Limits, r: nat, p: Phase, k: Backend)
    requires Inv(s, lim) && r in s.requests && OnBackend(p) && p.backend < |s.backends|
    requires OnBackend(s.requests[r]) ==> s.requests[r].backend == p.backend
    requires var b, was := p.backend, s.backends[p.backend];
             && Sound(k.breaker)
             && k.active == was.active + One(IsServing(p, b)) - One(IsServing(s.requests[r], b))
             && (HoldsProbe(p, b) ==> k.breaker.probe && (HoldsProbe(s.requests[r], b) || !was.breaker.probe))
             && (!HoldsProbe(p, b) ==> k.breaker.probe == (was.breaker.probe && !HoldsProbe(s.requests[r], b)))
    ensures Inv(s.(backends := s.backends[p.backend := k], requests := s.requests[r := p]), lim)
  {
    var s' := s.(backends := s.backends[p.backend := k], requests := s.requests[r := p]);
    assert s'.requests.Keys == s.requests.Keys;
    forall c | 0 <= c < |s'.backends| ensures Balanced(s'.backends[c], s'.requests, c) {
      BooksAfter(s.backends[c], s'.backends[c], s.requests, r, p, c);
    }
  }

  lemma ClaimKeeps(s: System, lim: Limits, r: nat, b: nat, now: nat)
    requires Inv(s, lim) && r in s.requests && s.requests[r].HasPermit? && b < |s.backends|
    ensures Inv(Next(s, lim, Claim(r, b, now)), lim)
  {
    var (k, adm) := TryBegin(s.backends[b].breaker, lim.cfg, now);
    assert Balanced(s.backends[b], s.requests, b);
    if adm.Some? {
      MoveKeeps(s, lim, r, Selected(b, adm.value), s.backends[b].(breaker := k));
    } else {
      LookKeeps(s, lim, b, now);
    }
  }

  lemma BegunKeeps(s: System, lim: Limits, r: nat)
    requires Inv(s, lim) && Placed(s, r) && s.requests[r].Selected?
    ensures Inv(Next(s, lim, Begun(r)), lim)
  {
    var p := s.requests[r];
    HolderMeansProbe(s, lim, r);
    var k := s.backends[p.backend];
    MoveKeeps(s, lim, r, Forwarding(p.backend, p.adm), k.(active := k.active + 1));
  }

  /** A live token means the breaker knows its probe is out. */
  lemma HolderMeansProbe(s: System, lim: Limits, r: nat)
    requires Inv(s, lim) && Placed(s, r)
    ensures Balanced(s.backends[s.requests[r].backend], s.requests, s.requests[r].backend)
    ensures HoldsProbe(s.requests[r], s.requests[r].backend) ==> s.backends[s.requests[r].backend].breaker.probe
  {
    var b := s.requests[r].backend;
    assert Balanced(s.backends[b], s.requests, b);
    if HoldsProbe(s.requests[r], b) {
      assert r in Holders(s.requests, b);
    }
  }

  lemma HeadersKeeps(s: System, lim: Limits, r: nat, status: nat, now: nat)
    requires Inv(s, lim) && Placed(s, r) && s.requests[r].Forwarding?
    ensures Inv(Next(s, lim, Headers(r, status, now)), lim)
  {
    var p := s.requests[r];
    var k := s.backends[p.backend];
    HolderMeansProbe(s, lim, r);
    if p.adm == Probe && IsSuccess(status) {
      MoveKeeps(s, lim, r, Responding(p.backend, Normal, status),
                k.(breaker := RecordSuccess(k.breaker, lim.cfg, Probe, now)));
    } else {
      MoveKeeps(s, lim, r, Responding(p.backend, p.adm, status), k);
      assert s.backends[p.backend := k] == s.backends;
    }
  }

  lemma EndKeeps(s: System, lim: Limits, r: nat, o: Outcome)
    requires Inv(s, lim) && Placed(s, r) && MayEnd(s.requests[r], o)
    ensures Inv(Next(s, lim, End(r, o)), lim)
  {
    var p := s.requests[r];
    HolderMeansProbe(s, lim, r);
    var k := s.backends[p.backend];
    MoveKeeps(s, lim, r, Ending(p.backend, p.adm, o), k.(active := k.active - 1));
  }

  /** A verdict keeps the breaker sound; a probe's gives the probe back, any other leaves it. */
  lemma JudgeReturnsProbe(b: Breaker, cfg: Config, adm: Admission, o: Outcome, now: nat)
    requires Sound(b)
    ensures Sound(Judge(b, cfg, adm, o, now))
    ensures adm == Normal ==> Judge(b, cfg, adm, o, now).probe == b.probe
    ensures adm == Probe && b.probe ==> !Judge(b, cfg, adm, o, now).probe
  {
  }

  lemma VerdictKeeps(s: System, lim: Limits, r: nat, now: nat)
    requires Inv(s, lim) && Placed(s, r) && s.requests[r].Ending?
    ensures Inv(Next(s, lim, Verdict(r, now)), lim)
  {
    var p := s.requests[r];
    HolderMeansProbe(s, lim, r);
    var k := s.backends[p.backend];
    JudgeReturnsProbe(k.breaker, lim.cfg, p.adm, p.outcome, now);
    MoveKeeps(s, lim, r, Judged(p.backend, p.outcome),
              k.(breaker := Judge(k.breaker, lim.cfg, p.adm, p.outcome, now)));
  }

  lemma OneFewer(reqs: map<nat, Phase>, r: nat)
    requires r in reqs
    ensures |reqs - {r}| == |reqs| - 1
  {
    assert reqs.Keys == (reqs - {r}).Keys + {r};
  }

  lemma ReleaseKeeps(s: System, lim: Limits, r: nat)
    requires Inv(s, lim) && r in s.requests && (s.requests[r].HasPermit? || s.requests[r].Judged?)
    ensures Inv(Next(s, lim, Release(r)), lim)
  {
    var s' := Next(s, lim, Release(r));
    OneFewer(s.requests, r);
    forall c | 0 <= c < |s'.backends| ensures Balanced(s'.backends[c], s'.requests, c) {
      SetsWithout(s.requests, r, c);
    }
  }

  lemma NextKeeps(s: System, lim: Limits, e: Event)
    requires Inv(s, lim)
    ensures Inv(Next(s, lim, e), lim)
  {
    if Next(s, lim, e) != s {
      match e {
        case Acquire(r) => AcquireKeeps(s, lim, r);
        case Look(b, now) => LookKeeps(s, lim, b, now);
        case Claim(r, b, now) => ClaimKeeps(s, lim, r, b, now);
        case Begun(r) => BegunKeeps(s, lim, r);
        case Headers(r, status, now) => HeadersKeeps(s, lim, r, status, now);
        case End(r, o) => EndKeeps(s, lim, r, o);
        case Verdict(r, now) => VerdictKeeps(s, lim, r, now);
        case Release(r) => ReleaseKeeps(s, lim, r);
      }
    }
  }

  lemma {:induction false} ExecKeeps(s: System, lim: Limits, es: seq<Event>)
    requires Inv(s, lim)
    ensures Inv(Exec(s, lim, es), lim)
  {
    if es == [] {
    } else {
      ExecKeeps(s, lim, es[..|es| - 1]);
      NextKeeps(Exec(s, lim, es[..|es| - 1]), lim, es[|es| - 1]);
    }
  }

  /** Every interleaving keeps the books: tokens, connections and permits. */
  lemma EveryRunKeepsBooks(count: nat, start: nat, lim: Limits, es: seq<Event>)
    ensures Inv(Exec(Start(count, start), lim, es), lim)
  {
    ExecKeeps(Start(count, start), lim, es);
  }

  // --------------------------------------------------------- what the books imply

  /** A held probe has exactly one owner and its breaker is half-open. */
  lemma ProbeHasOneOwner(s: System, lim: Limits, b: nat)
    requires Inv(s, lim) && b < |s.backends|
    ensures s.backends[b].breaker.probe ==>
            s.backends[b].breaker.state == HalfOpen && exists r :: Holders(s.requests, b) == {r}
    ensures !s.backends[b].breaker.probe ==> Holders(s.requests, b) == {}
  {
    assert Balanced(s.backends[b], s.requests, b);
    if s.backends[b].breaker.probe {
      var r :| r in Holders(s.requests, b);
      SoleHolder(s.requests, b, r);
    }
  }

  /** A probe's verdict always finds the breaker half-open with its probe out, and decides it. */
  lemma ProbeVerdictDecides(s: System, lim: Limits, r: nat, now: nat)
    requires Inv(s, lim) && Placed(s, r) && s.requests[r].Ending? && s.requests[r].adm == Probe
    ensures var b, o := s.requests[r].backend, s.requests[r].outcome;
            var k, k' := s.backends[b].breaker, Next(s, lim, Verdict(r, now)).backends[b].breaker;
            && k.state == HalfOpen && k.probe
            && (IsBackendFailure(o) ==> k'.state == Open && k'.openedAt == Some(now) && !k'.probe)
            && (o.ClientDisconnect? ==> k' == k.(probe := false))
            && (!IsBackendFailure(o) && !o.ClientDisconnect? ==>
                  k' == Breaker(Closed, None, false, Log(now, [Entry(now, Ok)])))
            && (k'.state == Open <==>
                  o.TransportError? || o.StreamError? || (o.Completed? && 500 <= o.status < 600))
            && (k'.state == Closed <==> o.Completed? && !(500 <= o.status < 600))
  {
    HolderMeansProbe(s, lim, r);
  }

  /** A 2xx answer to the probe closes the circuit at once, and the request goes on as a normal one. */
  lemma ProbeHeadersClose(s: System, lim: Limits, r: nat, status: nat, now: nat)
    requires Inv(s, lim) && Placed(s, r) && s.requests[r].Forwarding? && s.requests[r].adm == Probe
    requires 200 <= status < 300
    ensures var b, s' := s.requests[r].backend, Next(s, lim, Headers(r, status, now));
            && s.backends[b].breaker.state == HalfOpen
            && s'.backends[b].breaker == Breaker(Closed, None, false, Log(now, [Entry(now, Ok)]))
            && Holders(s'.requests, b) == {}
  {
    HolderMeansProbe(s, lim, r);
    NextKeeps(s, lim, Headers(r, status, now));
    ProbeHasOneOwner(Next(s, lim, Headers(r, status, now)), lim, s.requests[r].backend);
  }

  /** Any other headers leave the breaker, the token and the connection count to the final verdict. */
  lemma OtherHeadersDecideNothing(s: System, lim: Limits, r: nat, status: nat, now: nat)
    requires Placed(s, r) && s.requests[r].Forwarding?
    requires s.requests[r].adm == Normal || status < 200 || 300 <= status
    ensures var p, s' := s.requests[r], Next(s, lim, Headers(r, status, now));
            s'.backends == s.backends && s'.requests[r] == Responding(p.backend, p.adm, status)
  {
  }

  /** A look at a backend, by selection or by the metrics handler, moves it to half-open exactly when it is
      open and its period is over at the reading, and moves nothing else. */
  lemma LookNoticesTheEnd(s: System, lim: Limits, b: nat, now: nat)
    requires Inv(s, lim) && b < |s.backends|
    ensures var k, s' := s.backends[b].breaker, Next(s, lim, Look(b, now));
            && s' == SetBreaker(s, b, k.(state := s'.backends[b].breaker.state))
            && var over := k.state == Open && (lim.cfg.openTicks == 0 || now >= k.openedAt.value + lim.cfg.openTicks);
               s'.backends[b].breaker.state == if over then HalfOpen else k.state
  {
    assert Balanced(s.backends[b], s.requests, b);
    RefreshMovesIff(s.backends[b].breaker, lim.cfg, now);
  }

  /** What an outcome counts as while the circuit is closed: a 5xx answer, a transport error and a broken
      stream are failures, any other answer is a success, a vanished client is neither. */
  lemma OutcomeIsCounted(k: Breaker, cfg: Config, adm: Admission, o: Outcome, now: nat)
    requires k.state == Closed
    ensures var k' := Judge(k, cfg, adm, o, now);
            var failed := o.TransportError? || o.StreamError? || (o.Completed? && 500 <= o.status < 600);
            && (failed ==> k'.log == Append(k.log, now, Fail) && (k'.state == Open <==> IsBad(cfg, k'.log)))
            && (o.Completed? && !failed ==> k' == k.(log := Append(k.log, now, Ok)))
            && (o.ClientDisconnect? ==> k' == k)
  {
    if o.TransportError? || o.StreamError? || (o.Completed? && 500 <= o.status < 600) {
      FailureOpensIff(k, cfg, adm, now);
    }
  }

  /** A normal verdict never closes a circuit, never touches the probe and never moves an open period. */
  lemma NormalVerdictRestoresNothing(s: System, lim: Limits, r: nat, now: nat)
    requires Inv(s, lim) && Placed(s, r) && s.requests[r].Ending? && s.requests[r].adm == Normal
    ensures var b := s.requests[r].backend;
            var k, k' := s.backends[b].breaker, Next(s, lim, Verdict(r, now)).backends[b].breaker;
            && k'.probe == k.probe
            && (k.state != Closed ==> k'.state != Closed && k'.openedAt == k.openedAt)
  {
  }

  function SumActive(ks: seq<Backend>): int {
    if ks == [] then 0 else SumActive(ks[..|ks| - 1]) + ks[|ks| - 1].active
  }

  function ServingBelow(reqs: map<nat, Phase>, n: nat): set<nat> {
    set r | r in reqs && (reqs[r].Forwarding? || reqs[r].Responding?) && reqs[r].backend < n
  }

  /** Those on backend `n` join those on the backends before it. */
  lemma ServingBelowGrows(reqs: map<nat, Phase>, n: nat)
    ensures |ServingBelow(reqs, n + 1)| == |ServingBelow(reqs, n)| + |Serving(reqs, n)|
  {
    var below, here := ServingBelow(reqs, n), Serving(reqs, n);
    assert ServingBelow(reqs, n + 1) == below + here;
    assert below !! here;
  }

  lemma {:induction false} SumActiveCounts(s: System, lim: Limits, n: nat)
    requires Inv(s, lim) && n <= |s.backends|
    ensures SumActive(s.backends[..n]) == |ServingBelow(s.requests, n)|
  {
    if n == 0 {
      assert ServingBelow(s.requests, 0) == {};
    } else {
      SumActiveCounts(s, lim, n - 1);
      assert s.backends[..n][..n - 1] == s.backends[..n - 1];
      assert Balanced(s.backends[n - 1], s.requests, n - 1);
      ServingBelowGrows(s.requests, n - 1);
    }
  }

  lemma SubsetSize(a: set<nat>, b: set<nat>)
    requires a <= b
    ensures |a| <= |b|
  {
    assert b == a + (b - a);
  }

  /** Between any two atomic updates: connections never exceed permits, permits never exceed the
      budget, and a counter about to be decremented is positive. */
  lemma CountersStayInBudget(s: System, lim: Limits)
    requires Inv(s, lim)
    ensures 0 <= SumActive(s.backends) <= s.inFlight <= lim.maxInFlight
    ensures forall r :: r in s.requests ==> s.inFlight >= 1
    ensures forall r, o :: Placed(s, r) && MayEnd(s.requests[r], o) ==> s.backends[s.requests[r].backend].active >= 1
  {
    assert s.backends[..|s.backends|] == s.backends;
    SumActiveCounts(s, lim, |s.backends|);
    SubsetSize(ServingBelow(s.requests, |s.backends|), s.requests.Keys);
    forall r | r in s.requests ensures s.inFlight >= 1 {
      SubsetSize({r}, s.requests.Keys);
    }
    forall r, o | Placed(s, r) && MayEnd(s.requests[r], o)
      ensures s.backends[s.requests[r].backend].active >= 1
    {
      var b := s.requests[r].backend;
      assert Balanced(s.backends[b], s.requests, b);
      assert r in Serving(s.requests, b);
      SubsetSize({r}, Serving(s.requests, b));
    }
  }
}

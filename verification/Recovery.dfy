/**
 No backend is ever stuck: every live request can be driven to its end whatever its outcome, and
 once a backend's probe is not held, the end of its open period is all a claim has to wait for.
 */
module Recovery {
  import opened Breaker
  import opened Lifecycle

  lemma {:induction false} ExecAppend(s: System, lim: Limits, a: seq<Event>, b: seq<Event>)
    ensures Exec(s, lim, a + b) == Exec(Exec(s, lim, a), lim, b)
  {
    if b == [] {
      assert a + b == a;
    } else {
      ExecAppend(s, lim, a, b[..|b| - 1]);
      assert (a + b)[..|a + b| - 1] == a + b[..|b| - 1];
    }
  }

  lemma ExecOne(s: System, lim: Limits, e: Event)
    ensures Exec(s, lim, [e]) == Next(s, lim, e)
  {
  }

  /** The circuit is open, and at this reading its open period has not run out. */
  predicate InOpenPeriod(k: Breaker, cfg: Config, now: nat) {
    k.state == Open && k.openedAt.Some? && !Due(cfg, k.openedAt.value, now)
  }

  /** With no live probe holder, a claim is refused only while an open period is still running. */
  lemma ClaimRefusedOnlyWhileOpen(s: System, lim: Limits, b: nat, now: nat)
    requires Inv(s, lim) && b < |s.backends| && Holders(s.requests, b) == {}
    ensures var k := s.backends[b].breaker;
            && (k.openedAt.Some? <==> k.state != Closed)
            && (TryBegin(k, lim.cfg, now).1.None? <==> InOpenPeriod(k, lim.cfg, now))
  {
  }

  // ------------------------------------------------------- driving requests to their end

  /** How far a request is from its end. */
  function Left(p: Phase): nat {
    match p
    case Selected(_, _) => 5
    case Forwarding(_, _) => 4
    case Responding(_, _, _) => 3
    case Ending(_, _, _) => 2
    case Judged(_, _) => 1
    case HasPermit => 1
  }

  /** The outcomes still open to a request: all of them until its headers arrive. */
  predicate OpenTo(p: Phase, o: Outcome) {
    match p
    case HasPermit => false
    case Selected(_, _) => true
    case Forwarding(_, _) => true
    case Responding(_, _, status) => o == Completed(status) || o == StreamError || o == ClientDisconnect
    case Ending(_, _, was) => o == was
    case Judged(_, was) => o == was
  }

  /** The next update of request `r` on its way out, towards the wished outcome if it is still open. */
  function Onward(s: System, r: nat, wish: Outcome, now: nat): Event
    requires r in s.requests
  {
    var p := s.requests[r];
    match p
    case HasPermit => Release(r)
    case Selected(_, _) => Begun(r)
    case Forwarding(_, _) => if wish.Completed? then Headers(r, wish.status, now) else End(r, wish)
    case Responding(_, _, _) => End(r, if MayEnd(p, wish) then wish else ClientDisconnect)
    case Ending(_, _, _) => Verdict(r, now)
    case Judged(_, _) => Release(r)
  }

  /** That update is enabled, brings `r` closer to its end and its wish, and touches no other request. */
  lemma OnwardWorks(s: System, lim: Limits, r: nat, wish: Outcome, now: nat)
    requires Inv(s, lim) && r in s.requests
    ensures var p, reqs := s.requests[r], Next(s, lim, Onward(s, r, wish, now)).requests;
            && reqs - {r} == s.requests - {r}
            && (r in reqs ==> Left(reqs[r]) < Left(p) && (OpenTo(p, wish) ==> OpenTo(reqs[r], wish)))
            && (r in reqs || Left(p) == 1)
  {
  }

  /** At some moment of the run, request `r` has been judged on outcome `o` by its backend's breaker. */
  ghost predicate ComesTo(s: System, lim: Limits, es: seq<Event>, r: nat, o: Outcome) {
    exists i :: 0 <= i <= |es| && JudgedOn(Exec(s, lim, es[..i]), r, o)
  }

  predicate JudgedOn(s: System, r: nat, o: Outcome) {
    r in s.requests && s.requests[r].Judged? && s.requests[r].outcome == o
  }

  lemma ComesToFirst(s: System, lim: Limits, a: seq<Event>, b: seq<Event>, r: nat, o: Outcome)
    requires ComesTo(s, lim, a, r, o)
    ensures ComesTo(s, lim, a + b, r, o)
  {
    var i :| 0 <= i <= |a| && JudgedOn(Exec(s, lim, a[..i]), r, o);
    assert (a + b)[..i] == a[..i];
  }

  lemma ComesToThen(s: System, lim: Limits, a: seq<Event>, b: seq<Event>, r: nat, o: Outcome)
    requires ComesTo(Exec(s, lim, a), lim, b, r, o)
    ensures ComesTo(s, lim, a + b, r, o)
  {
    var i :| 0 <= i <= |b| && JudgedOn(Exec(Exec(s, lim, a), lim, b[..i]), r, o);
    ExecAppend(s, lim, a, b[..i]);
    TakeAppend(a, b, i);
  }

  lemma TakeAppend(a: seq<Event>, b: seq<Event>, i: nat)
    requires i <= |b|
    ensures (a + b)[..|a| + i] == a + b[..i]
  {
  }

  /** Any live request can be driven to its end, judged on any outcome still open to it, while all
      others stand still. */
  lemma {:induction false} Finish(s: System, lim: Limits, r: nat, wish: Outcome, now: nat) returns (es: seq<Event>)
    requires Inv(s, lim) && r in s.requests
    ensures Exec(s, lim, es).requests == s.requests - {r}
    ensures OpenTo(s.requests[r], wish) ==> ComesTo(s, lim, es, r, wish)
    decreases Left(s.requests[r])
  {
    var e := Onward(s, r, wish, now);
    var s1 := Next(s, lim, e);
    OnwardWorks(s, lim, r, wish, now);
    ExecOne(s, lim, e);
    if r !in s1.requests {
      es := [e];
      assert s1.requests - {r} == s1.requests;
      assert Exec(s, lim, es[..0]) == s;
    } else {
      NextKeeps(s, lim, e);
      var rest := Finish(s1, lim, r, wish, now);
      es := [e] + rest;
      ExecAppend(s, lim, [e], rest);
      if OpenTo(s.requests[r], wish) {
        ComesToThen(s, lim, [e], rest, r, wish);
      }
    }
  }

  /** Every request live in `s` to which its wish is still open comes to it. */
  ghost predicate WishesCome(s: System, lim: Limits, es: seq<Event>, wish: nat -> Outcome) {
    forall r :: r in s.requests && OpenTo(s.requests[r], wish(r)) ==> ComesTo(s, lim, es, r, wish(r))
  }

  lemma WishesComeInTurn(s: System, lim: Limits, first: seq<Event>, rest: seq<Event>, r: nat, wish: nat -> Outcome)
    requires r in s.requests && Exec(s, lim, first).requests == s.requests - {r}
    requires OpenTo(s.requests[r], wish(r)) ==> ComesTo(s, lim, first, r, wish(r))
    requires WishesCome(Exec(s, lim, first), lim, rest, wish)
    ensures WishesCome(s, lim, first + rest, wish)
  {
    forall q | q in s.requests && OpenTo(s.requests[q], wish(q)) ensures ComesTo(s, lim, first + rest, q, wish(q)) {
      if q == r {
        ComesToFirst(s, lim, first, rest, q, wish(q));
      } else {
        assert q in Exec(s, lim, first).requests;
        ComesToThen(s, lim, first, rest, q, wish(q));
      }
    }
  }

  /** All live requests can be driven to their ends, each judged on any outcome still open to it. */
  lemma {:induction false} Drain(s: System, lim: Limits, wish: nat -> Outcome, now: nat) returns (es: seq<Event>)
    requires Inv(s, lim)
    ensures Exec(s, lim, es).requests == map[]
    ensures WishesCome(s, lim, es, wish)
    decreases |s.requests|
  {
    if s.requests == map[] {
      es := [];
    } else {
      var r :| r in s.requests;
      var first := Finish(s, lim, r, wish(r), now);
      ExecKeeps(s, lim, first);
      var s1 := Exec(s, lim, first);
      assert s.requests.Keys == s1.requests.Keys + {r};
      var rest := Drain(s1, lim, wish, now);
      es := first + rest;
      ExecAppend(s, lim, first, rest);
      WishesComeInTurn(s, lim, first, rest, r, wish);
    }
  }

  // ------------------------------------------------------------- and then claiming again

  /** The request was granted its claim on backend `b`. */
  predicate Granted(s: System, r: nat, b: nat) {
    r in s.requests && s.requests[r].Selected? && s.requests[r].backend == b
  }

  /** With nothing in flight a fresh request's claim is granted if and only if the reading it carries
      is not inside the backend's open period. */
  lemma FreshClaim(s: System, lim: Limits, b: nat, r: nat, at: nat)
    requires Inv(s, lim) && s.requests == map[] && b < |s.backends| && lim.maxInFlight >= 1
    ensures var k := s.backends[b].breaker;
            Granted(Exec(s, lim, [Acquire(r), Claim(r, b, at)]), r, b)
            <==> !InOpenPeriod(k, lim.cfg, at)
  {
    var s1 := Next(s, lim, Acquire(r));
    ClaimRefusedOnlyWhileOpen(s, lim, b, at);
    assert s1.backends == s.backends;
    assert [Acquire(r), Claim(r, b, at)] == [Acquire(r)] + [Claim(r, b, at)];
    ExecAppend(s, lim, [Acquire(r)], [Claim(r, b, at)]);
    ExecOne(s, lim, Acquire(r));
    ExecOne(s1, lim, Claim(r, b, at));
  }

  /** From every reachable state no backend is stuck: the live requests can all be driven to their
      ends, with any outcomes still open to them, and from then on a fresh request is granted its
      claim on any backend at every reading from the end of the open period then current, if any. */
  lemma NoBackendIsStuck(count: nat, start: nat, lim: Limits, run: seq<Event>, wish: nat -> Outcome, now: nat)
    returns (drain: seq<Event>)
    requires lim.maxInFlight >= 1
    ensures WishesCome(Exec(Start(count, start), lim, run), lim, drain, wish)
    ensures Exec(Start(count, start), lim, run + drain).requests == map[]
    ensures forall b, r, at :: 0 <= b < count ==>
              var k := Exec(Start(count, start), lim, run + drain).backends[b].breaker;
              Granted(Exec(Start(count, start), lim, run + drain + [Acquire(r), Claim(r, b, at)]), r, b)
              <==> !InOpenPeriod(k, lim.cfg, at)
  {
    var s0 := Start(count, start);
    var s := Exec(s0, lim, run);
    EveryRunKeepsBooks(count, start, lim, run);
    drain := Drain(s, lim, wish, now);
    ExecAppend(s0, lim, run, drain);
    ExecKeeps(s, lim, drain);
    var drained := Exec(s0, lim, run + drain);
    forall b, r, at | 0 <= b < count
      ensures var k := drained.backends[b].breaker;
              Granted(Exec(s0, lim, run + drain + [Acquire(r), Claim(r, b, at)]), r, b)
              <==> !InOpenPeriod(k, lim.cfg, at)
    {
      FreshClaim(drained, lim, b, r, at);
      ExecAppend(s0, lim, run + drain, [Acquire(r), Claim(r, b, at)]);
    }
  }
}

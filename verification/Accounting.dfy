/**
 Per-request accounting as the router runs it: the guard that holds the permit and the admission
 token and settles both when dropped, and the stream wrapper that keeps the guard alive until the
 last chunk.  `Lifecycle` takes the guard's updates apart into atomic steps; here each method is one
 call, proved against the same `Judge`.
 */
module Accounting {
  import opened Options
  import opened CircuitBreakers
  import opened Lifecycle
  import B = Breaker
  import Ewma

  class BackpressureController {
    var inFlight: nat
    const maxInFlight: nat

    constructor (maxInFlight: nat)
      ensures inFlight == 0 && this.maxInFlight == maxInFlight
    {
      inFlight := 0;
      this.maxInFlight := maxInFlight;
    }

    method TryAcquire() returns (ok: bool)
      modifies this
      ensures ok == (old(inFlight) < maxInFlight)
      ensures inFlight == old(inFlight) + (if ok then 1 else 0)
    {
      ok := inFlight < maxInFlight;
      if ok {
        inFlight := inFlight + 1;
      }
    }

    /** Dropping a permit; a count of zero would stay zero. */
    method Release()
      modifies this
      ensures inFlight == if old(inFlight) == 0 then 0 else old(inFlight) - 1
    {
      if inFlight > 0 {
        inFlight := inFlight - 1;
      }
    }
  }

  /** What accounting touches of a backend; `recorded` stands for the request counter's labels. */
  class Target {
    const breaker: CircuitBreaker
    var active: int
    var ewma: nat
    var recorded: seq<Outcome>

    constructor (breaker: CircuitBreaker)
      ensures this.breaker == breaker && active == 0 && ewma == 0 && recorded == []
    {
      this.breaker := breaker;
      active, ewma, recorded := 0, 0, [];
    }
  }

  /** The latency estimate after a request: only a 2xx completion feeds it, with the time to its headers. */
  function EstimateAfter(ewma: nat, alpha: real, o: Outcome, ttfb: nat): nat
    requires Ewma.Smoothing(alpha)
  {
    if o.Completed? && IsSuccess(o.status) then Ewma.Update(ewma, ttfb, alpha) else ewma
  }

  /** Everything the end of a request settles: the backend's connection count, latency estimate, breaker
      and labels, and the in-flight count. */
  datatype Books = Books(active: int, ewma: nat, breaker: B.Breaker, recorded: seq<Outcome>, inFlight: nat)

  /** The books after a request that came to outcome `o` is dropped: each entry settled exactly once. */
  function Settled(k: Books, cfg: B.Config, alpha: real, adm: B.Admission, o: Outcome, ttfb: nat, now: nat): Books
    requires Ewma.Smoothing(alpha)
  {
    Books(k.active - 1,
          EstimateAfter(k.ewma, alpha, o, ttfb),
          Judge(k.breaker, cfg, adm, o, now),
          k.recorded + [o],
          if k.inFlight == 0 then 0 else k.inFlight - 1)
  }

  /** Whole microseconds from `from` to `to`; none if `to` is the earlier. */
  function Micros(from: nat, to: nat): (us: nat)
    ensures to <= from ==> us == 0
    ensures from <= to ==> us * 1_000 <= to - from < (us + 1) * 1_000
  {
    B.Since(to, from) / 1_000
  }

  class RequestAccounting {
    const target: Target
    const permit: BackpressureController
    const alpha: real
    const started: nat
    var headersAt: Option<nat>
    var outcome: Outcome
    var admission: B.Admission

    ghost predicate Valid()
      reads target.breaker.inner`head, target.breaker.inner`headStart, target.breaker.inner`log
      reads target.breaker.inner.buckets
    {
      target.breaker.Valid() && Ewma.Smoothing(alpha)
    }

    ghost function Ledger(): Books
      reads target, permit, target.breaker.inner
    {
      Books(target.active, target.ewma, target.breaker.Abs(), target.recorded, permit.inFlight)
    }

    /** The books if this request were dropped now with outcome `o`. */
    ghost function SettledBy(o: Outcome, now: nat): Books
      requires Ewma.Smoothing(alpha)
      reads this, target, permit, target.breaker.inner
    {
      Settled(Ledger(), target.breaker.cfg, alpha, admission, o, Ttfb(now), now)
    }

    constructor Start(target: Target, alpha: real, admission: B.Admission, permit: BackpressureController, now: nat)
      requires target.breaker.Valid() && Ewma.Smoothing(alpha)
      modifies target`active
      ensures Valid() && target.active == old(target.active) + 1
      ensures this.target == target && this.permit == permit && this.alpha == alpha && started == now
      ensures headersAt == None && outcome == ClientDisconnect && this.admission == admission
    {
      this.target, this.permit, this.alpha, this.started := target, permit, alpha, now;
      headersAt, outcome, this.admission := None, ClientDisconnect, admission;
      new;
      target.active := target.active + 1;
    }

    /** Keeps the first reading only. */
    method MarkHeadersReceivedAt(at: nat)
      modifies this`headersAt
      ensures headersAt == if old(headersAt).Some? then old(headersAt) else Some(at)
    {
      if headersAt.None? {
        headersAt := Some(at);
      }
    }

    method ResolveProbeOnHeaders(status: nat, now: nat)
      requires Valid()
      modifies this`admission, target.breaker.inner, target.breaker.inner.buckets
      ensures Valid()
      ensures var resolves := old(admission) == B.Probe && 200 <= status < 300;
              && admission == (if resolves then B.Normal else old(admission))
              && target.breaker.Abs()
                 == (if resolves then B.RecordSuccess(old(target.breaker.Abs()), target.breaker.cfg, B.Probe, now)
                     else old(target.breaker.Abs()))
    {
      if admission == B.Probe && IsSuccess(status) {
        target.breaker.RecordSuccess(B.Probe, now);
        admission := B.Normal;
      }
    }

    /** Time to the response headers, in whole microseconds. */
    function Ttfb(now: nat): nat
      reads this
    {
      Micros(started, if headersAt.Some? then headersAt.value else now)
    }

    /** The breaker's part of the drop. */
    method GiveVerdict(now: nat)
      requires Valid()
      modifies target.breaker.inner, target.breaker.inner.buckets
      ensures Valid()
      ensures target.breaker.Abs() == Judge(old(target.breaker.Abs()), target.breaker.cfg, admission, outcome, now)
    {
      match outcome {
        case Completed(_) =>
          if IsBackendFailure(outcome) {
            target.breaker.RecordFailure(admission, now);
          } else {
            target.breaker.RecordSuccess(admission, now);
          }
        case TransportError => target.breaker.RecordFailure(admission, now);
        case StreamError => target.breaker.RecordFailure(admission, now);
        case ClientDisconnect => target.breaker.Abandon(admission);
      }
    }

    /** The estimate's part: a 2xx completion feeds it the whole microseconds to the headers, or to now if
        none were marked. */
    method UpdateEstimate(now: nat)
      requires Ewma.Smoothing(alpha)
      modifies target`ewma
      ensures target.ewma == EstimateAfter(old(target.ewma), alpha, outcome, Ttfb(now))
      ensures target.ewma ==
              if outcome.Completed? && 200 <= outcome.status < 300 then
                Ewma.Update(old(target.ewma), Micros(started, if headersAt.Some? then headersAt.value else now), alpha)
              else old(target.ewma)
    {
      if outcome.Completed? && IsSuccess(outcome.status) {
        target.ewma := Ewma.Update(target.ewma, Ttfb(now), alpha);
      }
    }

    /** Connection count, latency estimate, breaker verdict, label, permit: each settled exactly once. */
    method Drop(now: nat)
      requires Valid()
      modifies target, permit, target.breaker.inner, target.breaker.inner.buckets
      ensures Valid() && Ledger() == old(SettledBy(outcome, now))
      ensures target.active == old(target.active) - 1
      ensures target.recorded == old(target.recorded) + [outcome]
      ensures permit.inFlight == if old(permit.inFlight) == 0 then 0 else old(permit.inFlight) - 1
      ensures target.breaker.Abs() == Judge(old(target.breaker.Abs()), target.breaker.cfg, admission, outcome, now)
      ensures target.ewma == EstimateAfter(old(target.ewma), alpha, outcome, Ttfb(now))
    {
      target.active := target.active - 1;
      UpdateEstimate(now);
      GiveVerdict(now);
      target.recorded := target.recorded + [outcome];
      permit.Release();
    }

    method Finish(o: Outcome, now: nat)
      requires Valid()
      modifies this`outcome, target, permit, target.breaker.inner, target.breaker.inner.buckets
      ensures Valid() && outcome == o && Ledger() == old(SettledBy(o, now))
    {
      outcome := o;
      Drop(now);
    }
  }

  // -------------------------------------------------------------- the stream

  const SSE_DONE: string := "data: [DONE]"

  predicate DoneAt(chunk: string, i: nat) {
    i + |SSE_DONE| <= |chunk| && chunk[i..i + |SSE_DONE|] == SSE_DONE
  }

  /** Some window of the chunk is the end marker. */
  predicate ContainsDone(chunk: string) {
    exists i :: 0 <= i < |chunk| && DoneAt(chunk, i)
  }

  /** What polling the backend's stream yields. */
  datatype Event = Stall | Sends(chunk: string) | Breaks | Ends

  /** What polling the wrapper yields to the client. */
  datatype Reply = Pending | Chunk(bytes: string) | Error | Finished

  /** The wrapper's state: still holding the guard, last forwarded chunk carried the marker, and the
      outcomes settled so far. */
  datatype Stream = Stream(open: bool, doneSeen: bool, recorded: seq<Outcome>)

  function Opened(): Stream {
    Stream(true, false, [])
  }

  function Poll(s: Stream, status: nat, e: Event): (Stream, Reply) {
    if !s.open then (s, Finished)
    else
      match e
      case Stall => (s, Pending)
      case Sends(chunk) => (s.(doneSeen := ContainsDone(chunk)), Chunk(chunk))
      case Breaks => (s.(open := false, recorded := s.recorded + [StreamError]), Error)
      case Ends => (s.(open := false, recorded := s.recorded + [Completed(status)]), Finished)
  }

  function Dropped(s: Stream, status: nat): Stream {
    if !s.open then s
    else s.(open := false, recorded := s.recorded + [if s.doneSeen then Completed(status) else ClientDisconnect])
  }

  class AccountedStream {
    const guard: RequestAccounting
    const status: nat
    var open: bool
    var doneSeen: bool
    ghost const before: seq<Outcome>

    ghost predicate Valid()
      reads this, guard, guard.target, guard.target.breaker.inner, guard.target.breaker.inner.buckets
    {
      && guard.Valid()
      && (open ==> guard.outcome == ClientDisconnect)
      && before <= guard.target.recorded
    }

    ghost function Abs(): Stream
      requires Valid()
      reads this, guard, guard.target, guard.target.breaker.inner, guard.target.breaker.inner.buckets
    {
      Stream(open, doneSeen, guard.target.recorded[|before|..])
    }

    constructor (guard: RequestAccounting, status: nat)
      requires guard.Valid() && guard.outcome == ClientDisconnect
      ensures this.guard == guard && this.status == status && before == guard.target.recorded
      ensures Valid() && Abs() == Opened()
    {
      this.guard, this.status, open, doneSeen := guard, status, true, false;
      before := guard.target.recorded;
    }

    /** The books after polling `e`: settled if the stream ends or breaks while the guard is held. */
    ghost function BooksAfterPoll(e: Event, now: nat): Books
      requires Valid()
      reads this, guard, guard.target, guard.permit, guard.target.breaker.inner, guard.target.breaker.inner.buckets
    {
      if open && Terminal(e) then guard.SettledBy(if e.Breaks? then StreamError else Completed(status), now)
      else guard.Ledger()
    }

    /** The books after the stream is dropped. */
    ghost function BooksAfterDrop(now: nat): Books
      requires Valid()
      reads this, guard, guard.target, guard.permit, guard.target.breaker.inner, guard.target.breaker.inner.buckets
    {
      if open then guard.SettledBy(if doneSeen then Completed(status) else ClientDisconnect, now) else guard.Ledger()
    }

    method PollNext(e: Event, now: nat) returns (reply: Reply)
      requires Valid()
      modifies this, guard`outcome, guard.target, guard.permit
      modifies guard.target.breaker.inner, guard.target.breaker.inner.buckets
      ensures Valid() && (Abs(), reply) == Poll(old(Abs()), status, e)
      ensures guard.Ledger() == old(BooksAfterPoll(e, now))
    {
      if !open {
        return Finished;
      }
      ghost var was := guard.target.recorded;
      assert forall o :: (was + [o])[|before|..] == was[|before|..] + [o];
      match e {
        case Stall => reply := Pending;
        case Sends(chunk) =>
          doneSeen := ContainsDone(chunk);
          reply := Chunk(chunk);
        case Breaks =>
          open := false;
          guard.Finish(StreamError, now);
          reply := Error;
        case Ends =>
          open := false;
          guard.Finish(Completed(status), now);
          reply := Finished;
      }
    }

    method Drop(now: nat)
      requires Valid()
      modifies this, guard`outcome, guard.target, guard.permit
      modifies guard.target.breaker.inner, guard.target.breaker.inner.buckets
      ensures Valid() && Abs() == Dropped(old(Abs()), status)
      ensures guard.Ledger() == old(BooksAfterDrop(now))
    {
      if open {
        ghost var was := guard.target.recorded;
        assert forall o :: (was + [o])[|before|..] == was[|before|..] + [o];
        open := false;
        if doneSeen {
          guard.Finish(Completed(status), now);
        } else {
          guard.Drop(now);
        }
      }
    }
  }

  // ---------------------------------------------------- whole streams, any drop point

  function Polls(es: seq<Event>, status: nat): Stream {
    if es == [] then Opened() else Poll(Polls(es[..|es| - 1], status), status, es[|es| - 1]).0
  }

  predicate Terminal(e: Event) {
    e.Breaks? || e.Ends?
  }

  /** No event of the list ends the stream. */
  predicate Running(es: seq<Event>) {
    forall i :: 0 <= i < |es| ==> !Terminal(es[i])
  }

  /** What a transparent wrapper would answer to the `k`-th poll: the backend's own event, and nothing
      more once it has ended or broken. */
  function Expected(es: seq<Event>, k: nat): Reply
    requires k < |es|
  {
    if !Running(es[..k]) then Finished
    else match es[k]
      case Stall => Pending
      case Sends(chunk) => Chunk(chunk)
      case Breaks => Error
      case Ends => Finished
  }

  /** The last chunk forwarded carried the end marker. */
  predicate LastChunkDone(es: seq<Event>) {
    es != [] &&
    if es[|es| - 1].Sends? then ContainsDone(es[|es| - 1].chunk) else LastChunkDone(es[..|es| - 1])
  }

  /** The one outcome a stream comes to if the client drops it after these polls. */
  function Verdict(es: seq<Event>, status: nat): Outcome {
    if es == [] then ClientDisconnect
    else if !Running(es[..|es| - 1]) then Verdict(es[..|es| - 1], status)
    else match es[|es| - 1]
      case Breaks => StreamError
      case Ends => Completed(status)
      case _ => if LastChunkDone(es) then Completed(status) else ClientDisconnect
  }

  lemma {:induction false} StateAfterPolls(es: seq<Event>, status: nat)
    ensures var s := Polls(es, status);
            && (s.open <==> Running(es))
            && (s.open ==> s.recorded == [] && s.doneSeen == LastChunkDone(es))
            && (!s.open ==> s.recorded == [Verdict(es, status)])
  {
    if es == [] {
    } else {
      var init := es[..|es| - 1];
      StateAfterPolls(init, status);
      assert Running(es) <==> Running(init) && !Terminal(es[|es| - 1]) by {
        assert forall i :: 0 <= i < |init| ==> es[i] == init[i];
      }
    }
  }

  /** Transparent and fused: every poll is answered with the backend's own event until it ends or
      breaks, and with the end of the stream from then on. */
  lemma StreamIsTransparent(es: seq<Event>, status: nat, k: nat)
    requires k < |es|
    ensures Poll(Polls(es[..k], status), status, es[k]).1 == Expected(es, k)
  {
    StateAfterPolls(es[..k], status);
  }

  /** Wherever the client drops the stream, exactly one outcome is recorded. */
  lemma ExactlyOneVerdict(es: seq<Event>, status: nat)
    ensures Dropped(Polls(es, status), status).recorded == [Verdict(es, status)]
    ensures Dropped(Dropped(Polls(es, status), status), status) == Dropped(Polls(es, status), status)
  {
    StateAfterPolls(es, status);
    if Running(es) && es != [] {
      assert !Terminal(es[|es| - 1]);
      assert Running(es[..|es| - 1]);
    }
  }

  /** The outcome is the first ending event's, or by the last chunk if there was none. */
  lemma {:induction false} VerdictIsFirstEnding(es: seq<Event>, status: nat, t: nat)
    requires t < |es| && Terminal(es[t]) && Running(es[..t])
    ensures Verdict(es, status) == if es[t].Breaks? then StreamError else Completed(status)
    ensures Dropped(Polls(es, status), status).recorded == [Verdict(es, status)]
  {
    ExactlyOneVerdict(es, status);
    var init := es[..|es| - 1];
    if t < |init| {
      assert init[t] == es[t] && init[..t] == es[..t];
      VerdictIsFirstEnding(init, status, t);
    }
  }

  /** That is the last chunk sent: it carries the marker and nothing was sent after it. */
  lemma {:induction false} LastChunkIsLast(es: seq<Event>)
    ensures LastChunkDone(es) <==>
            exists k :: 0 <= k < |es| && es[k].Sends? && ContainsDone(es[k].chunk)
                        && forall j :: k < j < |es| ==> !es[j].Sends?
  {
    if es == [] {
    } else {
      var init, last := es[..|es| - 1], |es| - 1;
      if es[last].Sends? {
        assert LastChunkDone(es) ==> ContainsDone(es[last].chunk);
      } else {
        LastChunkIsLast(init);
        assert forall i :: 0 <= i < last ==> es[i] == init[i];
        if LastChunkDone(es) {
          var k :| 0 <= k < |init| && init[k].Sends? && ContainsDone(init[k].chunk)
                   && forall j :: k < j < |init| ==> !init[j].Sends?;
          assert es[k].Sends? && forall j :: k < j < |es| ==> !es[j].Sends?;
        }
      }
    }
  }

  lemma VerdictByLastChunk(es: seq<Event>, status: nat)
    requires Running(es)
    ensures Dropped(Polls(es, status), status).recorded
            == [if LastChunkDone(es) then Completed(status) else ClientDisconnect]
  {
    ExactlyOneVerdict(es, status);
  }

  /** The marker is found wherever it stands in the chunk. */
  lemma DoneIsFoundAnywhere(chunk: string)
    ensures ContainsDone(chunk) <==> exists a, b :: chunk == a + "data: [DONE]" + b
  {
    if ContainsDone(chunk) {
      var i :| 0 <= i < |chunk| && DoneAt(chunk, i);
      assert chunk == chunk[..i] + SSE_DONE + chunk[i + |SSE_DONE|..];
    }
    if a, b :| chunk == a + SSE_DONE + b {
      assert DoneAt(chunk, |a|);
    }
  }
}

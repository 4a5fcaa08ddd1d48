/**
 Choosing a backend for a request: build the routable set, ask the strategy, claim the answer's
 breaker, and on a refusal drop that candidate and ask again.

 Other requests run in between.  `World` gives what they have made of the pool by each step; it may
 change anything about a backend but who it is.  A quiet world changes nothing.
 */
module Selection {
  import opened Options
  import opened Peers
  import opened Breaker
  import RoundRobin
  import LatencyAware
  import HashRing
  import PrefixRouting

  const DEFAULT_VNODES: nat := 128

  // ------------------------------------------------------------------ strategies

  datatype Strategy =
    | RoundRobinStrategy(turns: RoundRobin.Selector)
    | LeastConnections
    | LeastLoad
    | LatencyStrategy(draws: LatencyAware.Selector)
    | PrefixStrategy(limit: nat, hashKey: string -> HashRing.Hash64, ring: seq<HashRing.Point>)
  {
    /** A prefix strategy is built over a ring of all the pool's backends. */
    ghost predicate Serves(backends: nat) {
      PrefixStrategy? ==> HashRing.IsRing(ring, hashKey, backends, DEFAULT_VNODES)
    }

    ghost function Frame(): set<object> {
      match this
      case RoundRobinStrategy(s) => {s}
      case LatencyStrategy(s) => {s}
      case _ => {}
    }

    /** The strategy's counter, for those that have one. */
    ghost function Turn(): nat
      reads Frame()
    {
      match this
      case RoundRobinStrategy(s) => s.counter
      case LatencyStrategy(s) => s.fallbackCounter
      case _ => 0
    }

    /** Only a choice by turns moves the counter, by one. */
    ghost function TurnAfter(turn: nat, ps: seq<Peer>): nat {
      if ps != [] && (RoundRobinStrategy? || (LatencyStrategy? && LatencyAware.FlatPool(ps))) then turn + 1 else turn
    }

    /** What the strategy answers for these candidates with its counter at `turn`. */
    ghost predicate Answers(turn: nat, body: Option<PrefixRouting.Json>, draw: real, ps: seq<Peer>, id: nat) {
      && ps != []
      && match this
         case RoundRobinStrategy(_) => id == ps[RoundRobin.Chosen(ps, turn)].id
         case LeastConnections => FewestConnections(ps, id)
         case LeastLoad => LightestLoad(ps, id)
         case LatencyStrategy(_) =>
           if LatencyAware.FlatPool(ps) then id == ps[RoundRobin.Chosen(ps, turn)].id
           else exists i: nat :: LatencyAware.Drawn(ps, i, draw) && id == ps[i].id
         case PrefixStrategy(limit, hashKey, ring) => PrefixRouting.Select(ring, hashKey, limit, body, ps) == Some(id)
    }
  }

  /** The first candidate no other has fewer connections than. */
  ghost predicate FewestConnections(ps: seq<Peer>, id: nat) {
    exists i :: 0 <= i < |ps| && ps[i].id == id
                && (forall j :: 0 <= j < |ps| ==> ps[i].active <= ps[j].active)
                && (forall j :: 0 <= j < i ==> ps[i].active < ps[j].active)
  }

  /** The same, counting the requests waiting at the backend as well. */
  ghost predicate LightestLoad(ps: seq<Peer>, id: nat) {
    exists i :: 0 <= i < |ps| && ps[i].id == id
                && (forall j :: 0 <= j < |ps| ==> ps[i].active + ps[i].queue <= ps[j].active + ps[j].queue)
                && (forall j :: 0 <= j < i ==> ps[i].active + ps[i].queue < ps[j].active + ps[j].queue)
  }

  lemma FirstLeastAnswers(ps: seq<Peer>)
    requires ps != []
    ensures FewestConnections(ps, ps[FirstLeast(ps, ActiveOf)].id)
    ensures LightestLoad(ps, ps[FirstLeast(ps, LoadOf)].id)
  {
    var i, k := FirstLeast(ps, ActiveOf), FirstLeast(ps, LoadOf);
    forall j | 0 <= j < |ps| ensures ps[i].active <= ps[j].active && (j < i ==> ps[i].active < ps[j].active) {
      assert ActiveOf(ps[i]) <= ActiveOf(ps[j]);
    }
    forall j | 0 <= j < |ps|
      ensures ps[k].active + ps[k].queue <= ps[j].active + ps[j].queue
      ensures j < k ==> ps[k].active + ps[k].queue < ps[j].active + ps[j].queue
    {
      assert LoadOf(ps[k]) <= LoadOf(ps[j]);
    }
    assert ps[i].id == ps[i].id && ps[k].id == ps[k].id;
  }

  /** The id is one of the candidates'. */
  predicate IsCandidate(ps: seq<Peer>, id: nat) {
    exists i :: 0 <= i < |ps| && ps[i].id == id
  }

  /** Every strategy answers nothing for no candidates and otherwise a candidate, its own rule's. */
  method Choose(s: Strategy, body: Option<PrefixRouting.Json>, draw: real, ps: seq<Peer>, ghost backends: nat)
    returns (r: Option<nat>)
    requires s.Serves(backends) && 0.0 <= draw < 1.0
    requires forall i :: 0 <= i < |ps| ==> ps[i].id < backends
    modifies s.Frame()
    ensures r.None? <==> ps == []
    ensures r.Some? ==> IsCandidate(ps, r.value) && s.Answers(old(s.Turn()), body, draw, ps, r.value)
    ensures s.Turn() == s.TurnAfter(old(s.Turn()), ps)
  {
    if ps != [] {
      FirstLeastAnswers(ps);
    }
    match s
    case RoundRobinStrategy(turns) => r := turns.Select(ps);
    case LatencyStrategy(draws) => r := draws.Select(ps, draw);
    case LeastConnections => r := if ps == [] then None else Some(ps[FirstLeast(ps, ActiveOf)].id);
    case LeastLoad => r := if ps == [] then None else Some(ps[FirstLeast(ps, LoadOf)].id);
    case PrefixStrategy(limit, hashKey, ring) =>
      if ps == [] {
        return None;
      }
      var prefix := PrefixRouting.ExtractPrefix(limit, body);
      if prefix == "" {
        r := Some(ps[FirstLeast(ps, ActiveOf)].id);
      } else {
        r := HashRing.Lookup(ring, hashKey(prefix), PrefixRouting.Ids(ps));
      }
      PrefixRouting.SelectsACandidate(ring, hashKey, limit, body, ps, backends, DEFAULT_VNODES);
  }

  /** The prefix strategy for a pool: four characters to a token, and a ring of the pool's backends. */
  method BuildPrefixStrategy(tokens: nat, hashKey: string -> HashRing.Hash64, backends: nat) returns (s: Strategy)
    ensures s.PrefixStrategy? && s.limit == 4 * tokens && s.hashKey == hashKey
    ensures HashRing.IsRing(s.ring, hashKey, backends, 128)
    ensures s.Serves(backends)
  {
    var ring := HashRing.New(hashKey, backends, DEFAULT_VNODES);
    s := PrefixStrategy(tokens * 4, hashKey, ring);
  }

  // --------------------------------------------------------------------- the pool

  datatype Replica = Replica(peer: Peer, healthy: bool, breaker: Breaker)

  /** Backend ids are positions in the pool. */
  predicate Numbered(pool: seq<Replica>) {
    forall i :: 0 <= i < |pool| ==> pool[i].peer.id == i
  }

  type World = (nat, seq<Replica>) -> seq<Replica>

  /** Others never add, remove or renumber backends. */
  ghost predicate KeepsIdentity(w: World) {
    forall k, pool :: |w(k, pool)| == |pool| && (Numbered(pool) ==> Numbered(w(k, pool)))
  }

  ghost predicate Quiet(w: World) {
    forall k, pool :: w(k, pool) == pool
  }

  /** Positions in a pool of `n`, each at most once. */
  predicate Listed(ids: seq<nat>, n: nat) {
    && (forall i, j :: 0 <= i < j < |ids| ==> ids[i] != ids[j])
    && (forall i :: 0 <= i < |ids| ==> ids[i] < n)
  }

  /** Positions in a pool of `n`, in the pool's order. */
  predicate InPoolOrder(ids: seq<nat>, n: nat) {
    && (forall i, j :: 0 <= i < j < |ids| ==> ids[i] < ids[j])
    && (forall i :: 0 <= i < |ids| ==> ids[i] < n)
  }

  /** Healthy, and the breaker lets traffic through at this reading. */
  predicate Offered(r: Replica, cfg: Config, now: nat) {
    r.healthy && IsRoutable(r.breaker, cfg, now).1
  }

  /** The replica after being asked: only a healthy one's breaker is looked at. */
  function Asked(r: Replica, cfg: Config, now: nat): Replica {
    if r.healthy then r.(breaker := IsRoutable(r.breaker, cfg, now).0) else r
  }

  function AskedUpTo(pool: seq<Replica>, cfg: Config, clock: nat -> nat, n: nat): (p: seq<Replica>)
    requires n <= |pool|
    ensures |p| == |pool|
  {
    seq(|pool|, i requires 0 <= i < |pool| => if i < n then Asked(pool[i], cfg, clock(i)) else pool[i])
  }

  function PeersAt(pool: seq<Replica>, ids: seq<nat>): (ps: seq<Peer>)
    requires forall i :: 0 <= i < |ids| ==> ids[i] < |pool|
    ensures |ps| == |ids| && forall i :: 0 <= i < |ids| ==> ps[i] == pool[ids[i]].peer
  {
    seq(|ids|, i requires 0 <= i < |ids| => pool[ids[i]].peer)
  }

  function Without(ids: seq<nat>, id: nat): (r: seq<nat>)
    ensures forall x :: x in r <==> x in ids && x != id
    ensures |r| <= |ids| && (id in ids ==> |r| < |ids|)
  {
    if ids == [] then []
    else
      assert ids == ids[..|ids| - 1] + [ids[|ids| - 1]];
      Without(ids[..|ids| - 1], id) + if ids[|ids| - 1] == id then [] else [ids[|ids| - 1]]
  }

  lemma {:induction false} WithoutStaysInOrder(ids: seq<nat>, id: nat, n: nat)
    requires InPoolOrder(ids, n)
    ensures InPoolOrder(Without(ids, id), n)
  {
    if ids == [] {
    } else {
      var init, last := ids[..|ids| - 1], ids[|ids| - 1];
      WithoutStaysInOrder(init, id, n);
      forall x | x in Without(init, id) ensures x < last {
        assert x in init;
      }
      OrderOneMore(Without(init, id), last, n);
    }
  }

  /** The candidates left after these claims. */
  function Remaining(offered: seq<nat>, claims: seq<nat>): seq<nat> {
    if claims == [] then offered else Without(Remaining(offered, claims[..|claims| - 1]), claims[|claims| - 1])
  }

  /** The offered backends are those claimed so far and those still to be tried, each at most once. */
  ghost predicate Parted(offered: seq<nat>, claims: seq<nat>, ids: seq<nat>, n: nat) {
    && Listed(claims, n) && InPoolOrder(ids, n) && ids == Remaining(offered, claims)
    && (forall x :: x in claims ==> x !in ids)
    && (forall x :: x in offered <==> x in claims || x in ids)
    && |claims| + |ids| <= |offered|
  }

  lemma PartOneMore(offered: seq<nat>, claims: seq<nat>, ids: seq<nat>, n: nat, id: nat)
    requires Parted(offered, claims, ids, n) && id in ids && id < n
    ensures Parted(offered, claims + [id], Without(ids, id), n)
    ensures forall adm :: ClaimsAreFrom(offered, claims + [id], n, Some((id, adm)))
  {
    ListOneMore(claims, id, n);
    WithoutStaysInOrder(ids, id, n);
    assert (claims + [id])[..|claims|] == claims;
  }

  function Token(r: Option<(nat, Admission)>): Option<Admission> {
    if r.Some? then Some(r.value.1) else None
  }

  /** Each candidate is claimed at most once; the answer is the last one claimed, and there is none only
      when every candidate was claimed. */
  predicate ClaimsAreFrom(offered: seq<nat>, claims: seq<nat>, n: nat, r: Option<(nat, Admission)>) {
    && Listed(claims, n)
    && |claims| <= |offered|
    && (forall x :: x in claims ==> x in offered)
    && (r.None? ==> forall x :: x in offered ==> x in claims)
    && (r.Some? ==> claims != [] && claims[|claims| - 1] == r.value.0)
  }

  /** A backend found available and not touched since is granted its claim, at any reading. */
  lemma OfferedIsGranted(pool: seq<Replica>, cfg: Config, clock: nat -> nat, id: nat, now: nat)
    requires IsAvailable(pool, cfg, clock, id)
    ensures TryBegin(AskedUpTo(pool, cfg, clock, |pool|)[id].breaker, cfg, now).1.Some?
  {
  }

  /** The claim `adm` on backend `id` is what its breaker answered at `now`, in the state `p` the claim
      found, and it left `p'`. */
  predicate Claimed(p: seq<Replica>, p': seq<Replica>, cfg: Config, id: nat, now: nat, adm: Option<Admission>) {
    && id < |p|
    && adm == TryBegin(p[id].breaker, cfg, now).1
    && p' == p[id := p[id].(breaker := TryBegin(p[id].breaker, cfg, now).0)]
  }

  /** With its counter at `turn` and the pool as it stood, the strategy answered `id` for candidates `ids`. */
  ghost predicate Picked(s: Strategy, turn: nat, body: Option<PrefixRouting.Json>, draw: real,
                         pool: seq<Replica>, ids: seq<nat>, id: nat) {
    InPoolOrder(ids, |pool|) && s.Answers(turn, body, draw, PeersAt(pool, ids), id)
  }

  /** Counter, draw, pool, candidates and answer, as one relation. */
  type Rule = (nat, real, seq<Replica>, seq<nat>, nat) -> bool

  ghost function RuleOf(s: Strategy, body: Option<PrefixRouting.Json>): Rule {
    (turn: nat, draw, pool, ids, id: nat) => Picked(s, turn, body, draw, pool, ids, id)
  }

  /** Whatever strategy `s` picks, the rule allows. */
  ghost predicate Allows(rule: Rule, s: Strategy, body: Option<PrefixRouting.Json>) {
    forall turn: nat, draw, pool, ids, id: nat :: Picked(s, turn, body, draw, pool, ids, id) ==>
      rule(turn, draw, pool, ids, id)
  }

  /** What a claiming loop runs on; its first claim is at step `first`. */
  datatype Setting = Setting(rule: Rule, draws: nat -> real, world: World, cfg: Config, clock: nat -> nat, first: nat)
  {
    function StepOf(k: nat): nat {
      first + 2 * k
    }

    /** The pool the strategy is asked on at claim `k`, and the one the claim itself finds: others have had
        another turn at it in between. */
    function Asked(k: nat, pool: seq<Replica>): seq<Replica> {
      world(StepOf(k), pool)
    }

    function Met(k: nat, pool: seq<Replica>): seq<Replica> {
      world(StepOf(k) + 1, Asked(k, pool))
    }
  }

  /** Claim after claim: `pools[k]` and `turns[k]` are the pool and the strategy's counter before claim `k`,
      which went to backend `claims[k]`. */
  datatype Trail = Trail(pools: seq<seq<Replica>>, turns: seq<nat>, claims: seq<nat>)
  {
    predicate WellFormed() {
      |pools| == |claims| + 1 && |turns| == |claims| + 1
    }

    function Add(pool: seq<Replica>, turn: nat, id: nat): Trail {
      Trail(pools + [pool], turns + [turn], claims + [id])
    }
  }

  /** Claim `k` went to the rule's pick among the candidates then left. */
  ghost predicate PickedAt(x: Setting, trail: Trail, offered: seq<nat>, k: nat)
    requires trail.WellFormed() && k < |trail.claims|
  {
    x.rule(trail.turns[k], x.draws(x.StepOf(k)), x.Asked(k, trail.pools[k]), Remaining(offered, trail.claims[..k]),
           trail.claims[k])
  }

  /** It was answered `adm` by that backend's breaker, as others had left it by then. */
  ghost predicate AnsweredAt(x: Setting, trail: Trail, k: nat, adm: Option<Admission>)
    requires trail.WellFormed() && k < |trail.claims|
  {
    Claimed(x.Met(k, trail.pools[k]), trail.pools[k + 1], x.cfg, trail.claims[k], x.clock(x.StepOf(k)), adm)
  }

  /** Every claim went to the rule's pick, and all were refused but the last, which was answered `last`. */
  ghost predicate Followed(x: Setting, trail: Trail, offered: seq<nat>, last: Option<Admission>) {
    && trail.WellFormed()
    && forall k: nat :: k < |trail.claims| ==>
         && PickedAt(x, trail, offered, k)
         && AnsweredAt(x, trail, k, if k == |trail.claims| - 1 then last else None)
  }

  lemma FollowedBefore(x: Setting, trail: Trail, offered: seq<nat>, pool: seq<Replica>, turn: nat, id: nat, k: nat)
    requires trail.WellFormed() && k < |trail.claims|
    ensures PickedAt(x, trail.Add(pool, turn, id), offered, k) == PickedAt(x, trail, offered, k)
    ensures forall adm :: AnsweredAt(x, trail.Add(pool, turn, id), k, adm) == AnsweredAt(x, trail, k, adm)
  {
    assert trail.Add(pool, turn, id).claims[..k] == trail.claims[..k];
  }

  lemma FollowOneMore(x: Setting, trail: Trail, offered: seq<nat>, step: nat, pool: seq<Replica>, turn: nat, id: nat,
                      adm: Option<Admission>)
    requires Followed(x, trail, offered, None) && step == x.StepOf(|trail.claims|)
    requires var k := |trail.claims|;
             && x.rule(trail.turns[k], x.draws(step), x.world(step, trail.pools[k]),
                       Remaining(offered, trail.claims), id)
             && Claimed(x.world(step + 1, x.world(step, trail.pools[k])), pool, x.cfg, id, x.clock(step), adm)
    ensures Followed(x, trail.Add(pool, turn, id), offered, adm)
  {
    var trail' := trail.Add(pool, turn, id);
    forall k: nat | k < |trail'.claims|
      ensures PickedAt(x, trail', offered, k)
      ensures AnsweredAt(x, trail', k, if k == |trail.claims| then adm else None)
    {
      if k < |trail.claims| {
        FollowedBefore(x, trail, offered, pool, turn, id, k);
      } else {
        assert trail'.claims[..k] == trail.claims;
      }
    }
  }

  /** The claiming loop's state: every claim so far was refused, `ids` are left to try, and pool and counter
      stand as the trail ends. */
  ghost predicate StillTrying(x: Setting, trail: Trail, offered: seq<nat>, ids: seq<nat>, pool: seq<Replica>,
                              turn: nat) {
    && Followed(x, trail, offered, None)
    && Parted(offered, trail.claims, ids, |pool|)
    && trail.pools[|trail.claims|] == pool && trail.turns[|trail.claims|] == turn
  }

  /** One more claim either leaves the loop's state with one candidate fewer or ends it. */
  lemma TryOneMore(x: Setting, trail: Trail, offered: seq<nat>, ids: seq<nat>, pool: seq<Replica>, turn: nat,
                   step: nat, pool': seq<Replica>, turn': nat, id: nat, adm: Option<Admission>)
    requires StillTrying(x, trail, offered, ids, pool, turn) && step == x.StepOf(|trail.claims|)
    requires |pool'| == |pool| && id in ids && id < |pool|
    requires x.rule(turn, x.draws(step), x.world(step, pool), ids, id)
    requires Claimed(x.world(step + 1, x.world(step, pool)), pool', x.cfg, id, x.clock(step), adm)
    ensures var trail' := trail.Add(pool', turn', id);
            && Followed(x, trail', offered, adm)
            && SameStart(trail, trail')
            && trail'.pools[|trail'.claims|] == pool'
            && (adm.None? ==> StillTrying(x, trail', offered, Without(ids, id), pool', turn'))
            && forall token :: ClaimsAreFrom(offered, trail'.claims, |pool'|, Some((id, token)))
  {
    PartOneMore(offered, trail.claims, ids, |pool|, id);
    FollowOneMore(x, trail, offered, step, pool', turn', id, adm);
  }

  predicate SameStart(a: Trail, b: Trail) {
    a.WellFormed() && b.WellFormed() && a.pools[0] == b.pools[0] && a.turns[0] == b.turns[0]
  }

  lemma AskOneMore(pool: seq<Replica>, cfg: Config, clock: nat -> nat, i: nat)
    requires i < |pool|
    ensures AskedUpTo(pool, cfg, clock, i)[i] == pool[i]
    ensures AskedUpTo(pool, cfg, clock, i + 1) == AskedUpTo(pool, cfg, clock, i)[i := Asked(pool[i], cfg, clock(i))]
  {
  }

  lemma ListOneMore(ids: seq<nat>, id: nat, n: nat)
    requires Listed(ids, n) && id !in ids && id < n
    ensures Listed(ids + [id], n)
    ensures forall x: nat :: x in ids + [id] <==> x in ids || x == id
  {
  }

  lemma OrderOneMore(ids: seq<nat>, id: nat, n: nat)
    requires InPoolOrder(ids, n) && id < n && forall x :: x in ids ==> x < id
    ensures InPoolOrder(ids + [id], n)
    ensures forall x: nat :: x in ids + [id] <==> x in ids || x == id
  {
    forall i | 0 <= i < |ids| ensures ids[i] < id {
      assert ids[i] in ids;
    }
  }

  /** The routable set: of the available backends those under the queue limit, or all of them when
      every one is over it. */
  ghost predicate IsRoutableSet(ids: seq<nat>, pool: seq<Replica>, cfg: Config, clock: nat -> nat, limit: nat) {
    forall i: nat :: i in ids <==>
      && IsAvailable(pool, cfg, clock, i)
      && (pool[i].peer.queue <= limit || AllOver(pool, cfg, clock, limit))
  }

  predicate IsAvailable(pool: seq<Replica>, cfg: Config, clock: nat -> nat, i: nat) {
    i < |pool| && Offered(pool[i], cfg, clock(i))
  }

  ghost predicate AllOver(pool: seq<Replica>, cfg: Config, clock: nat -> nat, limit: nat) {
    forall i: nat :: IsAvailable(pool, cfg, clock, i) ==> pool[i].peer.queue > limit
  }

  class Router {
    var pool: seq<Replica>
    const cfg: Config
    const maxQueueDepth: nat
    const strategy: Strategy

    ghost predicate Valid()
      reads this
    {
      Numbered(pool) && strategy.Serves(|pool|)
    }

    constructor (pool: seq<Replica>, cfg: Config, maxQueueDepth: nat, strategy: Strategy)
      requires Numbered(pool) && strategy.Serves(|pool|)
      ensures Valid() && this.pool == pool && this.cfg == cfg
      ensures this.maxQueueDepth == maxQueueDepth && this.strategy == strategy
    {
      this.pool, this.cfg, this.maxQueueDepth, this.strategy := pool, cfg, maxQueueDepth, strategy;
    }

    /** Ask one backend whether it may be offered. */
    method Ask(i: nat, now: nat) returns (ok: bool)
      requires Valid() && i < |pool|
      modifies this
      ensures Valid() && pool == old(pool)[i := Asked(old(pool)[i], cfg, now)]
      ensures ok == Offered(old(pool)[i], cfg, now)
      ensures !old(pool)[i].healthy ==> pool == old(pool) && !ok
    {
      ok := false;
      if pool[i].healthy {
        var (k, routable) := IsRoutable(pool[i].breaker, cfg, now);
        pool := pool[i := pool[i].(breaker := k)];
        ok := routable;
      }
    }

    /** The available backends, in order. */
    method Available(w: World, clock: nat -> nat) returns (ids: seq<nat>)
      requires Valid() && KeepsIdentity(w)
      modifies this
      ensures Valid() && |pool| == old(|pool|) && InPoolOrder(ids, |pool|)
      ensures Quiet(w) ==> pool == AskedUpTo(old(pool), cfg, clock, |pool|)
      ensures Quiet(w) ==> forall i: nat :: i in ids <==> IsAvailable(old(pool), cfg, clock, i)
    {
      ids := [];
      ghost var start := pool;
      assert AskedUpTo(start, cfg, clock, 0) == start;
      for i := 0 to |pool|
        invariant Valid() && |pool| == |start| && InPoolOrder(ids, i)
        invariant Quiet(w) ==> pool == AskedUpTo(start, cfg, clock, i)
        invariant Quiet(w) ==> forall j: nat :: j in ids <==> j < i && IsAvailable(start, cfg, clock, j)
      {
        pool := w(i, pool);
        var ok := Ask(i, clock(i));
        AskOneMore(start, cfg, clock, i);
        assert Quiet(w) ==> ok == IsAvailable(start, cfg, clock, i);
        if ok {
          OrderOneMore(ids, i, i + 1);
          ids := ids + [i];
        }
      }
    }

    /** Those of the available backends that report no more waiting requests than the limit. */
    method UnderLimit(available: seq<nat>, w: World, step: nat) returns (ids: seq<nat>)
      requires Valid() && KeepsIdentity(w) && InPoolOrder(available, |pool|)
      modifies this
      ensures Valid() && |pool| == old(|pool|) && InPoolOrder(ids, |pool|)
      ensures forall x :: x in ids ==> x in available
      ensures Quiet(w) ==> pool == old(pool)
      ensures Quiet(w) ==>
              forall i :: i in ids <==> i in available && i < |pool| && pool[i].peer.queue <= maxQueueDepth
    {
      ids := [];
      ghost var start := pool;
      for j := 0 to |available|
        invariant Valid() && |pool| == |start| && InPoolOrder(ids, |pool|)
        invariant forall x :: x in ids ==> x in available[..j]
        invariant Quiet(w) ==> pool == start
        invariant Quiet(w) ==>
            forall x :: x in ids <==> x in available[..j] && x < |start| && start[x].peer.queue <= maxQueueDepth
      {
        pool := w(step + j, pool);
        assert available[..j + 1] == available[..j] + [available[j]];
        assert forall x :: x in available[..j] ==> x < available[j];
        if pool[available[j]].peer.queue <= maxQueueDepth {
          OrderOneMore(ids, available[j], |pool|);
          ids := ids + [available[j]];
        }
      }
      assert available[..|available|] == available;
    }

    method Routable(w: World, clock: nat -> nat) returns (ids: seq<nat>)
      requires Valid() && KeepsIdentity(w)
      modifies this
      ensures Valid() && |pool| == old(|pool|) && InPoolOrder(ids, |pool|)
      ensures Quiet(w) ==> pool == AskedUpTo(old(pool), cfg, clock, |pool|)
      ensures Quiet(w) ==> IsRoutableSet(ids, old(pool), cfg, clock, maxQueueDepth)
    {
      var available := Available(w, clock);
      var under := UnderLimit(available, w, |pool|);
      ids := if under == [] then available else under;
      if Quiet(w) {
        SoftLimit(old(pool), cfg, clock, maxQueueDepth, available, under);
      }
    }

    /** The strategy's answer, and it is among the candidates: the branch for any other id is never taken. */
    method Pick(ids: seq<nat>, body: Option<PrefixRouting.Json>, draw: real) returns (id: nat)
      requires Valid() && InPoolOrder(ids, |pool|) && ids != [] && 0.0 <= draw < 1.0
      modifies strategy.Frame()
      ensures Valid() && pool == old(pool) && id in ids
      ensures strategy.Answers(old(strategy.Turn()), body, draw, PeersAt(pool, ids), id)
      ensures strategy.Turn() == strategy.TurnAfter(old(strategy.Turn()), PeersAt(pool, ids))
    {
      var ps := PeersAt(pool, ids);
      var pick := Choose(strategy, body, draw, ps, |pool|);
      id := pick.value;
      ghost var i :| 0 <= i < |ps| && ps[i].id == id;
      assert ids[i] == id;
    }

    /** One claim of the loop: the strategy's pick among the candidates, and its breaker's answer. */
    method Claim(ids: seq<nat>, body: Option<PrefixRouting.Json>, draw: real, w: World, step: nat, now: nat)
      returns (id: nat, adm: Option<Admission>)
      requires Valid() && KeepsIdentity(w) && InPoolOrder(ids, |pool|) && ids != [] && 0.0 <= draw < 1.0
      modifies this, strategy.Frame()
      ensures Valid() && |pool| == old(|pool|)
      ensures id in ids && id < |pool|
      ensures Picked(strategy, old(strategy.Turn()), body, draw, w(step, old(pool)), ids, id)
      ensures Claimed(w(step + 1, w(step, old(pool))), pool, cfg, id, now, adm)
    {
      pool := w(step, pool);
      id := Pick(ids, body, draw);
      pool := w(step + 1, pool);
      var (k, granted) := TryBegin(pool[id].breaker, cfg, now);
      pool := pool[id := pool[id].(breaker := k)];
      adm := granted;
    }

    /** One round of the loop: claim, and extend the trail by it. */
    method ClaimNext(ghost offered: seq<nat>, ids: seq<nat>, body: Option<PrefixRouting.Json>, draws: nat -> real,
                     w: World, clock: nat -> nat, step: nat, ghost x: Setting, ghost trail: Trail)
      returns (id: nat, adm: Option<Admission>, ghost trail': Trail)
      requires Valid() && KeepsIdentity(w) && ids != []
      requires forall k :: 0.0 <= draws(k) < 1.0
      requires Allows(x.rule, strategy, body) && x == Setting(x.rule, draws, w, cfg, clock, x.first)
      requires StillTrying(x, trail, offered, ids, pool, strategy.Turn()) && step == x.StepOf(|trail.claims|)
      modifies this, strategy.Frame()
      ensures Valid() && |pool| == old(|pool|) && id in ids
      ensures trail' == trail.Add(pool, strategy.Turn(), id) && SameStart(trail, trail')
      ensures Followed(x, trail', offered, adm)
      ensures adm.Some? ==> ClaimsAreFrom(offered, trail'.claims, |pool|, Some((id, adm.value)))
      ensures adm.None? ==> StillTrying(x, trail', offered, Without(ids, id), pool, strategy.Turn())
    {
      ghost var before, turn := pool, strategy.Turn();
      id, adm := Claim(ids, body, draws(step), w, step, clock(step));
      TryOneMore(x, trail, offered, ids, before, turn, step, pool, strategy.Turn(), id, adm);
      trail' := trail.Add(pool, strategy.Turn(), id);
    }

    /** The claiming loop, whatever others do: at most one claim per candidate, on distinct backends, each
        the strategy's pick among the candidates left and answered by its breaker as the claim found it,
        and nothing is returned only when every candidate has been claimed and refused. */
    method ClaimInTurn(offered: seq<nat>, body: Option<PrefixRouting.Json>, draws: nat -> real, w: World,
                       clock: nat -> nat)
      returns (r: Option<(nat, Admission)>, ghost trail: Trail)
      requires Valid() && KeepsIdentity(w) && InPoolOrder(offered, |pool|)
      requires forall k :: 0.0 <= draws(k) < 1.0
      modifies this, strategy.Frame()
      ensures Valid() && |pool| == old(|pool|)
      ensures Followed(SettingOf(body, draws, w, clock), trail, offered, Token(r))
      ensures ClaimsAreFrom(offered, trail.claims, |pool|, r)
      ensures trail.pools[0] == old(pool) && trail.pools[|trail.claims|] == pool
      ensures trail.turns[0] == old(strategy.Turn())
    {
      ghost var x := SettingOf(body, draws, w, clock);
      ghost var start := Trail([pool], [strategy.Turn()], []);
      trail := start;
      var ids, step: nat := offered, 2 * |pool|;
      while ids != []
        invariant Valid() && |pool| == old(|pool|) && step == x.StepOf(|trail.claims|) && SameStart(start, trail)
        invariant StillTrying(x, trail, offered, ids, pool, strategy.Turn())
        decreases |ids|
      {
        var id, adm;
        id, adm, trail := ClaimNext(offered, ids, body, draws, w, clock, step, x, trail);
        if adm.Some? {
          return Some((id, adm.value)), trail;
        }
        ids := Without(ids, id);
        step := step + 2;
      }
      r := None;
    }

    /** What the loop runs on: the routable set takes two steps for each backend of the pool. */
    ghost function SettingOf(body: Option<PrefixRouting.Json>, draws: nat -> real, w: World, clock: nat -> nat): Setting
      reads this`pool
    {
      Setting(RuleOf(strategy, body), draws, w, cfg, clock, 2 * |pool|)
    }

    /** Build the routable set and claim from it in turn.  In a quiet world nothing is returned if and
        only if every backend is unhealthy or its breaker turns requests away, however deep the queues;
        otherwise the first claim succeeds, on the strategy's answer for the routable set, with the token
        its breaker hands out then. */
    method SelectBackend(body: Option<PrefixRouting.Json>, draws: nat -> real, w: World, clock: nat -> nat)
      returns (r: Option<(nat, Admission)>, ghost offered: seq<nat>, ghost trail: Trail)
      requires Valid() && KeepsIdentity(w)
      requires forall k :: 0.0 <= draws(k) < 1.0
      modifies this, strategy.Frame()
      ensures Valid() && |pool| == old(|pool|)
      ensures Followed(SettingOf(body, draws, w, clock), trail, offered, Token(r))
      ensures InPoolOrder(offered, |pool|) && ClaimsAreFrom(offered, trail.claims, |pool|, r)
      ensures trail.pools[|trail.claims|] == pool && trail.turns[0] == old(strategy.Turn())
      ensures Quiet(w) ==> IsRoutableSet(offered, old(pool), cfg, clock, maxQueueDepth)
      ensures Quiet(w) ==> (r.None? <==> AllRefuse(old(pool), cfg, clock))
      ensures Quiet(w) && r.Some? ==>
              && trail.claims == [r.value.0]
              && strategy.Answers(old(strategy.Turn()), body, draws(2 * |pool|), PeersAt(old(pool), offered), r.value.0)
              && Claimed(AskedUpTo(old(pool), cfg, clock, |pool|), pool, cfg, r.value.0, clock(2 * |pool|), Token(r))
    {
      var ids := Routable(w, clock);
      offered := ids;
      r, trail := ClaimInTurn(ids, body, draws, w, clock);
      if Quiet(w) {
        var x := SettingOf(body, draws, w, clock);
        FirstClaimIsGranted(x, maxQueueDepth, old(pool), offered, trail, r);
        if r.Some? {
          FirstPick(strategy, body, x, old(pool), offered, trail);
        }
      }
    }
  }

  /** Every backend is unhealthy, or its breaker is inside its open period or half-open with its probe out. */
  predicate AllRefuse(pool: seq<Replica>, cfg: Config, clock: nat -> nat) {
    forall i :: 0 <= i < |pool| ==> !pool[i].healthy || TurnsAway(pool[i].breaker, cfg, clock(i))
  }

  /** Asking changes nothing a strategy looks at. */
  lemma PeersUnmoved(pool: seq<Replica>, cfg: Config, clock: nat -> nat, ids: seq<nat>)
    requires InPoolOrder(ids, |pool|)
    ensures PeersAt(AskedUpTo(pool, cfg, clock, |pool|), ids) == PeersAt(pool, ids)
  {
  }

  /** In a quiet world the first claim goes to the strategy's answer for the offered backends. */
  lemma FirstPick(s: Strategy, body: Option<PrefixRouting.Json>, x: Setting, start: seq<Replica>,
                  offered: seq<nat>, trail: Trail)
    requires Quiet(x.world) && x.rule == RuleOf(s, body) && InPoolOrder(offered, |start|)
    requires trail.WellFormed() && trail.claims != [] && PickedAt(x, trail, offered, 0)
    requires trail.pools[0] == AskedUpTo(start, x.cfg, x.clock, |start|)
    ensures s.Answers(trail.turns[0], body, x.draws(x.first), PeersAt(start, offered), trail.claims[0])
  {
    assert x.StepOf(0) == x.first && trail.claims[..0] == [];
    assert x.Asked(0, trail.pools[0]) == trail.pools[0];
    PeersUnmoved(start, x.cfg, x.clock, offered);
  }

  /** Least connections, in terms of the pool: no backend of the set has fewer than the one answered, and
      among equals it is the first. */
  lemma LeastBusyIsAnswered(pool: seq<Replica>, ids: seq<nat>, id: nat)
    requires Numbered(pool) && InPoolOrder(ids, |pool|) && FewestConnections(PeersAt(pool, ids), id)
    ensures id in ids && forall x :: x in ids ==> pool[id].peer.active <= pool[x].peer.active
    ensures forall x :: x in ids && x < id ==> pool[id].peer.active < pool[x].peer.active
  {
    var ps := PeersAt(pool, ids);
    var i :| 0 <= i < |ps| && ps[i].id == id
             && (forall j :: 0 <= j < |ps| ==> ps[i].active <= ps[j].active)
             && (forall j :: 0 <= j < i ==> ps[i].active < ps[j].active);
    assert ids[i] == id;
    forall x | x in ids ensures pool[id].peer.active <= pool[x].peer.active
      ensures x < id ==> pool[id].peer.active < pool[x].peer.active
    {
      var j :| 0 <= j < |ids| && ids[j] == x;
      assert ps[j].active == pool[x].peer.active;
    }
  }

  /** In a quiet world the first claim on the routable set is granted. */
  lemma FirstClaimIsGranted(x: Setting, limit: nat, start: seq<Replica>, offered: seq<nat>, trail: Trail,
                            r: Option<(nat, Admission)>)
    requires Quiet(x.world) && IsRoutableSet(offered, start, x.cfg, x.clock, limit)
    requires Followed(x, trail, offered, Token(r)) && ClaimsAreFrom(offered, trail.claims, |start|, r)
    requires trail.pools[0] == AskedUpTo(start, x.cfg, x.clock, |start|)
    ensures r.None? <==> AllRefuse(start, x.cfg, x.clock)
    ensures r.Some? ==>
            && trail.claims == [r.value.0]
            && PickedAt(x, trail, offered, 0)
            && Claimed(trail.pools[0], trail.pools[1], x.cfg, r.value.0, x.clock(x.first), Token(r))
  {
    RoutableSetIsEmptyIff(offered, start, x.cfg, x.clock, limit);
    if trail.claims == [] {
      assert offered == [];
    } else {
      assert trail.claims[0] in trail.claims && trail.claims[0] in offered;
      OfferedIsGranted(start, x.cfg, x.clock, trail.claims[0], x.clock(x.first));
      assert PickedAt(x, trail, offered, 0);
      assert AnsweredAt(x, trail, 0, if 0 == |trail.claims| - 1 then Token(r) else None);
      assert x.StepOf(0) == x.first && x.Met(0, trail.pools[0]) == trail.pools[0];
    }
  }

  lemma SoftLimit(pool: seq<Replica>, cfg: Config, clock: nat -> nat, limit: nat, available: seq<nat>, under: seq<nat>)
    requires forall i: nat :: i in available <==> IsAvailable(pool, cfg, clock, i)
    requires forall i: nat :: i in under <==> i in available && i < |pool| && pool[i].peer.queue <= limit
    ensures IsRoutableSet(if under == [] then available else under, pool, cfg, clock, limit)
  {
    if under == [] {
      assert AllOver(pool, cfg, clock, limit) by {
        forall i: nat | IsAvailable(pool, cfg, clock, i) ensures pool[i].peer.queue > limit {
          assert i !in under;
        }
      }
    } else {
      assert under[0] in under && IsAvailable(pool, cfg, clock, under[0]);
    }
  }

  /** The set is empty if and only if every backend refuses, however deep the queues. */
  lemma RoutableSetIsEmptyIff(ids: seq<nat>, pool: seq<Replica>, cfg: Config, clock: nat -> nat, limit: nat)
    requires IsRoutableSet(ids, pool, cfg, clock, limit)
    ensures ids == [] <==> AllRefuse(pool, cfg, clock)
  {
    forall i: nat | i < |pool|
      ensures IsAvailable(pool, cfg, clock, i) <==> pool[i].healthy && !TurnsAway(pool[i].breaker, cfg, clock(i))
    {
      RoutableIffGranted(pool[i].breaker, cfg, clock(i));
    }
    if ids == [] {
      assert AllOver(pool, cfg, clock, limit) by {
        forall i: nat | IsAvailable(pool, cfg, clock, i) ensures pool[i].peer.queue > limit {
          assert i !in ids;
        }
      }
      forall i: nat | i < |pool| ensures !IsAvailable(pool, cfg, clock, i) {
        assert i !in ids;
      }
    } else {
      assert ids[0] in ids && IsAvailable(pool, cfg, clock, ids[0]);
    }
  }
}

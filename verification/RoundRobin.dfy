/**
 Weighted round-robin: a counter reduced to a slot in 0..total_weight, and the backend owning that
 slot.  The counter is unbounded (no wrap-around).
 */
module RoundRobin {
  import opened Cyclic
  import opened Options
  import opened Peers

  function TotalWeight(ps: seq<Peer>): (t: nat)
    ensures t >= |ps|
  {
    if ps == [] then 0 else TotalWeight(ps[..|ps| - 1]) + Share(ps[|ps| - 1])
  }

  /** Backend `i` owns the slots from the total of the weights before it, as many as its weight. */
  predicate Owns(ps: seq<Peer>, i: nat, slot: nat)
    requires i < |ps|
  {
    TotalWeight(ps[..i]) <= slot < TotalWeight(ps[..i + 1])
  }

  lemma {:induction false} WeightsGrow(ps: seq<Peer>, i: nat, j: nat)
    requires i <= j <= |ps|
    ensures TotalWeight(ps[..i]) <= TotalWeight(ps[..j])
  {
    if i < j {
      WeightsGrow(ps, i, j - 1);
      assert ps[..j][..j - 1] == ps[..j - 1];
    }
  }

  /** Weights add up from nothing, a weight of 0 counting as 1. */
  lemma SlotWidth(ps: seq<Peer>, i: nat)
    requires i < |ps|
    ensures TotalWeight(ps[..0]) == 0
    ensures TotalWeight(ps[..i + 1]) == TotalWeight(ps[..i]) + Share(ps[i])
    ensures Share(ps[i]) == if ps[i].weight < 1 then 1 else ps[i].weight
  {
    assert ps[..i + 1][..i] == ps[..i];
  }

  lemma OwnerIsUnique(ps: seq<Peer>, i: nat, j: nat, slot: nat)
    requires i < |ps| && j < |ps| && Owns(ps, i, slot) && Owns(ps, j, slot)
    ensures i == j
  {
    if i < j {
      WeightsGrow(ps, i + 1, j);
    } else if j < i {
      WeightsGrow(ps, j + 1, i);
    }
  }

  /** The loop: subtract weights until the slot falls inside one. */
  method WeightedPick(slot: nat, ps: seq<Peer>) returns (r: Option<nat>)
    ensures slot >= TotalWeight(ps) ==> r == None
    ensures slot < TotalWeight(ps) ==> exists i :: 0 <= i < |ps| && Owns(ps, i, slot) && r == Some(ps[i].id)
  {
    var left: nat := slot;
    for i := 0 to |ps|
      invariant left + TotalWeight(ps[..i]) == slot
    {
      SlotWidth(ps, i);
      if left < Share(ps[i]) {
        WeightsGrow(ps, i + 1, |ps|);
        assert ps[..|ps|] == ps;
        assert Owns(ps, i, slot);
        return Some(ps[i].id);
      }
      left := left - Share(ps[i]);
    }
    assert ps[..|ps|] == ps;
    return None;
  }

  /** The position owning a slot. */
  function Owner(ps: seq<Peer>, slot: nat): (i: nat)
    requires slot < TotalWeight(ps)
    ensures i < |ps|
  {
    if TotalWeight(ps[..|ps| - 1]) <= slot then |ps| - 1 else Owner(ps[..|ps| - 1], slot)
  }

  lemma {:induction false} OwnerOwns(ps: seq<Peer>, slot: nat)
    requires slot < TotalWeight(ps)
    ensures Owns(ps, Owner(ps, slot), slot)
  {
    var last := |ps| - 1;
    assert ps[..|ps|] == ps && ps[..last + 1] == ps;
    if TotalWeight(ps[..last]) > slot {
      OwnerOwns(ps[..last], slot);
      var i := Owner(ps[..last], slot);
      assert ps[..last][..i] == ps[..i] && ps[..last][..i + 1] == ps[..i + 1];
    }
  }

  /** Who is chosen when the counter stands at `c`. */
  function Chosen(ps: seq<Peer>, c: nat): (i: nat)
    requires ps != []
    ensures i < |ps|
  {
    Owner(ps, Wrap(c, TotalWeight(ps)))
  }

  /** That is the backend whose weight, laid after the weights before it, covers the counter's slot. */
  lemma ChosenOwnsItsSlot(ps: seq<Peer>, c: nat)
    requires ps != []
    ensures var i := Chosen(ps, c);
            TotalWeight(ps[..i]) <= c % TotalWeight(ps) < TotalWeight(ps[..i + 1])
  {
    WrapIsRemainder(c, TotalWeight(ps));
    OwnerOwns(ps, Wrap(c, TotalWeight(ps)));
  }

  /** The pick for a counter value: reduce it to a slot, then find the owner. */
  method PickAt(c: nat, ps: seq<Peer>) returns (r: Option<nat>)
    requires ps != []
    ensures r == Some(ps[Chosen(ps, c)].id)
  {
    var slot := Wrap(c, TotalWeight(ps));
    r := WeightedPick(slot, ps);
    ghost var i :| 0 <= i < |ps| && Owns(ps, i, slot) && r == Some(ps[i].id);
    OwnerOwns(ps, slot);
    OwnerIsUnique(ps, i, Owner(ps, slot), slot);
  }

  class Selector {
    var counter: nat

    constructor ()
      ensures counter == 0
    {
      counter := 0;
    }

    method Select(ps: seq<Peer>) returns (r: Option<nat>)
      modifies this
      ensures ps == [] ==> r == None && counter == old(counter)
      ensures ps != [] ==> r == Some(ps[Chosen(ps, old(counter))].id) && counter == old(counter) + 1
    {
      if TotalWeight(ps) == 0 {
        return None;
      }
      counter := counter + 1;
      r := PickAt(counter - 1, ps);
    }
  }

  // ------------------------------------------------------------- exact shares

  function Chooses(ps: seq<Peer>, i: nat): nat -> bool
    requires ps != []
  {
    (c: nat) => Chosen(ps, c) == i
  }

  /** How many of the calls made at counter values `c, ..., c + n - 1` choose backend `i`. */
  function Picks(ps: seq<Peer>, i: nat, c: nat, n: nat): nat
    requires ps != []
  {
    Hits(Chooses(ps, i), c, n)
  }

  lemma ChosenIff(ps: seq<Peer>, i: nat, slot: nat)
    requires i < |ps| && slot < TotalWeight(ps)
    ensures Chooses(ps, i)(slot) <==> Owns(ps, i, slot)
  {
    OwnerOwns(ps, slot);
    if Owns(ps, i, slot) {
      OwnerIsUnique(ps, i, Owner(ps, slot), slot);
    }
  }

  function Overlap(lo: nat, hi: nat, n: nat): nat
    requires lo <= hi
  {
    if n <= lo then 0 else if n <= hi then n - lo else hi - lo
  }

  /** Among the first `n` slots, backend `i` owns those that fall in its range. */
  lemma {:induction false} PicksFromZero(ps: seq<Peer>, i: nat, n: nat)
    requires i < |ps| && n <= TotalWeight(ps)
    ensures TotalWeight(ps[..i]) <= TotalWeight(ps[..i + 1])
    ensures Picks(ps, i, 0, n) == Overlap(TotalWeight(ps[..i]), TotalWeight(ps[..i + 1]), n)
  {
    SlotWidth(ps, i);
    if n == 0 {
    } else {
      PicksFromZero(ps, i, n - 1);
      ChosenIff(ps, i, n - 1);
      assert 0 + (n - 1) == n - 1;
    }
  }

  lemma ChoicesRepeat(ps: seq<Peer>, i: nat)
    requires ps != []
    ensures Periodic(Chooses(ps, i), TotalWeight(ps))
  {
  }

  lemma FirstTurnIsExact(ps: seq<Peer>, i: nat)
    requires i < |ps|
    ensures Picks(ps, i, 0, TotalWeight(ps)) == Share(ps[i])
  {
    PicksFromZero(ps, i, TotalWeight(ps));
    SlotWidth(ps, i);
    WeightsGrow(ps, i + 1, |ps|);
    assert ps[..|ps|] == ps;
  }

  /** Any full turn of the counter, from any start, chooses backend `i` exactly `Share` times. */
  lemma FullTurnIsExact(ps: seq<Peer>, i: nat, c: nat)
    requires i < |ps|
    ensures Picks(ps, i, c, TotalWeight(ps)) == Share(ps[i])
  {
    FirstTurnIsExact(ps, i);
    ChoicesRepeat(ps, i);
    PeriodSlides(Chooses(ps, i), TotalWeight(ps), c);
  }

  /** Any `k * total + r` consecutive calls choose backend `i` between `k * w` and `k * w + min(r, w)` times. */
  lemma SharesAreExact(ps: seq<Peer>, i: nat, c: nat, k: nat, r: nat)
    requires i < |ps| && r <= TotalWeight(ps)
    ensures var t, w := TotalWeight(ps), Share(ps[i]);
            k * w <= Picks(ps, i, c, k * t + r) <= k * w + (if r < w then r else w)
  {
    FirstTurnIsExact(ps, i);
    ChoicesRepeat(ps, i);
    PeriodBounds(Chooses(ps, i), TotalWeight(ps), Share(ps[i]), c, k, r);
  }
}

/**
 The latency estimate: an exponentially weighted mean over exact arithmetic, truncated to whole
 microseconds after every update, with 0 meaning "no sample yet".
 */
module Ewma {

  /** The smoothing factors the configuration accepts. */
  predicate Smoothing(alpha: real) {
    0.0 < alpha <= 1.0
  }

  function Mix(alpha: real, sample: real, estimate: real): real {
    alpha * sample + (1.0 - alpha) * estimate
  }

  function Update(estimate: nat, sample: nat, alpha: real): (r: nat)
    requires Smoothing(alpha)
  {
    if estimate == 0 then sample
    else
      MixIsBetween(alpha, sample as real, estimate as real);
      Mix(alpha, sample as real, estimate as real).Floor
  }

  /** A mix lies between its ends; `alpha` is how much of the gap it closes. */
  lemma MixIsBetween(alpha: real, s: real, e: real)
    requires Smoothing(alpha)
    ensures Mix(alpha, s, e) == e + alpha * (s - e)
    ensures e <= s ==> e <= Mix(alpha, s, e) <= s
    ensures s <= e ==> s <= Mix(alpha, s, e) <= e
    ensures s < e ==> Mix(alpha, s, e) < e
  {
    var gap := s - e;
    assert Mix(alpha, s, e) == e + alpha * gap;
    if gap >= 0.0 {
      assert 0.0 <= alpha * gap <= gap;
    }
    if gap <= 0.0 {
      assert gap <= alpha * gap <= 0.0;
    }
    if gap < 0.0 {
      assert alpha * gap < 0.0;
    }
  }

  lemma FloorBounds(x: real, lo: int, hi: int)
    requires lo as real <= x <= hi as real
    ensures lo <= x.Floor <= hi
  {
  }

  /** One update stays between the sample and the estimate. */
  lemma UpdateIsBetween(estimate: nat, sample: nat, alpha: real)
    requires Smoothing(alpha) && estimate > 0
    ensures estimate <= sample ==> estimate <= Update(estimate, sample, alpha) <= sample
    ensures sample <= estimate ==> sample <= Update(estimate, sample, alpha) <= estimate
    ensures sample < estimate ==> Update(estimate, sample, alpha) < estimate
  {
    var x := Mix(alpha, sample as real, estimate as real);
    MixIsBetween(alpha, sample as real, estimate as real);
    if estimate <= sample {
      FloorBounds(x, estimate, sample);
    } else {
      FloorBounds(x, sample, estimate);
      assert x.Floor as real <= x;
    }
  }

  /** The first sample is taken as it is; later ones move the estimate by `alpha` of the gap, rounded
      down to a whole microsecond. */
  lemma UpdateIsRoundedDown(estimate: nat, sample: nat, alpha: real)
    requires Smoothing(alpha)
    ensures estimate == 0 ==> Update(estimate, sample, alpha) == sample
    ensures estimate > 0 ==>
            var moved := Update(estimate, sample, alpha) as real - estimate as real;
            alpha * (sample as real - estimate as real) - 1.0 < moved <= alpha * (sample as real - estimate as real)
  {
    if estimate > 0 {
      MixIsBetween(alpha, sample as real, estimate as real);
    }
  }

  // ------------------------------------------- bounds, with concurrent updates

  /** `update_ewma_latency` loads the estimate and later stores the new one; other requests may do
      the same in between. */
  datatype Event = Load(r: nat) | Store(r: nat, sample: nat)

  datatype Shared = Shared(estimate: nat, loaded: map<nat, nat>)

  function Next(s: Shared, alpha: real, e: Event): Shared
    requires Smoothing(alpha)
  {
    match e
    case Load(r) => s.(loaded := s.loaded[r := s.estimate])
    case Store(r, sample) =>
      if r in s.loaded then Shared(Update(s.loaded[r], sample, alpha), s.loaded - {r}) else s
  }

  function Exec(alpha: real, es: seq<Event>): Shared
    requires Smoothing(alpha)
  {
    if es == [] then Shared(0, map[]) else Next(Exec(alpha, es[..|es| - 1]), alpha, es[|es| - 1])
  }

  predicate InRange(x: nat, lo: nat, hi: nat) {
    x == 0 || lo <= x <= hi
  }

  /** In every interleaving, lost updates included, the estimate is unset or within the range of the
      samples stored. */
  lemma {:induction false} EstimateStaysInRange(alpha: real, es: seq<Event>, lo: nat, hi: nat)
    requires Smoothing(alpha)
    requires forall i :: 0 <= i < |es| && es[i].Store? ==> lo <= es[i].sample <= hi
    ensures InRange(Exec(alpha, es).estimate, lo, hi)
    ensures forall r :: r in Exec(alpha, es).loaded ==> InRange(Exec(alpha, es).loaded[r], lo, hi)
  {
    if es == [] {
    } else {
      EstimateStaysInRange(alpha, es[..|es| - 1], lo, hi);
      var s, e := Exec(alpha, es[..|es| - 1]), es[|es| - 1];
      if e.Store? && e.r in s.loaded && s.loaded[e.r] > 0 {
        UpdateIsBetween(s.loaded[e.r], e.sample, alpha);
      }
    }
  }

  function Fold(alpha: real, samples: seq<nat>): nat
    requires Smoothing(alpha)
  {
    if samples == [] then 0 else Update(Fold(alpha, samples[..|samples| - 1]), samples[|samples| - 1], alpha)
  }

  /** One request at a time: the estimate always lies between two of the samples seen. */
  lemma {:induction false} EstimateWithinSamples(alpha: real, samples: seq<nat>)
    requires Smoothing(alpha) && samples != []
    ensures exists i, j :: 0 <= i < |samples| && 0 <= j < |samples| && samples[i] <= Fold(alpha, samples) <= samples[j]
  {
    var init, last := samples[..|samples| - 1], |samples| - 1;
    var e := Fold(alpha, init);
    if e == 0 {
      assert samples[last] <= Fold(alpha, samples) <= samples[last];
    } else {
      EstimateWithinSamples(alpha, init);
      var i, j :| 0 <= i < |init| && 0 <= j < |init| && init[i] <= e <= init[j];
      assert samples[i] <= e <= samples[j];
      UpdateIsBetween(e, samples[last], alpha);
      if e <= samples[last] {
        assert samples[i] <= Fold(alpha, samples) <= samples[last];
      } else {
        assert samples[last] <= Fold(alpha, samples) <= samples[j];
      }
    }
  }

  // --------------------------------------------------------------- convergence

  /** `n` updates with the same sample. */
  function Repeat(estimate: nat, s: nat, alpha: real, n: nat): nat
    requires Smoothing(alpha)
    decreases n
  {
    if n == 0 then estimate else Repeat(Update(estimate, s, alpha), s, alpha, n - 1)
  }

  /** Below the sample the estimate stands still exactly when the gap is under 1 / alpha. */
  lemma StandsStillIff(e: nat, s: nat, alpha: real)
    requires Smoothing(alpha) && 0 < e < s
    ensures Update(e, s, alpha) == e <==> alpha * (s - e) as real < 1.0
  {
    var gap := alpha * (s - e) as real;
    MixIsBetween(alpha, s as real, e as real);
    assert Mix(alpha, s as real, e as real) == e as real + gap;
    assert gap >= 0.0;
  }

  /** From above the estimate falls to the sample exactly, one microsecond per update at least. */
  lemma {:induction false} ConvergesFromAbove(e: nat, s: nat, alpha: real, n: nat)
    requires Smoothing(alpha) && 0 < s <= e && n >= e - s
    ensures Repeat(e, s, alpha, n) == s
    decreases n
  {
    if n == 0 {
    } else {
      UpdateIsBetween(e, s, alpha);
      ConvergesFromAbove(Update(e, s, alpha), s, alpha, n - 1);
    }
  }

  lemma {:induction false} StandsStill(e: nat, s: nat, alpha: real, n: nat)
    requires Smoothing(alpha) && Update(e, s, alpha) == e
    ensures Repeat(e, s, alpha, n) == e
  {
    if n == 0 {
    } else {
      StandsStill(e, s, alpha, n - 1);
    }
  }

  /** From below it rises without overshooting to a fixed point less than 1 / alpha short. */
  lemma {:induction false} ConvergesFromBelow(e: nat, s: nat, alpha: real, n: nat)
    requires Smoothing(alpha) && 0 < e <= s && n >= s - e
    ensures var f := Repeat(e, s, alpha, n);
            && e <= f <= s
            && Update(f, s, alpha) == f
            && (s - f) as real < 1.0 / alpha
    decreases n
  {
    var e' := Update(e, s, alpha);
    UpdateIsBetween(e, s, alpha);
    if e' == e {
      StandsStill(e, s, alpha, n);
      GapIsSmall(e, s, alpha);
    } else {
      ConvergesFromBelow(e', s, alpha, n - 1);
    }
  }

  lemma GapIsSmall(e: nat, s: nat, alpha: real)
    requires Smoothing(alpha) && 0 < e <= s && Update(e, s, alpha) == e
    ensures (s - e) as real < 1.0 / alpha
  {
  }
}

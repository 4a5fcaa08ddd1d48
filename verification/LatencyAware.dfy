/**
 Latency-aware routing over exact arithmetic: unsampled backends are given the upper median of the
 sampled latencies; a flat pool falls back to weighted round-robin; otherwise one uniform draw in
 [0, 1) picks a backend with probability proportional to weight / latency.
 */
module LatencyAware {
  import opened Options
  import opened Peers
  import opened RoundRobin
  import opened Sorting

  const FLAT_RATIO: real := 1.1

  // ------------------------------------------------------------ the median fill

  function Sampled(ps: seq<Peer>): seq<real> {
    if ps == [] then []
    else Sampled(ps[..|ps| - 1]) + if ps[|ps| - 1].latency > 0 then [ps[|ps| - 1].latency as real] else []
  }

  predicate AtMost(a: real, b: real) { a <= b }

  predicate Ascending(rs: seq<real>) {
    forall i, j :: 0 <= i < j < |rs| ==> rs[i] <= rs[j]
  }

  /** The upper median of the samples; 1.0 when there are none. */
  function Median(samples: seq<real>): real {
    if samples == [] then 1.0 else Sort(AtMost, samples)[|samples| / 2]
  }

  function Latencies(ps: seq<Peer>): (ls: seq<real>)
    ensures |ls| == |ps|
  {
    seq(|ps|, i requires 0 <= i < |ps| =>
      if ps[i].latency > 0 then ps[i].latency as real else Median(Sampled(ps)))
  }

  function Count(f: real -> bool, rs: seq<real>): nat {
    if rs == [] then 0 else Count(f, rs[..|rs| - 1]) + (if f(rs[|rs| - 1]) then 1 else 0)
  }

  lemma {:induction false} CountInsert(f: real -> bool, rs: seq<real>, x: real)
    ensures Count(f, Insert(AtMost, rs, x)) == Count(f, rs) + (if f(x) then 1 else 0)
  {
    if rs != [] {
      var init, last := rs[..|rs| - 1], rs[|rs| - 1];
      if last <= x {
        assert (rs + [x])[..|rs|] == rs;
      } else {
        CountInsert(f, init, x);
        var r := Insert(AtMost, init, x);
        assert (r + [last])[..|r|] == r;
      }
    } else {
      assert [x][..0] == [];
    }
  }

  lemma {:induction false} CountSort(f: real -> bool, rs: seq<real>)
    ensures Count(f, Sort(AtMost, rs)) == Count(f, rs)
  {
    if rs == [] {
    } else {
      CountSort(f, rs[..|rs| - 1]);
      CountInsert(f, Sort(AtMost, rs[..|rs| - 1]), rs[|rs| - 1]);
    }
  }

  /** If `f` fails outside positions `lo..hi`, it holds at most `hi - lo` times. */
  lemma {:induction false} CountWithin(f: real -> bool, rs: seq<real>, lo: nat, hi: nat)
    requires lo <= hi
    requires forall i :: 0 <= i < |rs| && !(lo <= i < hi) ==> !f(rs[i])
    ensures Count(f, rs) <= (if |rs| <= lo then 0 else if |rs| <= hi then |rs| - lo else hi - lo)
  {
    if rs == [] {
    } else {
      CountWithin(f, rs[..|rs| - 1], lo, hi);
    }
  }

  function Under(m: real): real -> bool { (x: real) => x < m }

  function Over(m: real): real -> bool { (x: real) => x > m }

  /** At most half the samples lie below the median, and fewer than half above it. */
  lemma MedianIsUpper(samples: seq<real>)
    requires samples != []
    ensures Count(Under(Median(samples)), samples) <= |samples| / 2
    ensures Count(Over(Median(samples)), samples) <= |samples| - 1 - |samples| / 2
  {
    SortSorts(AtMost, samples);
    MiddleSplits(Sort(AtMost, samples), |samples| / 2);
    CountSort(Under(Median(samples)), samples);
    CountSort(Over(Median(samples)), samples);
  }

  lemma MiddleSplits(s: seq<real>, k: nat)
    requires Ascending(s) && k < |s|
    ensures Count(Under(s[k]), s) <= k && Count(Over(s[k]), s) <= |s| - 1 - k
  {
    CountWithin(Under(s[k]), s, 0, k);
    CountWithin(Over(s[k]), s, k + 1, |s|);
  }

  function SampledWith(ps: seq<Peer>, f: real -> bool): set<nat> {
    set i: nat | i < |ps| && ps[i].latency > 0 && f(ps[i].latency as real)
  }

  lemma SampledGrows(ps: seq<Peer>, f: real -> bool)
    requires ps != []
    ensures var before, last := SampledWith(ps[..|ps| - 1], f), |ps| - 1;
            && last !in before
            && SampledWith(ps, f)
               == if ps[last].latency > 0 && f(ps[last].latency as real) then before + {last} else before
  {
    assert forall i :: 0 <= i < |ps| - 1 ==> ps[..|ps| - 1][i] == ps[i];
  }

  /** The samples are the latencies of the sampled backends, each as often as it occurs. */
  lemma {:induction false} CountSampled(f: real -> bool, ps: seq<Peer>)
    ensures Count(f, Sampled(ps)) == |SampledWith(ps, f)|
  {
    if ps == [] {
    } else {
      var init, last := ps[..|ps| - 1], |ps| - 1;
      CountSampled(f, init);
      SampledGrows(ps, f);
      assert Sampled(init) + [] == Sampled(init);
      CountAppend(f, Sampled(init), ps[last].latency as real);
    }
  }

  lemma CountAppend(f: real -> bool, rs: seq<real>, x: real)
    ensures Count(f, rs + [x]) == Count(f, rs) + if f(x) then 1 else 0
  {
    assert (rs + [x])[..|rs|] == rs;
  }

  lemma {:induction false} CountAll(f: real -> bool, rs: seq<real>)
    requires forall x :: f(x)
    ensures Count(f, rs) == |rs|
  {
    if rs == [] {
    } else {
      CountAll(f, rs[..|rs| - 1]);
    }
  }

  /** Of the `n` sampled backends at most `n / 2` are faster than the fill value and at most
      `n - 1 - n / 2` slower; it is one of their latencies. */
  lemma FillIsUpperMedian(ps: seq<Peer>)
    requires exists i :: 0 <= i < |ps| && ps[i].latency > 0
    ensures var m, n := Median(Sampled(ps)), |SampledWith(ps, _ => true)|;
            && n >= 1
            && |SampledWith(ps, x => x < m)| <= n / 2
            && |SampledWith(ps, x => x > m)| <= n - 1 - n / 2
            && exists i :: 0 <= i < |ps| && ps[i].latency > 0 && ps[i].latency as real == m
  {
    var rs := Sampled(ps);
    var i :| 0 <= i < |ps| && ps[i].latency > 0;
    SampledHas(ps, ps[i].latency as real);
    var m := Median(rs);
    MedianIsUpper(rs);
    MedianIsASample(rs);
    SampledHas(ps, m);
    CountSampled(Under(m), ps);
    CountSampled(Over(m), ps);
    var all := (x: real) => true;
    CountSampled(all, ps);
    CountAll(all, rs);
    assert SampledWith(ps, x => x < m) == SampledWith(ps, Under(m));
    assert SampledWith(ps, x => x > m) == SampledWith(ps, Over(m));
    assert SampledWith(ps, _ => true) == SampledWith(ps, all);
  }

  // ------------------------------------------------------------- the flat test

  function Least(rs: seq<real>): (m: real)
    requires rs != []
    ensures m in rs && forall i :: 0 <= i < |rs| ==> m <= rs[i]
  {
    if |rs| == 1 then rs[0]
    else
      var m := Least(rs[..|rs| - 1]);
      if rs[|rs| - 1] < m then rs[|rs| - 1] else m
  }

  function Greatest(rs: seq<real>): (m: real)
    requires rs != []
    ensures m in rs && forall i :: 0 <= i < |rs| ==> rs[i] <= m
  {
    if |rs| == 1 then rs[0]
    else
      var m := Greatest(rs[..|rs| - 1]);
      if rs[|rs| - 1] > m then rs[|rs| - 1] else m
  }

  predicate Flat(rs: seq<real>)
    requires rs != []
  {
    Greatest(rs) <= Least(rs) * FLAT_RATIO
  }

  lemma SameBounds(a: seq<real>, b: seq<real>)
    requires a != [] && b != [] && forall x :: x in a <==> x in b
    ensures Least(a) == Least(b) && Greatest(a) == Greatest(b)
  {
  }

  lemma {:induction false} SampledHas(ps: seq<Peer>, x: real)
    ensures x in Sampled(ps) <==> exists i :: 0 <= i < |ps| && ps[i].latency > 0 && ps[i].latency as real == x
  {
    if ps == [] {
    } else {
      var init, last := ps[..|ps| - 1], |ps| - 1;
      SampledHas(init, x);
      assert forall i :: 0 <= i < last ==> init[i] == ps[i];
      if x in Sampled(ps) && x !in Sampled(init) {
        assert ps[last].latency > 0 && ps[last].latency as real == x;
      }
    }
  }

  lemma MedianIsASample(samples: seq<real>)
    requires samples != []
    ensures Median(samples) in samples
  {
    assert Median(samples) in multiset(Sort(AtMost, samples));
  }

  lemma FillAddsNothingNew(ps: seq<Peer>, x: real)
    requires Sampled(ps) != []
    ensures x in Latencies(ps) <==> x in Sampled(ps)
  {
    SampledHas(ps, x);
    MedianIsASample(Sampled(ps));
    if x in Sampled(ps) {
      var i :| 0 <= i < |ps| && ps[i].latency > 0 && ps[i].latency as real == x;
      assert Latencies(ps)[i] == x;
    }
  }

  /** Filling in the median moves neither bound, so a pool is flat exactly when its samples are. */
  lemma FillKeepsTheSpread(ps: seq<Peer>)
    requires Sampled(ps) != []
    ensures ps != []
    ensures Least(Latencies(ps)) == Least(Sampled(ps)) && Greatest(Latencies(ps)) == Greatest(Sampled(ps))
    ensures Flat(Latencies(ps)) <==> Flat(Sampled(ps))
  {
    assert ps != [];
    forall x ensures x in Latencies(ps) <==> x in Sampled(ps) {
      FillAddsNothingNew(ps, x);
    }
    SameBounds(Latencies(ps), Sampled(ps));
  }

  /** A pool without any sample is flat. */
  lemma UnsampledPoolIsFlat(ps: seq<Peer>)
    requires ps != [] && Sampled(ps) == []
    ensures Flat(Latencies(ps))
  {
    forall i | 0 <= i < |ps| ensures Latencies(ps)[i] == 1.0 {
      SampledHas(ps, ps[i].latency as real);
    }
  }

  lemma LatenciesPositive(ps: seq<Peer>)
    ensures forall i :: 0 <= i < |ps| ==> Latencies(ps)[i] > 0.0
  {
    if Sampled(ps) != [] {
      MedianIsASample(Sampled(ps));
      SampledHas(ps, Median(Sampled(ps)));
    }
  }

  // ------------------------------------------------------------ the weighted draw

  /** Configured weight over latency. */
  function Weight(p: Peer, latency: real): (w: real)
    requires latency > 0.0
    ensures w > 0.0 && Stretch(w, latency) == Share(p) as real
  {
    PositiveQuotient(Share(p) as real, latency);
    Share(p) as real / latency
  }

  lemma PositiveQuotient(a: real, b: real)
    requires a > 0.0 && b > 0.0
    ensures a / b > 0.0 && Stretch(a / b, b) == a
  {
    assert (a / b) * b == a;
  }

  function Weights(ps: seq<Peer>): (ws: seq<real>)
    ensures |ws| == |ps| && AllPositive(ws)
  {
    LatenciesPositive(ps);
    var ls := Latencies(ps);
    seq(|ps|, i requires 0 <= i < |ps| && ls[i] > 0.0 => Weight(ps[i], ls[i]))
  }

  ghost predicate AllPositive(ws: seq<real>) {
    forall i :: 0 <= i < |ws| ==> ws[i] > 0.0
  }

  /** Sum of the first `i` weights. */
  function Sum(ws: seq<real>, i: nat): real
    requires i <= |ws|
  {
    if i == 0 then 0.0 else Sum(ws, i - 1) + ws[i - 1]
  }

  lemma {:induction false} SumGrows(ws: seq<real>, i: nat, j: nat)
    requires i <= j <= |ws| && AllPositive(ws)
    ensures Sum(ws, i) <= Sum(ws, j) && (i < j ==> Sum(ws, i) < Sum(ws, j))
  {
    if i < j {
      SumGrows(ws, i, j - 1);
    }
  }

  /** Where the loop stops: the pick lies in position `i`'s stretch; the first stretch includes 0. */
  predicate Lands(ws: seq<real>, i: nat, pick: real)
    requires i < |ws|
  {
    (i == 0 || Sum(ws, i) < pick) && pick <= Sum(ws, i + 1)
  }

  /** The draw loop. Its trailing fallback is never reached: the pick is below the total. */
  method Draw(ws: seq<real>, draw: real) returns (i: nat)
    requires ws != [] && AllPositive(ws) && 0.0 <= draw < 1.0
    ensures i < |ws| && Lands(ws, i, Stretch(draw, Sum(ws, |ws|)))
  {
    i := 0;
    var total := Sum(ws, |ws|);
    SumGrows(ws, 0, |ws|);
    var start := Stretch(draw, total);
    assert start < total by {
      StretchKeepsOrder(draw, 1.0, total);
      assert Stretch(1.0, total) == total;
    }
    var pick := start;
    for k := 0 to |ws|
      invariant pick == start - Sum(ws, k)
      invariant k > 0 ==> pick > 0.0
    {
      pick := pick - ws[k];
      if pick <= 0.0 {
        i := k;
        return;
      }
    }
    assert false;
  }

  /** The draw stretched over the whole weight. */
  function Stretch(draw: real, total: real): real {
    draw * total
  }

  lemma StretchKeepsOrder(a: real, b: real, t: real)
    requires t > 0.0
    ensures a < b <==> Stretch(a, t) < Stretch(b, t)
  {
    if a < b {
      assert (b - a) * t > 0.0;
    }
    if b < a {
      assert (a - b) * t > 0.0;
    }
  }

  lemma LandsOnce(ws: seq<real>, i: nat, j: nat, pick: real)
    requires AllPositive(ws) && i < |ws| && j < |ws| && Lands(ws, i, pick) && Lands(ws, j, pick)
    ensures i == j
  {
    if i < j {
      SumGrows(ws, i + 1, j);
    } else if j < i {
      SumGrows(ws, j + 1, i);
    }
  }

  /** Position `i`'s share of the draw interval: its weight over the total. */
  function Fraction(ws: seq<real>, i: nat): real
    requires i <= |ws| && Sum(ws, |ws|) > 0.0
  {
    Sum(ws, i) / Sum(ws, |ws|)
  }

  lemma QuotientScales(a: real, t: real)
    requires t > 0.0
    ensures Stretch(a / t, t) == a
  {
  }

  /** The draws choosing position `i` are exactly one interval, from the weight before it to the
      weight up to it, as fractions of the total; its length is `w_i / total`; the intervals start
      at 0, end at 1 and adjoin, so every draw in [0, 1) chooses exactly one position. */
  lemma DrawIsAPartition(ws: seq<real>, i: nat, draw: real)
    requires i < |ws| && AllPositive(ws)
    ensures Sum(ws, |ws|) > 0.0
    ensures Lands(ws, i, Stretch(draw, Sum(ws, |ws|))) <==>
            (i == 0 || Fraction(ws, i) < draw) && draw <= Fraction(ws, i + 1)
    ensures Fraction(ws, i + 1) - Fraction(ws, i) == ws[i] / Sum(ws, |ws|)
    ensures Fraction(ws, 0) == 0.0 && Fraction(ws, |ws|) == 1.0
  {
    SumGrows(ws, 0, |ws|);
    var t := Sum(ws, |ws|);
    QuotientScales(Sum(ws, i), t);
    QuotientScales(Sum(ws, i + 1), t);
    StretchKeepsOrder(Fraction(ws, i), draw, t);
    StretchKeepsOrder(Fraction(ws, i + 1), draw, t);
    DivideDifference(Sum(ws, i), ws[i], t);
    FractionEnds(ws);
  }

  lemma FractionEnds(ws: seq<real>)
    requires Sum(ws, |ws|) > 0.0
    ensures Fraction(ws, 0) == 0.0 && Fraction(ws, |ws|) == 1.0
  {
    var t := Sum(ws, |ws|);
    assert t / t == 1.0 && 0.0 / t == 0.0;
  }

  lemma DivideDifference(a: real, w: real, t: real)
    requires t > 0.0
    ensures (a + w) / t - a / t == w / t
  {
  }

  /** A candidate's latency in the draw is its own, or the fill value if it has no sample. */
  lemma LatencyIsOwnOrFill(ps: seq<Peer>, i: nat)
    requires i < |ps|
    ensures Latencies(ps)[i] == if ps[i].latency > 0 then ps[i].latency as real else Median(Sampled(ps))
    ensures Latencies(ps)[i] > 0.0
  {
    LatenciesPositive(ps);
  }

  /** Its weight there, times that latency, is its configured weight, at least 1. */
  lemma WeightIsShareOverLatency(ps: seq<Peer>, i: nat)
    requires i < |ps|
    ensures Stretch(Weights(ps)[i], Latencies(ps)[i]) == (if ps[i].weight < 1 then 1 else ps[i].weight) as real
  {
    LatenciesPositive(ps);
    assert Weights(ps)[i] == Weight(ps[i], Latencies(ps)[i]);
  }

  // ---------------------------------------------------------------- the strategy

  /** The draw chooses position `i` of the candidates. */
  predicate Drawn(ps: seq<Peer>, i: nat, draw: real) {
    i < |ps| && Lands(Weights(ps), i, Stretch(draw, Sum(Weights(ps), |ps|)))
  }

  /** The draws that choose candidate `i` are those between the share of the total weight before it and the
      share up to it. */
  lemma DrawnIff(ps: seq<Peer>, i: nat, draw: real)
    requires i < |ps|
    ensures Sum(Weights(ps), |ps|) > 0.0
    ensures var before, upto := Fraction(Weights(ps), i), Fraction(Weights(ps), i + 1);
            && upto - before == Weights(ps)[i] / Sum(Weights(ps), |ps|)
            && (Drawn(ps, i, draw) <==> (i == 0 || before < draw) && draw <= upto)
  {
    DrawIsAPartition(Weights(ps), i, draw);
  }

  method ChooseByDraw(ps: seq<Peer>, draw: real) returns (r: Option<nat>)
    requires ps != [] && 0.0 <= draw < 1.0
    ensures exists i: nat :: Drawn(ps, i, draw) && r == Some(ps[i].id)
  {
    var ws := Weights(ps);
    var i := Draw(ws, draw);
    assert Drawn(ps, i, draw);
    r := Some(ps[i].id);
  }

  predicate FlatPool(ps: seq<Peer>) {
    ps != [] && Flat(Latencies(ps))
  }

  /** A pool is flat if and only if no latency, as filled in, exceeds another by more than a tenth. */
  lemma FlatIffWithinATenth(ps: seq<Peer>)
    requires ps != []
    ensures FlatPool(ps) <==>
            forall i, j :: 0 <= i < |ps| && 0 <= j < |ps| ==> 10.0 * Latencies(ps)[j] <= 11.0 * Latencies(ps)[i]
  {
    var ls := Latencies(ps);
    assert Least(ls) in ls && Greatest(ls) in ls;
    var lo :| 0 <= lo < |ls| && ls[lo] == Least(ls);
    var hi :| 0 <= hi < |ls| && ls[hi] == Greatest(ls);
    assert forall i :: 0 <= i < |ls| ==> ls[lo] <= ls[i] <= ls[hi];
  }

  class Selector {
    var fallbackCounter: nat

    constructor ()
      ensures fallbackCounter == 0
    {
      fallbackCounter := 0;
    }

    method Select(ps: seq<Peer>, draw: real) returns (r: Option<nat>)
      requires 0.0 <= draw < 1.0
      modifies this
      ensures ps == [] ==> r == None && fallbackCounter == old(fallbackCounter)
      ensures FlatPool(ps) ==>
              r == Some(ps[Chosen(ps, old(fallbackCounter))].id) && fallbackCounter == old(fallbackCounter) + 1
      ensures ps != [] && !FlatPool(ps) ==>
              fallbackCounter == old(fallbackCounter) && exists i: nat :: Drawn(ps, i, draw) && r == Some(ps[i].id)
    {
      if ps == [] {
        return None;
      }
      if FlatPool(ps) {
        fallbackCounter := fallbackCounter + 1;
        r := PickAt(fallbackCounter - 1, ps);
      } else {
        r := ChooseByDraw(ps, draw);
      }
    }
  }
}

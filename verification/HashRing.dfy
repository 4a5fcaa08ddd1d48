/**
 Consistent hashing with virtual nodes: the ring's points in sorted order, a binary search for the
 first point at or after the key, and a scan from there round the circle.

 SHA-256 is a parameter: any function from text to 64-bit values.
 */
module HashRing {
  import opened Cyclic
  import opened Options
  import opened Sorting

  const CIRCLE: nat := 0x1_0000_0000_0000_0000

  type Hash64 = h: nat | h < 0x1_0000_0000_0000_0000

  datatype Point = Point(hash: Hash64, id: nat)

  // ------------------------------------------------------------ building the ring

  function Decimal(n: nat): string {
    if n < 10 then [Digit(n)] else Decimal(n / 10) + [Digit(n % 10)]
  }

  function Digit(d: nat): (c: char)
    requires d < 10
    ensures '0' <= c <= '9' && (c - '0') as nat == d
  {
    "0123456789"[d]
  }

  function Label(id: nat, v: nat): string {
    "backend-" + (Decimal(id) + "-vnode-" + Decimal(v))
  }

  function Value(digits: string): nat {
    if digits == [] then 0
    else 10 * Value(digits[..|digits| - 1]) + DigitValue(digits[|digits| - 1])
  }

  function DigitValue(d: char): nat {
    if '0' <= d <= '9' then (d - '0') as nat else 0
  }

  lemma {:induction false} DecimalReadsBack(n: nat)
    ensures Value(Decimal(n)) == n
    ensures forall i :: 0 <= i < |Decimal(n)| ==> Decimal(n)[i] != '-'
  {
    if n < 10 {
      ValueAppend("", Digit(n));
      assert "" + [Digit(n)] == Decimal(n);
    } else {
      DecimalReadsBack(n / 10);
      ValueAppend(Decimal(n / 10), Digit(n % 10));
    }
  }

  lemma ValueAppend(digits: string, d: char)
    ensures Value(digits + [d]) == 10 * Value(digits) + DigitValue(d)
  {
    assert (digits + [d])[..|digits|] == digits;
  }

  lemma SplitAtDash(a: string, b: string, a': string, b': string)
    requires a + "-vnode-" + b == a' + "-vnode-" + b'
    requires forall i :: 0 <= i < |a| ==> a[i] != '-'
    requires forall i :: 0 <= i < |a'| ==> a'[i] != '-'
    ensures a == a' && b == b'
  {
    var s := a + "-vnode-" + b;
    assert s[|a|] == '-' && s[|a'|] == '-';
    assert forall i :: 0 <= i < |a| ==> s[i] == a[i];
    assert forall i :: 0 <= i < |a'| ==> s[i] == a'[i];
    assert |a| == |a'|;
    assert a == s[..|a|] && a' == s[..|a'|];
    assert b == s[|a| + 7..] && b' == s[|a'| + 7..];
  }

  lemma DropPrefix(p: string, a: string, b: string)
    requires p + a == p + b
    ensures a == b
  {
    assert a == (p + a)[|p|..] && b == (p + b)[|p|..];
  }

  /** Every virtual node hashes its own text. */
  lemma LabelsAreDistinct(id: nat, v: nat, id': nat, v': nat)
    requires Label(id, v) == Label(id', v')
    ensures id == id' && v == v'
  {
    DropPrefix("backend-", Decimal(id) + "-vnode-" + Decimal(v), Decimal(id') + "-vnode-" + Decimal(v'));
    DecimalReadsBack(id);
    DecimalReadsBack(id');
    SplitAtDash(Decimal(id), Decimal(v), Decimal(id'), Decimal(v'));
    DecimalReadsBack(v);
    DecimalReadsBack(v');
  }

  function VnodePoint(hashKey: string -> Hash64, id: nat, v: nat): Point {
    Point(hashKey(Label(id, v)), id)
  }

  /** Tuple order: by hash, then by id. */
  predicate Before(a: Point, b: Point) {
    a.hash < b.hash || (a.hash == b.hash && a.id <= b.id)
  }

  predicate Sorted(ps: seq<Point>) {
    forall i, j :: 0 <= i < j < |ps| ==> Before(ps[i], ps[j])
  }

  /** A ring for `backends` backends holds, in sorted order, exactly one point per backend and vnode. */
  ghost predicate IsRing(ps: seq<Point>, hashKey: string -> Hash64, backends: nat, vnodes: nat) {
    && Sorted(ps)
    && |ps| == backends * vnodes
    && (forall id, v :: 0 <= id < backends && 0 <= v < vnodes ==>
          Point(hashKey("backend-" + (Decimal(id) + "-vnode-" + Decimal(v))), id) in ps)
    && (forall i :: 0 <= i < |ps| ==> ps[i].id < backends)
  }

  /** The points pushed for the first `id` backends and, of the next one, the first `v` vnodes. */
  function Pushed(hashKey: string -> Hash64, vnodes: nat, id: nat, v: nat): (ps: seq<Point>)
    ensures |ps| == id * vnodes + v
    decreases id, v
  {
    if v > 0 then Pushed(hashKey, vnodes, id, v - 1) + [VnodePoint(hashKey, id, v - 1)]
    else if id > 0 then Pushed(hashKey, vnodes, id - 1, vnodes)
    else []
  }

  lemma {:induction false} PushedHas(hashKey: string -> Hash64, vnodes: nat, id: nat, v: nat, i: nat, w: nat)
    requires w < vnodes && (i < id || (i == id && w < v))
    ensures Point(hashKey("backend-" + (Decimal(i) + "-vnode-" + Decimal(w))), i) in Pushed(hashKey, vnodes, id, v)
    decreases id, v
  {
    if v > 0 {
      if !(i == id && w == v - 1) {
        PushedHas(hashKey, vnodes, id, v - 1, i, w);
      }
    } else {
      PushedHas(hashKey, vnodes, id - 1, vnodes, i, w);
    }
  }

  lemma {:induction false} PushedIds(hashKey: string -> Hash64, vnodes: nat, id: nat, v: nat, p: Point)
    requires p in Pushed(hashKey, vnodes, id, v)
    ensures if v > 0 then p.id <= id else p.id < id
    decreases id, v
  {
    if v > 0 {
      if p in Pushed(hashKey, vnodes, id, v - 1) {
        PushedIds(hashKey, vnodes, id, v - 1, p);
      }
    } else if id > 0 {
      PushedIds(hashKey, vnodes, id - 1, vnodes, p);
    }
  }

  method New(hashKey: string -> Hash64, backends: nat, vnodes: nat) returns (ps: seq<Point>)
    ensures IsRing(ps, hashKey, backends, vnodes)
    ensures multiset(ps) == multiset(Pushed(hashKey, vnodes, backends, 0))
  {
    var points: seq<Point> := [];
    for id := 0 to backends
      invariant points == Pushed(hashKey, vnodes, id, 0)
    {
      for v := 0 to vnodes
        invariant points == Pushed(hashKey, vnodes, id, v)
      {
        points := points + [VnodePoint(hashKey, id, v)];
      }
    }
    ps := Sort(Before, points);
    SortSorts(Before, points);
    PushedMakesRing(hashKey, backends, vnodes, ps);
  }

  lemma PushedMakesRing(hashKey: string -> Hash64, backends: nat, vnodes: nat, ps: seq<Point>)
    requires Sorted(ps) && multiset(ps) == multiset(Pushed(hashKey, vnodes, backends, 0))
    ensures IsRing(ps, hashKey, backends, vnodes)
  {
    SameElements(ps, Pushed(hashKey, vnodes, backends, 0));
    forall id, v | 0 <= id < backends && 0 <= v < vnodes
      ensures Point(hashKey("backend-" + (Decimal(id) + "-vnode-" + Decimal(v))), id) in ps
    {
      PushedHas(hashKey, vnodes, backends, 0, id, v);
    }
    forall i | 0 <= i < |ps| ensures ps[i].id < backends {
      PushedIds(hashKey, vnodes, backends, 0, ps[i]);
    }
  }

  lemma SameElements(a: seq<Point>, b: seq<Point>)
    requires multiset(a) == multiset(b)
    ensures |a| == |b| && forall p :: p in a <==> p in b
  {
    assert |multiset(a)| == |multiset(b)|;
    forall p ensures p in a <==> p in b {
      assert p in a <==> p in multiset(a);
      assert p in b <==> p in multiset(b);
    }
  }

  /** The labels of the ring's virtual nodes all have different hashes. */
  ghost predicate SeparatesLabels(hashKey: string -> Hash64, backends: nat, vnodes: nat) {
    forall id: nat, v: nat, id': nat, v': nat ::
      (id < backends && v < vnodes && id' < backends && v' < vnodes && Label(id, v) != Label(id', v'))
      ==> hashKey(Label(id, v)) != hashKey(Label(id', v'))
  }

  /** Every point of a ring is one of its virtual nodes', at the hash of its own text. */
  lemma {:induction false} PushedIsLabelled(hashKey: string -> Hash64, vnodes: nat, id: nat, v: nat, k: nat)
    returns (i: nat, w: nat)
    requires v <= vnodes && k < |Pushed(hashKey, vnodes, id, v)|
    ensures w < vnodes && (i < id || (i == id && w < v)) && i * vnodes + w == k
    ensures Pushed(hashKey, vnodes, id, v)[k]
         == Point(hashKey("backend-" + (Decimal(i) + "-vnode-" + Decimal(w))), i)
    decreases id, v
  {
    if v == 0 {
      i, w := PushedIsLabelled(hashKey, vnodes, id - 1, vnodes, k);
    } else if k == id * vnodes + (v - 1) {
      i, w := id, v - 1;
    } else {
      i, w := PushedIsLabelled(hashKey, vnodes, id, v - 1, k);
    }
  }

  /** No two pushed points stand at the same place. */
  lemma PushedApart(hashKey: string -> Hash64, backends: nat, vnodes: nat, j: nat, k: nat)
    requires SeparatesLabels(hashKey, backends, vnodes)
    requires j < k < |Pushed(hashKey, vnodes, backends, 0)|
    ensures Pushed(hashKey, vnodes, backends, 0)[j].hash != Pushed(hashKey, vnodes, backends, 0)[k].hash
  {
    var i, w := PushedIsLabelled(hashKey, vnodes, backends, 0, j);
    var i', w' := PushedIsLabelled(hashKey, vnodes, backends, 0, k);
    if hashKey(Label(i, w)) == hashKey(Label(i', w')) {
      LabelsAreDistinct(i, w, i', w');
      assert false;
    }
  }

  /** Where the hash separates the labels, no two points of the ring stand at the same place. */
  lemma PointsAreApart(ps: seq<Point>, hashKey: string -> Hash64, backends: nat, vnodes: nat, j: nat, k: nat)
    requires multiset(ps) == multiset(Pushed(hashKey, vnodes, backends, 0))
    requires SeparatesLabels(hashKey, backends, vnodes) && j < k < |ps|
    ensures ps[j].hash != ps[k].hash
  {
    var pushed := Pushed(hashKey, vnodes, backends, 0);
    SameElements(ps, pushed);
    forall a, b | 0 <= a < b < |pushed| ensures pushed[a].hash != pushed[b].hash {
      PushedApart(hashKey, backends, vnodes, a, b);
    }
    StaysDistinct(pushed, ps, j, k);
    assert ps[j] in pushed && ps[k] in pushed;
    var a :| 0 <= a < |pushed| && pushed[a] == ps[j];
    var b :| 0 <= b < |pushed| && pushed[b] == ps[k];
    assert a != b;
  }

  /** A rearrangement of distinct points has no point twice. */
  lemma StaysDistinct(a: seq<Point>, b: seq<Point>, j: nat, k: nat)
    requires multiset(a) == multiset(b) && j < k < |b|
    requires forall i, i' :: 0 <= i < i' < |a| ==> a[i] != a[i']
    ensures b[j] != b[k]
  {
    OnceEach(a, b[j]);
    assert b == b[..k] + [b[k]] + b[k + 1..];
    assert b[j] in b[..k];
  }

  lemma {:induction false} OnceEach(a: seq<Point>, p: Point)
    requires forall i, i' :: 0 <= i < i' < |a| ==> a[i] != a[i']
    ensures multiset(a)[p] <= 1
  {
    if a == [] {
    } else {
      var init, last := a[..|a| - 1], a[|a| - 1];
      OnceEach(init, p);
      assert a == init + [last];
      assert last !in init;
    }
  }

  // ----------------------------------------------------------------- looking up

  /** Number of leading points below the key; the ring is sorted, so all points below it. */
  function PartitionPoint(ps: seq<Point>, key: Hash64): (k: nat)
    ensures k <= |ps|
    ensures forall i :: 0 <= i < k ==> ps[i].hash < key
    ensures k < |ps| ==> ps[k].hash >= key
  {
    if ps == [] || ps[0].hash >= key then 0
    else
      var rest := PartitionPoint(ps[1..], key);
      assert forall i :: 1 <= i < |ps| ==> ps[i] == ps[1..][i - 1];
      1 + rest
  }

  lemma PartitionUnique(ps: seq<Point>, key: Hash64, k: nat)
    requires k <= |ps|
    requires forall i :: 0 <= i < k ==> ps[i].hash < key
    requires forall i :: k <= i < |ps| ==> ps[i].hash >= key
    ensures k == PartitionPoint(ps, key)
  {
    var p := PartitionPoint(ps, key);
    assert p < |ps| ==> ps[p].hash >= key;
    assert k < |ps| ==> ps[k].hash >= key;
  }

  /** The point `i` places on from `start`, round the ring. */
  function At(ps: seq<Point>, start: nat, i: nat): Point
    requires ps != []
  {
    ps[Wrap(start + i, |ps|)]
  }

  /** The first routable id among places `i, i + 1, ...` counted from `start` round the ring. */
  function Scan(ps: seq<Point>, start: nat, i: nat, routable: set<nat>): Option<nat>
    requires start <= |ps| && i <= |ps|
    decreases |ps| - i
  {
    if i == |ps| then None
    else
      var id := At(ps, start, i).id;
      if id in routable then Some(id) else Scan(ps, start, i + 1, routable)
  }

  function LookupSpec(ps: seq<Point>, key: Hash64, routable: set<nat>): Option<nat> {
    Scan(ps, PartitionPoint(ps, key), 0, routable)
  }

  method FindStart(ps: seq<Point>, key: Hash64) returns (k: nat)
    requires Sorted(ps)
    ensures k == PartitionPoint(ps, key)
  {
    var lo, hi := 0, |ps|;
    while lo < hi
      invariant 0 <= lo <= hi <= |ps|
      invariant forall i :: 0 <= i < lo ==> ps[i].hash < key
      invariant forall i :: hi <= i < |ps| ==> ps[i].hash >= key
    {
      var mid := lo + (hi - lo) / 2;
      if ps[mid].hash < key {
        assert forall i :: 0 <= i < mid ==> Before(ps[i], ps[mid]);
        lo := mid + 1;
      } else {
        assert forall i :: mid < i < |ps| ==> Before(ps[mid], ps[i]);
        hi := mid;
      }
    }
    PartitionUnique(ps, key, lo);
    k := lo;
  }

  method Lookup(ps: seq<Point>, key: Hash64, routable: set<nat>) returns (r: Option<nat>)
    requires Sorted(ps)
    ensures r == LookupSpec(ps, key, routable)
  {
    if ps == [] {
      return None;
    }
    var start := FindStart(ps, key);
    for i := 0 to |ps|
      invariant Scan(ps, start, i, routable) == LookupSpec(ps, key, routable)
    {
      var id := At(ps, start, i).id;
      if id in routable {
        return Some(id);
      }
    }
    return None;
  }

  // --------------------------------------------- the search-free specification

  /** Clockwise distance from the key to the point, on a circle of 2^64 places. */
  function Dist(p: Point, key: Hash64): (d: nat)
    ensures d == (p.hash - key) % 0x1_0000_0000_0000_0000
  {
    if p.hash >= key then p.hash - key else p.hash + CIRCLE - key
  }

  /** `p` is at most as far round from the key as `q`, ties to the smaller id. */
  predicate NoFarther(p: Point, q: Point, key: Hash64) {
    Dist(p, key) < Dist(q, key) || (Dist(p, key) == Dist(q, key) && p.id <= q.id)
  }

  /** `id` owns a routable point that no other routable point beats. */
  ghost predicate IsNearest(ps: seq<Point>, key: Hash64, routable: set<nat>, id: nat) {
    exists p :: p in ps && p.id == id && id in routable &&
                forall q :: q in ps && q.id in routable ==> NoFarther(p, q, key)
  }

  /** Going round from the partition point meets the points in order of distance. */
  lemma ScanOrder(ps: seq<Point>, key: Hash64, i: nat, j: nat)
    requires Sorted(ps) && i <= j < |ps|
    ensures var k := PartitionPoint(ps, key);
            NoFarther(At(ps, k, i), At(ps, k, j), key)
  {
  }

  /** Every point is met somewhere on the way round. */
  lemma PlaceOf(ps: seq<Point>, start: nat, p: Point) returns (i: nat)
    requires start <= |ps| && p in ps
    ensures i < |ps| && At(ps, start, i) == p
  {
    var k :| 0 <= k < |ps| && ps[k] == p;
    i := if k >= start then k - start else k + |ps| - start;
  }

  lemma {:induction false} ScanFinds(ps: seq<Point>, start: nat, i: nat, routable: set<nat>) returns (j: nat)
    requires start <= |ps| && i <= |ps|
    ensures i <= j <= |ps|
    ensures forall m :: i <= m < j ==> At(ps, start, m).id !in routable
    ensures j < |ps| ==> At(ps, start, j).id in routable
    ensures Scan(ps, start, i, routable) == if j < |ps| then Some(At(ps, start, j).id) else None
    decreases |ps| - i
  {
    if i == |ps| || At(ps, start, i).id in routable {
      j := i;
    } else {
      j := ScanFinds(ps, start, i + 1, routable);
    }
  }

  /** The lookup answers a nearest routable backend, and nothing only if no point is routable. */
  lemma LookupIsNearest(ps: seq<Point>, key: Hash64, routable: set<nat>)
    requires Sorted(ps)
    ensures LookupSpec(ps, key, routable).None? <==> forall p :: p in ps ==> p.id !in routable
    ensures LookupSpec(ps, key, routable).Some? ==>
            IsNearest(ps, key, routable, LookupSpec(ps, key, routable).value)
  {
    var k := PartitionPoint(ps, key);
    var j := ScanFinds(ps, k, 0, routable);
    if j < |ps| {
      var p := At(ps, k, j);
      forall q | q in ps && q.id in routable ensures NoFarther(p, q, key) {
        var m := PlaceOf(ps, k, q);
        ScanOrder(ps, key, j, m);
      }
      assert p in ps;
    } else {
      forall q | q in ps ensures q.id !in routable {
        var m := PlaceOf(ps, k, q);
      }
    }
  }

  lemma NearestIsUnique(ps: seq<Point>, key: Hash64, routable: set<nat>, a: nat, b: nat)
    requires IsNearest(ps, key, routable, a) && IsNearest(ps, key, routable, b)
    ensures a == b
  {
  }

  /** The search is determined by the specification: an id is the answer iff it is a nearest one. */
  lemma LookupIff(ps: seq<Point>, key: Hash64, routable: set<nat>, id: nat)
    requires Sorted(ps)
    ensures LookupSpec(ps, key, routable) == Some(id) <==> IsNearest(ps, key, routable, id)
  {
    LookupIsNearest(ps, key, routable);
    if IsNearest(ps, key, routable, id) {
      NearestIsUnique(ps, key, routable, id, LookupSpec(ps, key, routable).value);
    }
  }

  // --------------------------------------------------------- minimal disruption

  /** Taking backends away moves no key whose backend stays. */
  lemma SurvivorsKeepTheirKeys(ps: seq<Point>, key: Hash64, routable: set<nat>, fewer: set<nat>, id: nat)
    requires Sorted(ps) && fewer <= routable
    requires LookupSpec(ps, key, routable) == Some(id) && id in fewer
    ensures LookupSpec(ps, key, fewer) == Some(id)
  {
    LookupIff(ps, key, routable, id);
    LookupIff(ps, key, fewer, id);
  }

  /** Adding one backend moves keys only to it. */
  lemma NewcomerTakesOnlyItsOwn(ps: seq<Point>, key: Hash64, routable: set<nat>, b: nat)
    requires Sorted(ps)
    ensures LookupSpec(ps, key, routable + {b}) == LookupSpec(ps, key, routable)
         || LookupSpec(ps, key, routable + {b}) == Some(b)
  {
    var r := LookupSpec(ps, key, routable + {b});
    LookupIsNearest(ps, key, routable + {b});
    LookupIsNearest(ps, key, routable);
    if r.Some? && r.value != b {
      SurvivorsKeepTheirKeys(ps, key, routable + {b}, routable, r.value);
    }
  }
}

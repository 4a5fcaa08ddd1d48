/**
 The mock replica's prefix cache: an ordered dictionary used as an LRU list, oldest entry first.
 Keys are compared only for equality, so they are modelled as strings without structure.
 */
module LruCache {

  /** A lookup on the entries alone: a hit moves the key to the end; a miss appends it and drops the
      oldest entry if the capacity is exceeded. */
  function Touch(entries: seq<string>, key: string, capacity: int): seq<string> {
    var moved := Without(entries, key) + [key];
    if key !in entries && |moved| > capacity then moved[1..] else moved
  }

  function Without(s: seq<string>, key: string): seq<string> {
    if s == [] then []
    else Without(s[..|s| - 1], key) + if s[|s| - 1] == key then [] else [s[|s| - 1]]
  }

  class PrefixCache {
    const capacity: int
    var entries: seq<string>
    var hits: nat
    var queries: nat

    constructor (capacity: int)
      ensures this.capacity == capacity && entries == [] && hits == 0 && queries == 0
    {
      this.capacity := capacity;
      entries, hits, queries := [], 0, 0;
    }

    method Lookup(key: string) returns (hit: bool)
      modifies this
      ensures hit == (key in old(entries))
      ensures entries == Touch(old(entries), key, capacity)
      ensures queries == old(queries) + 1 && hits == old(hits) + (if hit then 1 else 0)
    {
      queries := queries + 1;
      if key in entries {
        entries := Without(entries, key) + [key];
        hits := hits + 1;
        return true;
      }
      AbsentIsUntouched(entries, key);
      entries := entries + [key];
      if |entries| > capacity {
        entries := entries[1..];
      }
      return false;
    }
  }

  lemma {:induction false} AbsentIsUntouched(s: seq<string>, key: string)
    requires key !in s
    ensures Without(s, key) == s
  {
    if s == [] {
    } else {
      AbsentIsUntouched(s[..|s| - 1], key);
    }
  }

  // ------------------------------------------------------------- the recency stack

  /** The entries after looking up every key of the trace in turn. */
  function Cache(trace: seq<string>, capacity: int): seq<string> {
    if trace == [] then [] else Touch(Cache(trace[..|trace| - 1], capacity), trace[|trace| - 1], capacity)
  }

  /** The distinct keys of the trace in order of last use, least recent first. */
  function Recency(trace: seq<string>): seq<string> {
    if trace == [] then [] else Without(Recency(trace[..|trace| - 1]), trace[|trace| - 1]) + [trace[|trace| - 1]]
  }

  function Room(capacity: int): nat {
    if capacity < 0 then 0 else capacity
  }

  /** The last `n` elements, or all of them. */
  function Last(s: seq<string>, n: nat): seq<string> {
    if |s| <= n then s else s[|s| - n..]
  }

  predicate Distinct(s: seq<string>) {
    forall i, j :: 0 <= i < j < |s| ==> s[i] != s[j]
  }

  lemma {:induction false} WithoutLacks(s: seq<string>, key: string)
    ensures key !in Without(s, key)
    ensures forall k :: k != key ==> (k in s <==> k in Without(s, key))
  {
    if s == [] {
    } else {
      WithoutLacks(s[..|s| - 1], key);
      assert s == s[..|s| - 1] + [s[|s| - 1]];
    }
  }

  lemma {:induction false} WithoutAppend(a: seq<string>, b: seq<string>, key: string)
    ensures Without(a + b, key) == Without(a, key) + Without(b, key)
  {
    if b == [] {
      assert a + b == a;
    } else {
      WithoutAppend(a, b[..|b| - 1], key);
      assert (a + b)[..|a + b| - 1] == a + b[..|b| - 1];
    }
  }

  lemma {:induction false} WithoutKeepsDistinct(s: seq<string>, key: string)
    requires Distinct(s)
    ensures Distinct(Without(s, key))
    ensures |Without(s, key)| == if key in s then |s| - 1 else |s|
  {
    if s == [] {
    } else {
      var init, last := s[..|s| - 1], s[|s| - 1];
      WithoutKeepsDistinct(init, key);
      WithoutLacks(init, key);
      assert s == init + [last];
      assert last !in init;
    }
  }

  /** Moving a key to the end, or adding it there, keeps the keys distinct. */
  lemma MoveToEnd(s: seq<string>, key: string)
    requires Distinct(s)
    ensures Distinct(Without(s, key) + [key])
    ensures forall k :: k in Without(s, key) + [key] <==> k in s || k == key
  {
    WithoutKeepsDistinct(s, key);
    WithoutLacks(s, key);
  }

  lemma InAppend(s: seq<string>, last: string)
    ensures forall k :: k in s + [last] <==> k in s || k == last
  {
  }

  /** Recency lists every key of the trace once. */
  lemma {:induction false} RecencyIsTheKeys(trace: seq<string>)
    ensures Distinct(Recency(trace))
    ensures forall k :: k in Recency(trace) <==> k in trace
  {
    if trace == [] {
    } else {
      var init, key := trace[..|trace| - 1], trace[|trace| - 1];
      RecencyIsTheKeys(init);
      MoveToEnd(Recency(init), key);
      InAppend(init, key);
      assert trace == init + [key];
    }
  }

  // --------------------------------------- the cache is the top of the recency stack

  lemma DistinctParts(a: seq<string>, b: seq<string>)
    requires Distinct(a + b)
    ensures Distinct(b) && forall k :: k in a ==> k !in b
  {
    var all := a + b;
    assert forall i :: 0 <= i < |b| ==> b[i] == all[|a| + i];
    assert forall i :: 0 <= i < |a| ==> a[i] == all[i];
  }

  /** A hit: the key leaves its place inside the kept part and goes to the end. */
  lemma HitStep(older: seq<string>, kept: seq<string>, key: string)
    requires key !in older && Distinct(kept) && key in kept
    ensures Without(older + kept, key) + [key] == older + (Without(kept, key) + [key])
    ensures |Without(kept, key) + [key]| == |kept|
  {
    AbsentIsUntouched(older, key);
    WithoutAppend(older, kept, key);
    WithoutKeepsDistinct(kept, key);
  }

  lemma MissStep(older: seq<string>, kept: seq<string>, key: string)
    requires key !in kept
    ensures Without(older + kept, key) + [key] == Without(older, key) + (kept + [key])
  {
    WithoutAppend(older, kept, key);
    AbsentIsUntouched(kept, key);
  }

  lemma LastOf(a: seq<string>, b: seq<string>, n: nat)
    requires |b| >= n
    ensures Last(a + b, n) == Last(b, n)
  {
  }

  /** A hit on the kept end of the recency order. */
  lemma TouchHit(older: seq<string>, kept: seq<string>, key: string, capacity: int)
    requires key !in older && Distinct(kept) && key in kept
    requires |kept| == Room(capacity) || (older == [] && |kept| < Room(capacity))
    ensures Touch(kept, key, capacity) == Last(Without(older + kept, key) + [key], Room(capacity))
  {
    HitStep(older, kept, key);
    if |kept| == Room(capacity) {
      LastOf(older, Without(kept, key) + [key], Room(capacity));
    }
  }

  lemma TouchMiss(older: seq<string>, kept: seq<string>, key: string, capacity: int)
    requires key !in kept
    requires |kept| == Room(capacity) || (older == [] && |kept| < Room(capacity))
    ensures Touch(kept, key, capacity) == Last(Without(older + kept, key) + [key], Room(capacity))
  {
    MissStep(older, kept, key);
    AbsentIsUntouched(kept, key);
    if |kept| == Room(capacity) {
      LastOf(Without(older, key), kept + [key], Room(capacity));
    }
  }

  lemma OneTouch(r: seq<string>, key: string, capacity: int)
    requires Distinct(r)
    ensures Touch(Last(r, Room(capacity)), key, capacity) == Last(Without(r, key) + [key], Room(capacity))
  {
    var kept := Last(r, Room(capacity));
    var older := r[..|r| - |kept|];
    assert r == older + kept;
    if key in kept {
      DistinctParts(older, kept);
      TouchHit(older, kept, key, capacity);
    } else {
      TouchMiss(older, kept, key, capacity);
    }
  }

  /** After any trace the cache holds exactly the `capacity` most recently used distinct keys, in
      order of use. */
  lemma {:induction false} CacheIsMostRecent(trace: seq<string>, capacity: int)
    ensures Cache(trace, capacity) == Last(Recency(trace), Room(capacity))
  {
    if trace == [] {
    } else {
      var init := trace[..|trace| - 1];
      CacheIsMostRecent(init, capacity);
      RecencyIsTheKeys(init);
      OneTouch(Recency(init), trace[|trace| - 1], capacity);
    }
  }

  // -------------------------------------------------------------- stack distance

  /** Position of the key's last use. */
  function LastUse(trace: seq<string>, key: string): (p: nat)
    requires key in trace
    ensures p < |trace| && trace[p] == key && key !in trace[p + 1..]
  {
    if trace[|trace| - 1] == key then |trace| - 1
    else
      assert trace == trace[..|trace| - 1] + [trace[|trace| - 1]];
      LastUse(trace[..|trace| - 1], key)
  }

  /** The distinct keys used since. */
  function OthersSince(trace: seq<string>, key: string): set<string>
    requires key in trace
  {
    Keys(trace[LastUse(trace, key) + 1..])
  }

  function Keys(s: seq<string>): set<string> {
    set i | 0 <= i < |s| :: s[i]
  }

  lemma KeysAppend(s: seq<string>, k: string)
    ensures Keys(s + [k]) == Keys(s) + {k}
  {
    forall x | x in Keys(s) + {k} ensures x in Keys(s + [k]) {
      if x in Keys(s) {
        var i :| 0 <= i < |s| && s[i] == x;
        assert (s + [k])[i] == x;
      } else {
        assert (s + [k])[|s|] == x;
      }
    }
  }

  lemma {:induction false} DistinctSize(s: seq<string>)
    requires Distinct(s)
    ensures |Keys(s)| == |s|
  {
    if s == [] {
    } else {
      var init, last := s[..|s| - 1], s[|s| - 1];
      DistinctSize(init);
      KeysAppend(init, last);
      assert s == init + [last];
      assert last !in Keys(init);
    }
  }

  /** Using another key takes it out of both parts and puts it at the end. */
  lemma SplitAfterUse(older: seq<string>, newer: seq<string>, key: string, last: string)
    requires last != key
    ensures Without(older + [key] + newer, last) == Without(older, last) + [key] + Without(newer, last)
  {
    WithoutAppend(older + [key], newer, last);
    WithoutAppend(older, [key], last);
    AbsentIsUntouched([key], last);
  }

  lemma KeysAfterUse(newer: seq<string>, last: string)
    ensures Keys(Without(newer, last) + [last]) == Keys(newer) + {last}
  {
    KeysAppend(Without(newer, last), last);
    KeysWithout(newer, last);
  }

  lemma OthersAfterUse(init: seq<string>, key: string, last: string)
    requires key in init && last != key
    ensures key in init + [last]
    ensures OthersSince(init + [last], key) == OthersSince(init, key) + {last}
  {
    var trace, p := init + [last], LastUse(init, key);
    assert trace[p] == key;
    assert trace[..|trace| - 1] == init;
    assert trace[p + 1..] == init[p + 1..] + [last];
    KeysAppend(init[p + 1..], last);
  }

  /** In recency order exactly the keys used since stand after the key. */
  lemma {:induction false} RecencySplits(trace: seq<string>, key: string)
    returns (older: seq<string>, newer: seq<string>)
    requires key in trace
    ensures Recency(trace) == older + [key] + newer
    ensures Keys(newer) == OthersSince(trace, key)
  {
    var init, last := trace[..|trace| - 1], trace[|trace| - 1];
    assert trace == init + [last];
    if last == key {
      older, newer := Without(Recency(init), key), [];
      assert trace[|trace|..] == [];
    } else {
      var o, w := RecencySplits(init, key);
      older, newer := Without(o, last), Without(w, last) + [last];
      SplitAfterUse(o, w, key, last);
      KeysAfterUse(w, last);
      OthersAfterUse(init, key, last);
    }
  }

  lemma KeysWithout(s: seq<string>, k: string)
    ensures Keys(Without(s, k)) == Keys(s) - {k}
  {
    WithoutLacks(s, k);
    forall x ensures x in Keys(Without(s, k)) <==> x in Keys(s) - {k} {
      assert x in Keys(s) <==> x in s;
      assert x in Keys(Without(s, k)) <==> x in Without(s, k);
    }
  }

  /** A key is cached if and only if it was used before and fewer than `capacity` distinct other keys
      were used since. */
  lemma HitIffRecent(trace: seq<string>, key: string, capacity: int)
    ensures key in Cache(trace, capacity) <==>
            key in trace && |OthersSince(trace, key)| < Room(capacity)
  {
    CacheIsMostRecent(trace, capacity);
    RecencyIsTheKeys(trace);
    var r, n := Recency(trace), Room(capacity);
    if key in trace {
      var older, newer := RecencySplits(trace, key);
      assert Distinct(newer) by {
        assert forall i :: 0 <= i < |newer| ==> newer[i] == r[|older| + 1 + i];
      }
      DistinctSize(newer);
      assert r[|older|] == key;
      if |newer| < n {
        var l := Last(r, n);
        assert l[|l| - 1 - |newer|] == key;
      } else {
        assert forall i :: |r| - n <= i < |r| ==> r[i] != key;
      }
    } else {
      assert key !in r;
    }
  }

  // ------------------------------------------------------------------- inclusion

  /** The smaller cache is the recent end of the larger one. */
  lemma LargerCacheIncludes(trace: seq<string>, small: int, large: int)
    requires small <= large
    ensures Cache(trace, small) == Last(Cache(trace, large), Room(small))
  {
    CacheIsMostRecent(trace, small);
    CacheIsMostRecent(trace, large);
    LastOfLast(Recency(trace), Room(small), Room(large));
  }

  lemma LastOfLast(s: seq<string>, m: nat, n: nat)
    requires m <= n
    ensures Last(Last(s, n), m) == Last(s, m)
  {
  }

  function Hits(trace: seq<string>, capacity: int): nat {
    if trace == [] then 0
    else
      var init := trace[..|trace| - 1];
      Hits(init, capacity) + (if trace[|trace| - 1] in Cache(init, capacity) then 1 else 0)
  }

  /** A larger cache never has fewer hits. */
  lemma {:induction false} MoreRoomNeverHurts(trace: seq<string>, small: int, large: int)
    requires small <= large
    ensures Hits(trace, small) <= Hits(trace, large)
  {
    if trace == [] {
    } else {
      var init := trace[..|trace| - 1];
      MoreRoomNeverHurts(init, small, large);
      LargerCacheIncludes(init, small, large);
    }
  }

  /** Replaying a trace on a fresh cache leaves those entries and counts those hits. */
  method Replay(trace: seq<string>, capacity: int) returns (c: PrefixCache)
    ensures fresh(c) && c.capacity == capacity
    ensures c.entries == Cache(trace, capacity)
    ensures c.hits == Hits(trace, capacity) && c.queries == |trace|
  {
    c := new PrefixCache(capacity);
    for i := 0 to |trace|
      invariant c.entries == Cache(trace[..i], capacity)
      invariant c.hits == Hits(trace[..i], capacity) && c.queries == i
    {
      var hit := c.Lookup(trace[i]);
      assert trace[..i + 1][..i] == trace[..i];
    }
    assert trace[..|trace|] == trace;
  }
}

/**
 The breaker's failure window, twice.

 `Log` is the specification: the plain list of raw clock readings handed to the window since it was
 last cleared, with what each reading counted as.  `Ring` is what the router stores: one bucket per
 second, a head index and the head's start instant.  `Files` relates the two, and the lemmas show
 that rotating, counting and clearing the ring keep it the exact image of the log, for clock
 readings in any order.
 */
module SlidingWindow {
  import opened Cyclic

  /** Instants are nanosecond ticks; a slot is one second. */
  const TICKS_PER_SEC: nat := 1_000_000_000

  // ---------------------------------------------------------------- the log

  /** What one reading counted as; a probe's failure moves the window without being counted. */
  datatype Kind = Ok | Fail | Uncounted

  datatype Entry = Entry(now: nat, kind: Kind)

  datatype Log = Log(base: nat, entries: seq<Entry>)

  /** Whole seconds from `base` to `now`; a reading before `base` saturates to 0. */
  function SlotOf(base: nat, now: nat): nat {
    if now <= base then 0 else (now - base) / TICKS_PER_SEC
  }

  /** The newest slot any reading of `es` has reached. */
  function Newest(base: nat, es: seq<Entry>): nat {
    if es == [] then 0
    else Max(Newest(base, es[..|es| - 1]), SlotOf(base, es[|es| - 1].now))
  }

  function Max(a: nat, b: nat): nat {
    if a < b then b else a
  }

  /** Entries of `kind` filed in slots `lo <= slot < hi`; an entry is filed in the newest slot seen
      up to and including its own reading, so a stale reading lands in the current slot. */
  function Count(base: nat, es: seq<Entry>, kind: Kind, lo: int, hi: int): nat {
    if es == [] then 0
    else
      Count(base, es[..|es| - 1], kind, lo, hi)
      + if es[|es| - 1].kind == kind && lo <= Newest(base, es) < hi then 1 else 0
  }

  /** Samples of `kind` among the last `n` slots. */
  function InWindow(log: Log, n: nat, kind: Kind): nat {
    var top := Newest(log.base, log.entries);
    Count(log.base, log.entries, kind, top - n + 1, top + 1)
  }

  function Failures(log: Log, n: nat): nat {
    InWindow(log, n, Fail)
  }

  function Total(log: Log, n: nat): nat {
    InWindow(log, n, Fail) + InWindow(log, n, Ok)
  }

  function Append(log: Log, now: nat, kind: Kind): Log {
    log.(entries := log.entries + [Entry(now, kind)])
  }

  /** `Newest` is the maximum of the readings' slots (and 0). */
  lemma {:induction false} NewestIsMaximum(base: nat, es: seq<Entry>)
    ensures forall i :: 0 <= i < |es| ==> SlotOf(base, es[i].now) <= Newest(base, es)
    ensures Newest(base, es) == 0 || exists i :: 0 <= i < |es| && SlotOf(base, es[i].now) == Newest(base, es)
  {
    if es == [] {
    } else {
      var init, last := es[..|es| - 1], |es| - 1;
      NewestIsMaximum(base, init);
      assert forall i :: 0 <= i < last ==> es[i] == init[i];
      assert SlotOf(base, es[last].now) <= Newest(base, es);
    }
  }

  /** The whole seconds from `base` to `t`, each of 10^9 nanoseconds. */
  function WholeSeconds(base: nat, t: nat): (s: nat)
    requires base <= t
    ensures s * 1_000_000_000 <= t - base < (s + 1) * 1_000_000_000
  {
    (t - base) / 1_000_000_000
  }

  /** A slot is a whole number of seconds, rounded down; a reading before the base is in slot 0. */
  lemma SlotIsWholeSeconds(base: nat, now: nat)
    ensures now <= base ==> SlotOf(base, now) == 0
    ensures base <= now ==> SlotOf(base, now) == WholeSeconds(base, now)
    ensures base <= now ==>
            SlotOf(base, now) * 1_000_000_000 <= now - base < (SlotOf(base, now) + 1) * 1_000_000_000
  {
  }

  /** The newest instant read, or the base if every reading is older. */
  function Latest(base: nat, es: seq<Entry>): (t: nat)
    ensures t >= base
    ensures forall i :: 0 <= i < |es| ==> es[i].now <= t
    ensures t == base || exists i :: 0 <= i < |es| && es[i].now == t
  {
    if es == [] then base
    else
      var t := Latest(base, es[..|es| - 1]);
      assert forall i :: 0 <= i < |es| - 1 ==> es[i] == es[..|es| - 1][i];
      if t < es[|es| - 1].now then es[|es| - 1].now else t
  }

  /** The newest slot is the slot of the newest instant. */
  lemma {:induction false} NewestIsLatest(base: nat, es: seq<Entry>)
    ensures Newest(base, es) == WholeSeconds(base, Latest(base, es))
  {
    if es == [] {
    } else {
      NewestIsLatest(base, es[..|es| - 1]);
      SlotIsWholeSeconds(base, es[|es| - 1].now);
    }
  }

  lemma {:induction false} NewestGrows(base: nat, es: seq<Entry>, i: nat)
    requires i <= |es|
    ensures Newest(base, es[..i]) <= Newest(base, es)
  {
    if i == |es| {
      assert es[..i] == es;
    } else {
      NewestGrows(base, es[..|es| - 1], i);
      assert es[..|es| - 1][..i] == es[..i];
    }
  }

  /** Fewer than `n` whole slots lie between the sample at `i`, filed under the newest instant read up to
      then, and the newest instant of all. */
  predicate Recent(log: Log, n: nat, i: nat)
    requires i < |log.entries|
  {
    WholeSeconds(log.base, Latest(log.base, log.entries))
    - WholeSeconds(log.base, Latest(log.base, log.entries[..i + 1])) < n
  }

  function RecentSamples(log: Log, n: nat, kind: Kind): set<nat> {
    set i: nat | i < |log.entries| && log.entries[i].kind == kind && Recent(log, n, i)
  }

  lemma RecentIffFiled(log: Log, n: nat, i: nat)
    requires i < |log.entries|
    ensures var top := Newest(log.base, log.entries);
            Recent(log, n, i) <==> top - n + 1 <= Newest(log.base, log.entries[..i + 1]) < top + 1
  {
    NewestIsLatest(log.base, log.entries);
    NewestIsLatest(log.base, log.entries[..i + 1]);
    NewestGrows(log.base, log.entries, i + 1);
  }

  /** The window counts exactly the recent samples of the kind. */
  lemma WindowIsRecent(log: Log, n: nat, kind: Kind)
    ensures InWindow(log, n, kind) == |RecentSamples(log, n, kind)|
  {
    var top := Newest(log.base, log.entries);
    FiledIsRecent(log, n, kind);
    CountIsCardinality(log.base, log.entries, kind, top - n + 1, top + 1);
  }

  lemma FiledIsRecent(log: Log, n: nat, kind: Kind)
    ensures var top := Newest(log.base, log.entries);
            Positions(log.base, log.entries, kind, top - n + 1, top + 1) == RecentSamples(log, n, kind)
  {
    forall i: nat | i < |log.entries|
      ensures Recent(log, n, i) <==>
              var top := Newest(log.base, log.entries);
              top - n + 1 <= Newest(log.base, log.entries[..i + 1]) < top + 1
    {
      RecentIffFiled(log, n, i);
    }
  }

  /** By age: a sample at most `n - 1` seconds older than the newest instant is counted, and one at least
      `n` seconds older is not. */
  lemma RecentByAge(log: Log, n: nat, i: nat)
    requires n >= 1 && i < |log.entries|
    ensures Latest(log.base, log.entries[..i + 1]) <= Latest(log.base, log.entries)
    ensures var age := Latest(log.base, log.entries) - Latest(log.base, log.entries[..i + 1]);
            && (age <= (n - 1) * 1_000_000_000 ==> Recent(log, n, i))
            && (age >= n * 1_000_000_000 ==> !Recent(log, n, i))
  {
    LatestGrows(log.base, log.entries, i + 1);
  }

  lemma LatestGrows(base: nat, es: seq<Entry>, i: nat)
    requires i <= |es|
    ensures Latest(base, es[..i]) <= Latest(base, es)
  {
    var t := Latest(base, es[..i]);
    if t != base {
      var k :| 0 <= k < i && es[..i][k].now == t;
      assert es[k].now == t;
    }
  }

  predicate Holds(base: nat, es: seq<Entry>, i: nat, kind: Kind, lo: int, hi: int)
    requires i < |es|
  {
    es[i].kind == kind && lo <= Newest(base, es[..i + 1]) < hi
  }

  function Positions(base: nat, es: seq<Entry>, kind: Kind, lo: int, hi: int): set<nat> {
    set i: nat | i < |es| && Holds(base, es, i, kind, lo, hi)
  }

  lemma PositionsGrow(base: nat, es: seq<Entry>, kind: Kind, lo: int, hi: int)
    requires es != []
    ensures var before := Positions(base, es[..|es| - 1], kind, lo, hi);
            && |es| - 1 !in before
            && Positions(base, es, kind, lo, hi)
            == if Holds(base, es, |es| - 1, kind, lo, hi) then before + {|es| - 1} else before
  {
    var init := es[..|es| - 1];
    forall i: nat | i < |init| ensures Holds(base, init, i, kind, lo, hi) == Holds(base, es, i, kind, lo, hi) {
      assert init[..i + 1] == es[..i + 1];
    }
  }

  /** `Count` is the number of positions holding such an entry. */
  lemma {:induction false} CountIsCardinality(base: nat, es: seq<Entry>, kind: Kind, lo: int, hi: int)
    ensures Count(base, es, kind, lo, hi) == |Positions(base, es, kind, lo, hi)|
  {
    if es == [] {
    } else {
      CountIsCardinality(base, es[..|es| - 1], kind, lo, hi);
      PositionsGrow(base, es, kind, lo, hi);
      assert es[..|es| - 1 + 1] == es;
    }
  }

  lemma {:induction false} CountSplits(base: nat, es: seq<Entry>, kind: Kind, lo: int, mid: int, hi: int)
    requires lo <= mid <= hi
    ensures Count(base, es, kind, lo, hi) == Count(base, es, kind, lo, mid) + Count(base, es, kind, mid, hi)
  {
    if es == [] {
    } else {
      CountSplits(base, es[..|es| - 1], kind, lo, mid, hi);
    }
  }

  /** Nothing is filed beyond the newest slot, nor before slot 0. */
  lemma {:induction false} CountOutside(base: nat, es: seq<Entry>, kind: Kind, lo: int, hi: int)
    requires Newest(base, es) < lo || hi <= 0 || hi <= lo
    ensures Count(base, es, kind, lo, hi) == 0
  {
    if es == [] {
    } else {
      CountOutside(base, es[..|es| - 1], kind, lo, hi);
    }
  }

  /** In the first `n` seconds the window holds everything. */
  lemma WindowCoversAll(log: Log, n: nat, kind: Kind)
    requires Newest(log.base, log.entries) < n
    ensures InWindow(log, n, kind) == Count(log.base, log.entries, kind, 0, n)
  {
    var base, es, top := log.base, log.entries, Newest(log.base, log.entries);
    CountSplits(base, es, kind, top - n + 1, 0, top + 1);
    CountOutside(base, es, kind, top - n + 1, 0);
    CountSplits(base, es, kind, 0, top + 1, n);
    CountOutside(base, es, kind, top + 1, n);
  }

  // --------------------------------------------------------------- the ring

  datatype Bucket = Bucket(successes: nat, failures: nat)

  const EMPTY := Bucket(0, 0)

  datatype Ring = Ring(buckets: seq<Bucket>, head: nat, headStart: nat) {
    predicate WellFormed() {
      head < |buckets|
    }
  }

  /** Whole seconds from the head's start to `now`, saturating at 0. */
  function Elapsed(r: Ring, now: nat): nat {
    SlotOf(r.headStart, now)
  }

  /** Zero the `steps` buckets after the head, in the order the loop does. */
  function ClearAhead(bs: seq<Bucket>, head: nat, steps: nat): (r: seq<Bucket>)
    requires |bs| > 0
    ensures |r| == |bs|
  {
    if steps == 0 then bs
    else ClearAhead(bs, head, steps - 1)[Wrap(head + steps, |bs|) := EMPTY]
  }

  /** Advance the head by `steps` buckets, zeroing the ones it passes and lands on. */
  function Turn(r: Ring, steps: nat): (r': Ring)
    requires r.WellFormed()
    ensures r'.WellFormed() && |r'.buckets| == |r.buckets|
  {
    Ring(ClearAhead(r.buckets, r.head, steps), Wrap(r.head + steps, |r.buckets|), r.headStart)
  }

  function Steps(r: Ring, now: nat): (steps: nat)
    ensures steps <= |r.buckets|
  {
    if Elapsed(r, now) < |r.buckets| then Elapsed(r, now) else |r.buckets|
  }

  function Rotate(r: Ring, now: nat): (r': Ring)
    requires r.WellFormed()
    ensures r'.WellFormed() && |r'.buckets| == |r.buckets|
  {
    Turn(r, Steps(r, now)).(headStart := r.headStart + Elapsed(r, now) * TICKS_PER_SEC)
  }

  function SumFailures(bs: seq<Bucket>): nat {
    if bs == [] then 0 else SumFailures(bs[..|bs| - 1]) + bs[|bs| - 1].failures
  }

  function SumSuccesses(bs: seq<Bucket>): nat {
    if bs == [] then 0 else SumSuccesses(bs[..|bs| - 1]) + bs[|bs| - 1].successes
  }

  /** Count one sample in the head bucket. */
  function Tally(r: Ring, kind: Kind): (r': Ring)
    requires r.WellFormed()
    ensures r'.WellFormed() && |r'.buckets| == |r.buckets|
  {
    var b := r.buckets[r.head];
    match kind
    case Ok => r.(buckets := r.buckets[r.head := b.(successes := b.successes + 1)])
    case Fail => r.(buckets := r.buckets[r.head := b.(failures := b.failures + 1)])
    case Uncounted => r
  }

  function Cleared(r: Ring, now: nat): (r': Ring)
    requires r.WellFormed()
    ensures r'.WellFormed() && |r'.buckets| == |r.buckets|
  {
    Ring(seq(|r.buckets|, _ => EMPTY), 0, now)
  }

  /** The buckets oldest first: the one after the head, ..., the head. */
  function Chron(r: Ring): (c: seq<Bucket>)
    requires r.WellFormed()
    ensures |c| == |r.buckets|
  {
    r.buckets[r.head + 1..] + r.buckets[..r.head + 1]
  }

  /** The ring is the image of the log: the bucket `n - 1 - i` seconds behind the head holds
      exactly the samples the log files in that slot, and the head starts where the newest slot does. */
  ghost predicate Files(r: Ring, log: Log) {
    && r.WellFormed()
    && r.headStart == log.base + Newest(log.base, log.entries) * TICKS_PER_SEC
    && forall i :: 0 <= i < |r.buckets| ==> Chron(r)[i] == Filed(log, OldestSlot(log, |r.buckets|) + i)
  }

  ghost function OldestSlot(log: Log, n: nat): int {
    Newest(log.base, log.entries) - n + 1
  }

  ghost function Filed(log: Log, slot: int): Bucket {
    Bucket(Count(log.base, log.entries, Ok, slot, slot + 1), Count(log.base, log.entries, Fail, slot, slot + 1))
  }

  // ------------------------------------------------- rotation, index by index

  /** Overwriting the bucket `step` places after the head overwrites position `step - 1` of the view. */
  lemma WriteAhead(r: Ring, step: nat, b: Bucket)
    requires r.WellFormed() && 0 < step <= |r.buckets|
    ensures Chron(r.(buckets := r.buckets[Wrap(r.head + step, |r.buckets|) := b])) == Chron(r)[step - 1 := b]
  {
  }

  /** One more step of the clearing loop zeroes one more position of the view. */
  lemma ClearOneMore(r: Ring, steps: nat)
    requires r.WellFormed() && 0 < steps <= |r.buckets|
    ensures Chron(r.(buckets := ClearAhead(r.buckets, r.head, steps)))
         == Chron(r.(buckets := ClearAhead(r.buckets, r.head, steps - 1)))[steps - 1 := EMPTY]
  {
    var r0 := r.(buckets := ClearAhead(r.buckets, r.head, steps - 1));
    WriteAhead(r0, steps, EMPTY);
    assert r.(buckets := ClearAhead(r.buckets, r.head, steps))
        == r0.(buckets := r0.buckets[Wrap(r0.head + steps, |r0.buckets|) := EMPTY]);
  }

  /** Clearing ahead of the head zeroes the oldest `steps` buckets and no others. */
  lemma {:induction false} ClearAheadChron(r: Ring, steps: nat, i: nat)
    requires r.WellFormed() && steps <= |r.buckets| && i < |r.buckets|
    ensures Chron(r.(buckets := ClearAhead(r.buckets, r.head, steps)))[i]
         == if i < steps then EMPTY else Chron(r)[i]
  {
    if steps == 0 {
      assert r.(buckets := ClearAhead(r.buckets, r.head, 0)) == r;
    } else {
      ClearAheadChron(r, steps - 1, i);
      ClearOneMore(r, steps);
    }
  }

  /** Moving the head `steps` places on turns the view round by that much. */
  lemma HeadMoves(r: Ring, steps: nat, i: nat)
    requires r.WellFormed() && steps <= |r.buckets| && i < |r.buckets|
    ensures var n := |r.buckets|;
            var j := if i + steps < n then i + steps else i + steps - n;
            Chron(r.(head := Wrap(r.head + steps, n)))[i] == Chron(r)[j]
  {
  }

  lemma TurnShifts(r: Ring, steps: nat, i: nat)
    requires r.WellFormed() && steps <= |r.buckets| && i < |r.buckets|
    ensures Chron(Turn(r, steps))[i] == if i + steps < |r.buckets| then Chron(r)[i + steps] else EMPTY
  {
    var cleared := r.(buckets := ClearAhead(r.buckets, r.head, steps));
    var j := if i + steps < |r.buckets| then i + steps else i + steps - |r.buckets|;
    assert Turn(r, steps) == cleared.(head := Wrap(cleared.head + steps, |cleared.buckets|));
    assert Chron(Turn(r, steps))[i] == Chron(cleared)[j] by { HeadMoves(cleared, steps, i); }
    ClearAheadChron(r, steps, j);
  }

  /** Rotation by `e` seconds drops the oldest `min(e, n)` buckets and appends that many empty ones. */
  lemma RotateShifts(r: Ring, now: nat, i: nat)
    requires r.WellFormed() && i < |r.buckets|
    ensures var e := Elapsed(r, now);
            Chron(Rotate(r, now))[i] == if i + e < |r.buckets| then Chron(r)[i + e] else EMPTY
  {
    TurnShifts(r, Steps(r, now), i);
    assert Chron(Rotate(r, now)) == Chron(Turn(r, Steps(r, now)));
  }

  /** Within the head's second, or with a stale reading, rotation does nothing. */
  lemma RotateIdle(r: Ring, now: nat)
    requires r.WellFormed() && Elapsed(r, now) == 0
    ensures Rotate(r, now) == r
  {
  }

  /** `c'` is `c` with its first `e` buckets gone and empty ones added at the end. */
  ghost predicate Shifted(c: seq<Bucket>, e: nat, c': seq<Bucket>) {
    |c'| == |c| && forall i :: 0 <= i < |c| ==> c'[i] == if i + e < |c| then c[i + e] else EMPTY
  }

  lemma ShiftsAdd(c: seq<Bucket>, e1: nat, c1: seq<Bucket>, e2: nat, c2: seq<Bucket>, c': seq<Bucket>)
    requires Shifted(c, e1, c1) && Shifted(c1, e2, c2) && Shifted(c, e1 + e2, c')
    ensures c2 == c'
  {
  }

  lemma RotateIsShift(r: Ring, now: nat)
    requires r.WellFormed()
    ensures Shifted(Chron(r), Elapsed(r, now), Chron(Rotate(r, now)))
  {
    forall i | 0 <= i < |r.buckets|
      ensures Chron(Rotate(r, now))[i]
           == if i + Elapsed(r, now) < |r.buckets| then Chron(r)[i + Elapsed(r, now)] else EMPTY
    {
      RotateShifts(r, now, i);
    }
  }

  /** Rotating to `t1` and then to `t2` leaves the same window as rotating once to the later of the
      two: the same buckets read back from the head, the same head start. */
  lemma RotationsCompose(r: Ring, t1: nat, t2: nat)
    requires r.WellFormed()
    ensures var t := if t1 < t2 then t2 else t1;
            && Chron(Rotate(Rotate(r, t1), t2)) == Chron(Rotate(r, t))
            && Rotate(Rotate(r, t1), t2).headStart == Rotate(r, t).headStart
  {
    var t, r1 := if t1 < t2 then t2 else t1, Rotate(r, t1);
    var e1, e2, e := Elapsed(r, t1), Elapsed(r1, t2), Elapsed(r, t);
    assert e1 + e2 == e by { SlotsAdd(r.headStart, t1, t2); }
    assert Shifted(Chron(r), e1, Chron(r1)) by { RotateIsShift(r, t1); }
    assert Shifted(Chron(r1), e2, Chron(Rotate(r1, t2))) by { RotateIsShift(r1, t2); }
    assert Shifted(Chron(r), e, Chron(Rotate(r, t))) by { RotateIsShift(r, t); }
    ShiftsAdd(Chron(r), e1, Chron(r1), e2, Chron(Rotate(r1, t2)), Chron(Rotate(r, t)));
  }

  /** Seconds elapsed in two legs add up to the seconds elapsed to the later reading. */
  lemma SlotsAdd(base: nat, t1: nat, t2: nat)
    ensures SlotOf(base, t1) + SlotOf(base + SlotOf(base, t1) * TICKS_PER_SEC, t2)
         == Max(SlotOf(base, t1), SlotOf(base, t2))
         == SlotOf(base, if t1 < t2 then t2 else t1)
  {
  }

  // ------------------------------------------------- the ring refines the log

  /** Rotating to a reading files every old sample where the log does, before the reading itself. */
  lemma RotateFiles(r: Ring, log: Log, now: nat, i: nat)
    requires Files(r, log) && i < |r.buckets|
    ensures Chron(Rotate(r, now))[i] == Filed(log, OldestSlot(log, |r.buckets|) + Elapsed(r, now) + i)
  {
    var n, e := |r.buckets|, Elapsed(r, now);
    var slot := OldestSlot(log, n) + e + i;
    RotateShifts(r, now, i);
    if i + e < n {
      assert Chron(r)[i + e] == Filed(log, OldestSlot(log, n) + (i + e));
    } else {
      CountOutside(log.base, log.entries, Ok, slot, slot + 1);
      CountOutside(log.base, log.entries, Fail, slot, slot + 1);
    }
  }

  /** Tallying touches only the newest position of the view. */
  lemma TallyChron(r: Ring, kind: Kind, i: nat)
    requires r.WellFormed() && i < |r.buckets|
    ensures var b, b' := Chron(r)[i], Chron(Tally(r, kind))[i];
            var hit := i == |r.buckets| - 1;
            && b'.successes == b.successes + (if hit && kind == Ok then 1 else 0)
            && b'.failures == b.failures + (if hit && kind == Fail then 1 else 0)
  {
  }

  lemma RecordAt(r: Ring, log: Log, now: nat, kind: Kind, i: nat)
    requires Files(r, log) && i < |r.buckets|
    requires Newest(log.base, Append(log, now, kind).entries) == Newest(log.base, log.entries) + Elapsed(r, now)
    ensures Chron(Tally(Rotate(r, now), kind))[i]
         == Filed(Append(log, now, kind), OldestSlot(Append(log, now, kind), |r.buckets|) + i)
  {
    RotateFiles(r, log, now, i);
    TallyChron(Rotate(r, now), kind, i);
    FiledAfter(log, now, kind, OldestSlot(Append(log, now, kind), |r.buckets|) + i);
  }

  /** Rotating and tallying one reading keeps the ring the image of the log with that reading added. */
  lemma RecordRefines(r: Ring, log: Log, now: nat, kind: Kind)
    requires Files(r, log)
    ensures Files(Tally(Rotate(r, now), kind), Append(log, now, kind))
  {
    NewestAdvances(log, now, kind, r.headStart);
    forall i | 0 <= i < |r.buckets|
      ensures Chron(Tally(Rotate(r, now), kind))[i]
           == Filed(Append(log, now, kind), OldestSlot(Append(log, now, kind), |r.buckets|) + i)
    {
      RecordAt(r, log, now, kind, i);
    }
  }

  lemma NewestAdvances(log: Log, now: nat, kind: Kind, headStart: nat)
    requires headStart == log.base + Newest(log.base, log.entries) * TICKS_PER_SEC
    ensures Newest(log.base, Append(log, now, kind).entries)
         == Newest(log.base, log.entries) + SlotOf(headStart, now)
  {
  }

  /** A new reading changes only the newest slot's bucket, by one sample of its own kind. */
  lemma FiledAfter(log: Log, now: nat, kind: Kind, slot: int)
    ensures var log' := Append(log, now, kind);
            var hit := slot == Newest(log.base, log'.entries);
            && Filed(log', slot).successes == Filed(log, slot).successes + (if hit && kind == Ok then 1 else 0)
            && Filed(log', slot).failures == Filed(log, slot).failures + (if hit && kind == Fail then 1 else 0)
  {
    var es := Append(log, now, kind).entries;
    assert es[..|es| - 1] == log.entries;
  }

  lemma ClearRefines(r: Ring, now: nat)
    requires r.WellFormed()
    ensures Files(Cleared(r, now), Log(now, []))
  {
  }

  lemma {:induction false} SumsAppend(a: seq<Bucket>, b: seq<Bucket>)
    ensures SumFailures(a + b) == SumFailures(a) + SumFailures(b)
    ensures SumSuccesses(a + b) == SumSuccesses(a) + SumSuccesses(b)
  {
    if b == [] {
      assert a + b == a;
    } else {
      SumsAppend(a, b[..|b| - 1]);
      assert (a + b)[..|a + b| - 1] == a + b[..|b| - 1];
    }
  }

  lemma {:induction false} SumsOfFiled(bs: seq<Bucket>, log: Log, lo: int)
    requires forall i :: 0 <= i < |bs| ==> bs[i] == Filed(log, lo + i)
    ensures SumFailures(bs) == Count(log.base, log.entries, Fail, lo, lo + |bs|)
    ensures SumSuccesses(bs) == Count(log.base, log.entries, Ok, lo, lo + |bs|)
  {
    if bs == [] {
      CountOutside(log.base, log.entries, Fail, lo, lo);
      CountOutside(log.base, log.entries, Ok, lo, lo);
    } else {
      SumsOfFiled(bs[..|bs| - 1], log, lo);
      CountSplits(log.base, log.entries, Fail, lo, lo + |bs| - 1, lo + |bs|);
      CountSplits(log.base, log.entries, Ok, lo, lo + |bs| - 1, lo + |bs|);
    }
  }

  lemma SumsOfChron(r: Ring)
    requires r.WellFormed()
    ensures SumFailures(Chron(r)) == SumFailures(r.buckets)
    ensures SumSuccesses(Chron(r)) == SumSuccesses(r.buckets)
  {
    var older, recent := r.buckets[r.head + 1..], r.buckets[..r.head + 1];
    SumsAppend(older, recent);
    SumsAppend(recent, older);
    assert recent + older == r.buckets;
  }

  /** Summing the buckets in storage order counts exactly the log's samples of the last n slots. */
  lemma TotalsRefine(r: Ring, log: Log)
    requires Files(r, log)
    ensures SumFailures(r.buckets) == Failures(log, |r.buckets|)
    ensures SumFailures(r.buckets) + SumSuccesses(r.buckets) == Total(log, |r.buckets|)
  {
    SumsOfFiled(Chron(r), log, OldestSlot(log, |r.buckets|));
    SumsOfChron(r);
  }
}

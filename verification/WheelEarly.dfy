/// When a timer is fired early: the exact condition on the start and the end of a
/// scan, for all ends up to where the scan resumes after its wrong step.
module WheelEarly {
  import opened Base256
  import opened WheelScan
  import opened WheelStray
  import opened WheelTimer
  import opened WheelRuns
  import opened WheelGaps

  /** A catch-up that ends at `dest` may fire a timer of level `k` early: it has gone on to this level, and
      has not gone so far beyond its last slot that the deadlines of all its timers are past. From point 0
      no timer is early by a whole slot. */
  predicate EarlyAt(k: nat, from: nat, dest: nat) {
    && 1 <= k <= 3 && NextAbove(LevelEnd(k - 1, from), B(k)) < dest
    && if dest <= LevelEnd(k, from) then from > 0 || dest % B(k) != 0
       else dest < LevelEnd(k, from) + if from > 0 && from % B(k) == 0 then B(k) else from % B(k)
  }

  predicate EarlyEnd(from: nat, dest: nat) {
    EarlyAt(1, from, dest) || EarlyAt(2, from, dest) || EarlyAt(3, from, dest)
  }

  // -------------------------------------------------------------- otherwise no timer is early

  /** A slot fired outright that holds a timer not due at `dest`. */
  lemma EarlySlotEnds(k: nat, b: nat, from: nat, dest: nat, u: nat, p: nat, tick: nat)
    requires 1 <= k <= 3 && b == B(k) && p <= from && p / b < u < p / b + 256
    requires LevelEnd(k - 1, from) < u * b < dest <= tick < u * b + p % b + b && u * b <= LevelEnd(k, from)
    ensures EarlyAt(k, from, dest)
  {
    hide B, First;
    NextIsBefore(LevelEnd(k - 1, from), b, u);
    AtLeastTwo(k, b);
    if dest <= LevelEnd(k, from) {
      if from == 0 && dest % b == 0 {
        BetweenMultiples(dest, b, u);
      }
    } else {
      BeyondLast(k, b, from, dest, u, p, tick);
    }
  }

  lemma NextIsBefore(x: nat, b: nat, u: nat)
    requires 0 < b && x < u * b
    ensures NextAbove(x, b) <= u * b
  {
    DivModUnique(u * b, b, u, 0);
    NextAboveLeast(x, b, u * b);
  }

  lemma BetweenMultiples(x: nat, b: nat, u: nat)
    requires 0 < b && u * b < x < u * b + b
    ensures x % b != 0
  {
    DivModUnique(x, b, u, x - u * b);
  }

  /** Beyond the last slot of the level. */
  lemma BeyondLast(k: nat, b: nat, from: nat, dest: nat, u: nat, p: nat, tick: nat)
    requires 1 <= k <= 3 && 1 < b == B(k) && p <= from && p / b < u < p / b + 256
    requires LevelEnd(k, from) < dest <= tick < u * b + p % b + b && u * b <= LevelEnd(k, from)
    ensures dest < LevelEnd(k, from) + if from > 0 && from % b == 0 then b else from % b
  {
    hide B;
    var q, r, f := from / b, from % b, First(k, from);
    FirstIs(k, b, from);
    FloorMono(p, from, b);
    assert from == q * b + r && p == (p / b) * b + p % b;
    var last := f + 255;
    assert LevelEnd(k, from) == last * b;
    MulCancelLt(u, last + 1, b) by {
      Distribute(last, 1, b);
    }
    if u + 2 <= last {
      MulMono(u + 2, last, b);
      Distribute(u, 2, b);
    } else if u + 1 == last {
      Distribute(u, 1, b);
      if r != 0 || from == 0 {
        assert p / b == q;
      }
    } else {
      assert p / b == q == f;
    }
  }

  lemma FirstIs(k: nat, b: nat, from: nat)
    requires 0 < k && 1 < b == B(k)
    ensures First(k, from) == if from > 0 && from % b == 0 then from / b else from / b + 1
  {
    if from == 0 {
      CeilDivUnique(1, b, 1);
    }
  }

  lemma FloorMono(x: nat, y: nat, b: nat)
    requires 0 < b && x <= y
    ensures x / b <= y / b
  {
    FloorBounds(x, b);
    FloorBounds(y, b);
    Distribute(y / b, 1, b);
    MulCancelLt(x / b, y / b + 1, b);
  }

  lemma AtLeastTwo(k: nat, b: nat)
    requires k > 0 && b == B(k)
    ensures b > 1
  {
  }

  lemma DirectBounds(k: nat, o: nat, from: nat, dest: nat)
    requires Direct(k, o, from, dest)
    ensures LevelEnd(k - 1, from) < NextVisit(k, o, from) < dest && NextVisit(k, o, from) <= LevelEnd(k, from)
  {
    LastOfLevel(k, o, from);
  }

  /** A timer that fits a slot fired outright, and is not due at `dest`. */
  lemma TightEarly(k: nat, o: nat, from: nat, dest: nat, tick: nat)
    requires Direct(k, o, from, dest) && Fits(tick, k, o, from) && dest <= tick
    ensures EarlyEnd(from, dest)
  {
    hide Direct, Belongs, EarlyAt, InTime, LevelEnd, First;
    var p: nat :| p <= from && Belongs(tick, k, o, p) && NextVisit(k, o, p) == NextVisit(k, o, from);
    DirectBounds(k, o, from, dest);
    DirectLevels(k, o, from, dest);
    BelongsAt(tick, k, o, p);
    EarlySlotEnds(k, B(k), from, dest, NextIndex(k, o, p), p, tick);
  }

  lemma DirectLevels(k: nat, o: nat, from: nat, dest: nat)
    requires Direct(k, o, from, dest)
    ensures 1 <= k <= 3
  {
  }

  /** Where the condition does not hold, no wheel that is on time fires a timer early. */
  lemma NoneEarly(v: View, now: int, v': View, precision: nat)
    requires 0 < precision && Timely(v, precision) && Ran(v, now, v', precision)
    requires v'.point <= Resume(v.point) && !EarlyEnd(v.point, v'.point)
    ensures forall j: nat :: |v.fired| <= j < |v'.fired| ==> v'.fired[j].tp <= now
  {
    hide Whole, FiredOutright, Scanned, MissesNone, Resume, EarlyEnd, Fits, Outright;
    forall j: nat | |v.fired| <= j < |v'.fired|
      ensures v'.fired[j].tp <= now
    {
      var e := v'.fired[j];
      assert MayFire(e, v.slots, v.point, v'.point, now, precision);
      if e.tp > now {
        var k: nat, o: nat :| k < |v.slots| && o < |v.slots[k]| && e in v.slots[k][o]
          && Hasty(e, k, o, v.point, v'.point, precision);
        assert SlotFits(v.slots[k][o], k, o, v.point, precision);
        var i: nat :| i < |v.slots[k][o]| && v.slots[k][o][i] == e;
        OutrightDirect(k, o, v.point, v'.point);
        FloorMono(now, e.tp, precision);
        TightEarly(k, o, v.point, v'.point, e.tp / precision);
      }
    }
  }

  lemma OutrightDirect(k: nat, o: nat, from: nat, dest: nat)
    requires Outright(k, o, from, dest) && dest <= Resume(from)
    ensures Direct(k, o, from, dest)
  {
  }

  // -------------------------------------------------------------- there, some timer is

  /** A timer started at `p`, which is q widths of a slot and r ticks, is early in the slot fired last. */
  ghost predicate EarlyStart(b: nat, u: nat, from: nat, dest: nat, p: nat, q: nat, r: nat) {
    && p <= from <= p + 1 && p == q * b + r && r < b && u * b < dest <= u * b + b
    && (r == 0 ==> from == 0 && dest < u * b + b)
  }

  lemma StartPoint(k: nat, b: nat, u: nat, from: nat, dest: nat, p: nat, q: nat, r: nat)
    requires k > 0 && b == B(k) && u * b < dest <= u * b + b && (from > 0 || dest % b != 0)
    requires p == if from > 0 && from % b == 0 then from - 1 else from
    requires q == p / b && r == p % b
    ensures EarlyStart(b, u, from, dest, p, q, r)
  {
    AtLeastTwo(k, b);
    if from > 0 {
      NotAligned(from, p, b);
    } else if dest == u * b + b {
      Distribute(u, 1, b);
      DivModUnique(dest, b, u + 1, 0);
    }
  }

  lemma EarlySlot(k: nat, b: nat, p: nat, q: nat, r: nat, from: nat, dest: nat, u: nat, tick: nat, o: nat)
    requires 1 <= k <= 3 && b == B(k) && EarlyStart(b, u, from, dest, p, q, r)
    requires LevelEnd(k - 1, from) < u * b < LevelEnd(k, from)
    requires tick == u * b + r + b - 1 && o == u % 256
    ensures p <= from < dest <= tick < dest + 2 * b
    ensures Level(p, tick) == k && Offset(p, tick) == o
    ensures from <= NextVisit(k, o, p) && Direct(k, o, from, dest)
  {
    hide LevelEnd, First, Digit, B, Level, Offset;
    LevelEndBounds(k - 1, from);
    EarlyIndex(k, b, p, q, r, from, dest, u);
    PlacedAt(k, b, u, p, q, r, b - 1, tick);
    NextIndexUnique(k, o, p, u);
    NextIndexUnique(k, o, from, u);
  }

  lemma NotAligned(from: nat, p: nat, b: nat)
    requires 1 < b && from > 0 && p == if from % b == 0 then from - 1 else from
    ensures p % b != 0
  {
    if from % b == 0 {
      var q := from / b;
      assert from == q * b && q > 0;
      Distribute(q, -1, b);
      DivModUnique(p, b, q - 1, b - 1);
    }
  }

  lemma EarlyIndex(k: nat, b: nat, p: nat, q: nat, r: nat, from: nat, dest: nat, u: nat)
    requires 1 <= k <= 3 && b == B(k) && EarlyStart(b, u, from, dest, p, q, r) && from < u * b < LevelEnd(k, from)
    ensures 0 < u - q < 256
    ensures First(k, p) <= u < First(k, p) + 256 && First(k, from) <= u < First(k, from) + 256
  {
    hide B;
    MulCancelLt(u, First(k, from) + 255, b);
    MulCancelLt(q, u, b);
    FirstLeast(k, from, u);
    FirstLeast(k, p, u);
    Distribute(q, 1, b);
    FirstLeast(k, from, q + 1);
    FirstBounds(k, p);
    Distribute(First(k, p), 1, b);
    MulCancelLt(q, First(k, p) + 1, b);
  }

  lemma EarlyTime(tick: nat, p: nat, from: nat, dest: nat, b: nat, precision: nat)
    requires p <= from < dest <= tick < dest + 2 * b && 1 < precision
    requires (dest + 3 * b) * precision < CLOCK_END
    ensures (tick * precision + 1) / precision == tick
    ensures p * precision <= from * precision < dest * precision < tick * precision + 1 < CLOCK_END
  {
    DivModUnique(tick * precision + 1, precision, tick, 1);
    MulMono(p, from, precision);
    MulStep(from, dest, precision);
    MulMono(dest, tick, precision);
    MulStep(tick, dest + 3 * b, precision);
  }

  lemma OutrightFired(w: seq<seq<seq<Element>>>, k: nat, o: nat, from: nat, dest: nat, fired: seq<Element>, e: Element)
    requires FiredOutright(w, from, dest, fired) && Direct(k, o, from, dest)
    requires k < |w| && o < |w[k]| && e in w[k][o]
    ensures e in fired
  {
  }

  function Floor(x: nat, d: nat): nat
    requires 0 < d
  {
    x / d
  }

  /** The index of a slot that holds a timer not due at `dest`, when one is fired. */
  function EarlyIndexOf(k: nat, from: nat, dest: nat): nat
    requires 0 < dest
  {
    if dest <= LevelEnd(k, from) then Floor(dest - 1, B(k)) else Floor(from, B(k)) + 255
  }

  /** A point from which such a timer is put in this slot. */
  function EarlyPointOf(k: nat, from: nat, dest: nat): nat {
    if dest <= LevelEnd(k, from) && from > 0 && from % B(k) == 0 then from - 1 else from
  }

  /** The latest deadline put there from this point. */
  function EarlyTick(k: nat, from: nat, dest: nat): nat
    requires 0 < dest
  {
    EarlyIndexOf(k, from, dest) * B(k) + EarlyPointOf(k, from, dest) % B(k) + B(k) - 1
  }

  lemma EarlyPlan(k: nat, b: nat, from: nat, dest: nat, u: nat, p: nat, tick: nat)
    requires EarlyAt(k, from, dest) && b == B(k) && 0 < dest
    requires u == EarlyIndexOf(k, from, dest) && p == EarlyPointOf(k, from, dest) && tick == u * b + p % b + b - 1
    ensures p <= from < dest <= tick < dest + 2 * b && Level(p, tick) == k && Offset(p, tick) == u % 256
    ensures from <= NextVisit(k, u % 256, p) && Direct(k, u % 256, from, dest)
  {
    hide LevelEnd, B, Level, Offset, NextVisit, Direct, Floor, NextAbove;
    AtLeastTwo(k, b);
    if dest <= LevelEnd(k, from) {
      BeforeEnd(k, b, from, dest, u, p, tick);
    } else {
      LateSlot(k, b, from, dest, Floor(from, b), from % b, u, tick);
    }
  }

  lemma BeforeEnd(k: nat, b: nat, from: nat, dest: nat, u: nat, p: nat, tick: nat)
    requires 1 <= k <= 3 && 1 < b == B(k) && 0 < dest <= LevelEnd(k, from) && (from > 0 || dest % b != 0)
    requires NextAbove(LevelEnd(k - 1, from), b) < dest && u == Floor(dest - 1, b)
    requires p == (if from > 0 && from % b == 0 then from - 1 else from) && tick == u * b + p % b + b - 1
    ensures p <= from < dest <= tick < dest + 2 * b && Level(p, tick) == k && Offset(p, tick) == u % 256
    ensures from <= NextVisit(k, u % 256, p) && Direct(k, u % 256, from, dest)
  {
    hide LevelEnd, B, Level, Offset, NextVisit, Direct;
    LastBefore(LevelEnd(k - 1, from), dest, b, u);
    StartPoint(k, b, u, from, dest, p, p / b, p % b);
    EarlySlot(k, b, p, p / b, p % b, from, dest, u, tick, u % 256);
  }

  /** The last multiple before `dest` is not before the next one after x. */
  lemma LastBefore(x: nat, dest: nat, b: nat, u: nat)
    requires 0 < b && 0 < dest && NextAbove(x, b) < dest && u == (dest - 1) / b
    ensures x < u * b < dest <= u * b + b
  {
    FloorBounds(dest - 1, b);
    FloorMono(NextAbove(x, b), dest - 1, b);
    DivModUnique(NextAbove(x, b), b, x / b + 1, 0);
    NextAboveBounds(x, b);
    MulMono(x / b + 1, u, b);
  }

  /** The last slot of the level that holds any timer. */
  lemma LateSlot(k: nat, b: nat, from: nat, dest: nat, q: nat, r: nat, u: nat, tick: nat)
    requires 1 <= k <= 3 && 1 < b == B(k) && q == Floor(from, b) && r == from % b
    requires u == q + 255 && tick == u * b + r + b - 1
    requires LevelEnd(k, from) < dest < LevelEnd(k, from) + if from > 0 && r == 0 then b else r
    ensures from < dest <= tick < dest + 2 * b && Level(from, tick) == k && Offset(from, tick) == u % 256
    ensures from <= NextVisit(k, u % 256, from) && Direct(k, u % 256, from, dest)
  {
    hide B, Digit, Level, Offset, First, LevelEnd;
    LateIndex(k, b, from, dest, q, r, u);
    LevelEndBounds(k - 1, from);
    PlacedAt(k, b, u, from, q, r, b - 1, tick);
    NextIndexUnique(k, u % 256, from, u);
  }

  lemma LateIndex(k: nat, b: nat, from: nat, dest: nat, q: nat, r: nat, u: nat)
    requires 1 <= k <= 3 && 1 < b == B(k) && q == Floor(from, b) && r == from % b && u == q + 255
    requires LevelEnd(k, from) < dest < LevelEnd(k, from) + if from > 0 && r == 0 then b else r
    ensures from == q * b + r && First(k, from) <= u < First(k, from) + 256
    ensures from + b < u * b < dest <= u * b + r + b - 1 && dest > u * b && u * b + r + b - 1 < dest + 2 * b
  {
    hide B, First;
    FirstIs(k, b, from);
    assert from == q * b + r;
    Distribute(q, 255, b);
    Distribute(u, 1, b);
  }

  function EarlyRun(precision: nat, k: nat, from: nat, dest: nat): seq<Op>
    requires 0 < dest
  {
    WaitingRun(precision, EarlyPointOf(k, from, dest), from, EarlyTick(k, from, dest) * precision + 1)
  }

  lemma EarlySensible(precision: nat, k: nat, from: nat, dest: nat)
    requires 100_000 <= precision && EarlyAt(k, from, dest) && 0 < dest && (dest + 3 * B(k)) * precision < CLOCK_END
    ensures Sensible(EarlyRun(precision, k, from, dest) + [Run(dest * precision)])
  {
    hide WaitingRun, Level, Offset, NextVisit, B, EarlyAt, EarlyIndexOf, EarlyPointOf, Sensible;
    var b, u, p := B(k), EarlyIndexOf(k, from, dest), EarlyPointOf(k, from, dest);
    var tick := EarlyTick(k, from, dest);
    EarlyPlan(k, b, from, dest, u, p, tick);
    EarlyTime(tick, p, from, dest, b, precision);
    WaitingSensible(precision, p, from, tick * precision + 1, dest);
  }

  /**
   * Where it holds there is a run with an early timer. In every trace of the run: until its last scan none
   * has missed a timer, and the wheel is at `from` and on time; and the last scan, to `dest`, fires a timer
   * that is due only after it.
   */
  lemma EarlyFires(precision: nat, k: nat, from: nat, dest: nat, views: seq<View>) returns (e: Element)
    requires 100_000 <= precision && EarlyAt(k, from, dest) && 0 < dest && (dest + 3 * B(k)) * precision < CLOCK_END
    requires Trace(views, EarlyRun(precision, k, from, dest) + [Run(dest * precision)], precision)
    ensures var run := EarlyRun(precision, k, from, dest);
            var v, v' := views[|run|], views[|run| + 1];
            && NoneMissed(views[..|run| + 1], run) && Timely(v, precision)
            && v.point == from && e !in v.fired
            && v'.point == dest && e in v'.fired && v'.clock < e.tp
  {
    hide WaitingRun, MissesNone, Level, Offset, NextVisit, Whole, Timely, Ran, Started, B, NoneMissed, EarlyAt;
    hide EarlyIndexOf, EarlyPointOf;
    var b, u, p := B(k), EarlyIndexOf(k, from, dest), EarlyPointOf(k, from, dest);
    var tick, run := EarlyTick(k, from, dest), EarlyRun(precision, k, from, dest);
    EarlyPlan(k, b, from, dest, u, p, tick);
    EarlyTime(tick, p, from, dest, b, precision);
    PartOfSelf(run, Run(dest * precision));
    e := Arrives(views, run + [Run(dest * precision)], precision, p, from, tick * precision + 1);
    assert Step(views[|run|], Run(dest * precision), views[|run| + 1], precision);
    EarlyLast(views[|run|], views[|run| + 1], precision, from, dest, e, k, u % 256);
  }

  lemma EarlyLast(v: View, v': View, precision: nat, from: nat, dest: nat, e: Element, k: nat, o: nat)
    requires 0 < precision && Waiting(v, precision, from, e, k, o) && Ran(v, dest * precision, v', precision)
    requires Direct(k, o, from, dest)
    ensures Timely(v, precision) && v.point == from && e !in v.fired
    ensures v'.point == dest && v'.clock == dest * precision && e in v'.fired
  {
    hide Direct, Timely, Scanned, AllMayFire, FiredOutright, MissesNone;
    DivModUnique(dest * precision, precision, dest, 0);
    assert Waits(v.slots, e);
    OutrightFired(v.slots, k, o, from, dest, v'.fired, e);
  }

  /** The wheel has such a run: driven so, it fires the timer early. */
  method FireEarly(precision: nat, k: nat, from: nat, dest: nat)
    returns (t: Timer, ghost views: seq<View>, ghost e: Element)
    requires 100_000 <= precision && EarlyAt(k, from, dest) && 0 < dest && (dest + 3 * B(k)) * precision < CLOCK_END
    ensures var run := EarlyRun(precision, k, from, dest);
            && Trace(views, run + [Run(dest * precision)], precision) && t.Valid() && t.Snapshot() == views[|run| + 1]
            && views[|run|].point == from && t.point == dest && e in t.fired && t.clock < e.tp
  {
    hide EarlyRun, EarlyAt, Trace, Sensible, Timely, NoneMissed;
    EarlySensible(precision, k, from, dest);
    t, views := Play(precision, EarlyRun(precision, k, from, dest) + [Run(dest * precision)]);
    e := EarlyFires(precision, k, from, dest, views);
  }
}

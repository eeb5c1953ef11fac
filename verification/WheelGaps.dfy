/// The bounds on late and early timers are sharp: for every start and end of a scan
/// that may miss a timer, or fire one early, there is a run that does. What is said
/// of such a run holds of every trace of it, and the wheel has one.
module WheelGaps {
  import opened Base256
  import opened WheelScan
  import opened WheelStray
  import opened WheelTimer
  import opened WheelRuns

  /** A scan of that many ticks never misses a timer. */
  const HOP := 0x1_0000_0000

  /** Scans, one after the other, from point `a` to point `b`. */
  function StepsTo(a: nat, b: nat, precision: nat): seq<Op>
    decreases b - a
  {
    if a >= b then [] else [Run(Hop(a, b) * precision)] + StepsTo(Hop(a, b), b, precision)
  }

  function Hop(a: nat, b: nat): (next: nat)
    ensures a < b ==> a < next <= b && next <= a + HOP
  {
    if b <= a + HOP then b else a + HOP
  }

  /** A timer started at point `p`, and scans up to point `from`. */
  function WaitingRun(precision: nat, p: nat, from: nat, tp: int): seq<Op> {
    StepsTo(0, p, precision) + [Start(tp)] + StepsTo(p, from, precision)
  }

  lemma UpToLimit(from: nat, dest: nat)
    requires dest <= from + HOP
    ensures MissesNone(from, dest)
  {
    LimitFar(from);
  }

  lemma StaysGrown(s: seq<Element>, s': seq<Element>, e: Element, now: int)
    requires e in s && Grown(s, s', now)
    ensures e in s'
  {
    var j: nat :| j < |s| && s[j] == e;
    assert s'[j] == e;
  }

  // -------------------------------------------------------------- sensible times

  /** The operations from the i-th on begin with these. */
  ghost predicate Part(ops: seq<Op>, i: nat, part: seq<Op>) {
    i + |part| <= |ops| && ops[i..i + |part|] == part
  }

  lemma PartSteps(ops: seq<Op>, i: nat, a: nat, b: nat, precision: nat)
    requires a < b && Part(ops, i, StepsTo(a, b, precision))
    ensures i < |ops| && ops[i] == Run(Hop(a, b) * precision)
    ensures Part(ops, i + 1, StepsTo(Hop(a, b), b, precision))
    ensures |StepsTo(a, b, precision)| == 1 + |StepsTo(Hop(a, b), b, precision)|
  {
    var steps, rest := StepsTo(a, b, precision), StepsTo(Hop(a, b), b, precision);
    assert ops[i] == ops[i..i + |steps|][0] && steps[1..] == rest;
    assert ops[i + 1..i + 1 + |rest|] == ops[i..i + |steps|][1..];
  }

  lemma {:induction false} StepsSensible(ops: seq<Op>, i: nat, a: nat, b: nat, precision: nat)
    requires a <= b && b * precision < CLOCK_END && Part(ops, i, StepsTo(a, b, precision))
    requires ClockAfter(ops, i) == a * precision
    ensures var j := i + |StepsTo(a, b, precision)|;
            && ClockAfter(ops, j) == b * precision
            && forall m: nat :: i <= m < j ==> ops[m].Run? && 0 <= ClockAfter(ops, m) <= ops[m].now < CLOCK_END
    decreases b - a
  {
    hide Part, StepsTo, ClockAfter;
    if a < b {
      var next := Hop(a, b);
      PartSteps(ops, i, a, b, precision);
      MulMono(a, next, precision);
      MulMono(next, b, precision);
      ClockAfterRun(ops, i);
      StepsSensible(ops, i + 1, next, b, precision);
    } else {
      NoSteps(a, b, precision);
    }
  }

  lemma ClockAfterRun(ops: seq<Op>, i: nat)
    requires i < |ops| && ops[i].Run?
    ensures ClockAfter(ops, i + 1) == ops[i].now
  {
  }

  lemma NoSteps(a: nat, b: nat, precision: nat)
    requires b <= a
    ensures StepsTo(a, b, precision) == []
  {
  }

  // -------------------------------------------------------------- waiting

  /** The wheel is at a point, and on time. */
  ghost predicate Ready(v: View, precision: nat, at: nat)
    requires 0 < precision
  {
    Whole(v, precision) && Timely(v, precision) && v.point == at && v.clock == at * precision
  }

  /** And the timer is in the slot. */
  ghost predicate Waiting(v: View, precision: nat, at: nat, e: Element, k: nat, o: nat)
    requires 0 < precision
  {
    Ready(v, precision, at) && k < LEVELS && o < SLOTS && Square(v.slots) && e in v.slots[k][o]
  }

  lemma HopReady(v: View, v': View, precision: nat, next: nat)
    requires 0 < precision && Ready(v, precision, v.point)
    requires Ran(v, next * precision, v', precision) && next <= v.point + HOP
    ensures Ready(v', precision, next) && MissesNone(v.point, v'.point)
  {
    hide Whole, Timely, AllMayFire, FiredOutright, Scanned, MissesNone;
    DivModUnique(next * precision, precision, next, 0);
    UpToLimit(v.point, next);
  }

  lemma {:induction false} StepsReach(views: seq<View>, ops: seq<Op>, precision: nat, i: nat, a: nat, b: nat)
    requires 0 < precision && Trace(views, ops, precision) && Part(ops, i, StepsTo(a, b, precision)) && a <= b
    requires Ready(views[i], precision, a)
    ensures var j := i + |StepsTo(a, b, precision)|;
            && Ready(views[j], precision, b)
            && forall m: nat :: i <= m < j ==> MissesNone(views[m].point, views[m + 1].point)
    decreases b - a
  {
    hide Part, Ran, Whole, Timely, MissesNone;
    if a < b {
      PartSteps(ops, i, a, b, precision);
      assert Step(views[i], ops[i], views[i + 1], precision);
      HopReady(views[i], views[i + 1], precision, Hop(a, b));
      StepsReach(views, ops, precision, i + 1, Hop(a, b), b);
    }
  }

  /** One such scan: a timer whose slot is not met before stays there. */
  lemma HopWaits(v: View, v': View, precision: nat, next: nat, e: Element, k: nat, o: nat)
    requires 0 < precision && Waiting(v, precision, v.point, e, k, o)
    requires Ran(v, next * precision, v', precision) && next <= v.point + HOP && next <= NextVisit(k, o, v.point)
    ensures Waiting(v', precision, next, e, k, o) && NextVisit(k, o, next) == NextVisit(k, o, v.point)
    ensures MissesNone(v.point, v'.point)
  {
    hide Whole, Timely, AllMayFire, FiredOutright, MissesNone, CaughtUp, NextVisit;
    HopReady(v, v', precision, next);
    NextVisitStable(k, o, v.point, next);
    var gone: seq<set<nat>> :| ScanFinished(gone, v.point, v'.point) && |gone| == LEVELS
      && forall k: nat, o: nat :: k < LEVELS && o < SLOTS ==>
           Grown(if o in gone[k] then [] else v.slots[k][o], v'.slots[k][o], next * precision);
    assert o !in gone[k];
    StaysGrown(v.slots[k][o], v'.slots[k][o], e, next * precision);
  }

  lemma {:induction false} StepsWait(views: seq<View>, ops: seq<Op>, precision: nat, i: nat, a: nat, b: nat,
                                     e: Element, k: nat, o: nat)
    requires 0 < precision && Trace(views, ops, precision) && Part(ops, i, StepsTo(a, b, precision)) && a <= b
    requires Waiting(views[i], precision, a, e, k, o) && b <= NextVisit(k, o, a)
    ensures var j := i + |StepsTo(a, b, precision)|;
            && Waiting(views[j], precision, b, e, k, o)
            && forall m: nat :: i <= m < j ==> MissesNone(views[m].point, views[m + 1].point)
    decreases b - a
  {
    hide Part, Waiting, Ran, MissesNone, NextVisit;
    if a < b {
      var next := Hop(a, b);
      PartSteps(ops, i, a, b, precision);
      WaitingPoint(views[i], precision, a, e, k, o);
      assert Step(views[i], ops[i], views[i + 1], precision);
      HopWaits(views[i], views[i + 1], precision, next, e, k, o);
      StepsWait(views, ops, precision, i + 1, next, b, e, k, o);
    }
  }

  lemma WaitingPoint(v: View, precision: nat, at: nat, e: Element, k: nat, o: nat)
    requires 0 < precision && Waiting(v, precision, at, e, k, o)
    ensures v.point == at
  {
  }

  /** The new timer is in its slot. */
  lemma StartWaits(v: View, v': View, precision: nat, at: nat, tp: int)
    requires 0 < precision && Ready(v, precision, at) && Started(v, tp, v', precision) && at * precision < tp
    ensures var e := Element(|v.started|, tp);
            Waiting(v', precision, at, e, Level(at, tp / precision), Offset(at, tp / precision))
  {
    hide Whole, Timely, Level, Offset;
    var k, o, e := Level(at, tp / precision), Offset(at, tp / precision), Element(|v.started|, tp);
    assert v'.slots[k][o] == v.slots[k][o] + [e];
  }

  /** Where the three parts of the run are. */
  lemma WaitingParts(ops: seq<Op>, precision: nat, p: nat, from: nat, tp: int, n: nat)
    requires Part(ops, 0, WaitingRun(precision, p, from, tp)) && n == |StepsTo(0, p, precision)|
    ensures Part(ops, 0, StepsTo(0, p, precision)) && n < |ops| && ops[n] == Start(tp)
    ensures Part(ops, n + 1, StepsTo(p, from, precision))
    ensures |WaitingRun(precision, p, from, tp)| == n + 1 + |StepsTo(p, from, precision)|
  {
    hide StepsTo;
    var run, last := WaitingRun(precision, p, from, tp), StepsTo(p, from, precision);
    assert ops[..n] == ops[..|run|][..n] == run[..n];
    assert ops[n] == ops[..|run|][n];
    assert ops[n + 1..n + 1 + |last|] == ops[..|run|][n + 1..] == run[n + 1..];
  }

  /** In every trace of the run the timer waits at point `from`, and until then no scan has missed a timer. */
  lemma Arrives(views: seq<View>, ops: seq<Op>, precision: nat, p: nat, from: nat, tp: int) returns (e: Element)
    requires 0 < precision && Trace(views, ops, precision) && Part(ops, 0, WaitingRun(precision, p, from, tp))
    requires p <= from && p * precision < tp && p <= tp / precision
    requires from <= NextVisit(Level(p, tp / precision), Offset(p, tp / precision), p)
    ensures var n := |WaitingRun(precision, p, from, tp)|;
            && n <= |ops| && e.tp == tp
            && Waiting(views[n], precision, from, e, Level(p, tp / precision), Offset(p, tp / precision))
            && NoneMissed(views[..n + 1], ops[..n])
  {
    hide Part, Waiting, Ready, Whole, Timely, Started, Ran, MissesNone, NextVisit, Level, Offset, StepsTo, WaitingRun;
    var n := |StepsTo(0, p, precision)|;
    WaitingParts(ops, precision, p, from, tp, n);
    StartReady(precision);
    StepsReach(views, ops, precision, 0, 0, p);
    assert Step(views[n], ops[n], views[n + 1], precision);
    e := Element(|views[n].started|, tp);
    StartWaits(views[n], views[n + 1], precision, p, tp);
    var k, o := Level(p, tp / precision), Offset(p, tp / precision);
    PartWithin(ops, n + 1, StepsTo(p, from, precision));
    StepsWait(views, ops, precision, n + 1, p, from, e, k, o);
  }

  lemma StartReady(precision: nat)
    requires 0 < precision
    ensures Ready(Empty(), precision, 0)
  {
    EmptyWhole(precision);
  }

  lemma PartWithin(ops: seq<Op>, i: nat, part: seq<Op>)
    requires Part(ops, i, part)
    ensures i + |part| <= |ops|
  {
  }

  lemma WaitingSensible(precision: nat, p: nat, from: nat, tp: int, dest: nat)
    requires p <= from <= dest && dest * precision < CLOCK_END && tp < CLOCK_END
    ensures Sensible(WaitingRun(precision, p, from, tp) + [Run(dest * precision)])
  {
    hide StepsTo, WaitingRun, Part;
    var run, last := WaitingRun(precision, p, from, tp), Run(dest * precision);
    var ops, n := run + [last], |StepsTo(0, p, precision)|;
    PartOfSelf(run, last);
    WaitingParts(ops, precision, p, from, tp, n);
    MulMono(p, from, precision);
    MulMono(from, dest, precision);
    StepsSensible(ops, 0, 0, p, precision);
    assert ClockAfter(ops, n + 1) == ClockAfter(ops, n);
    StepsSensible(ops, n + 1, p, from, precision);
    assert ops[|run|] == last;
  }

  lemma PartOfSelf(run: seq<Op>, last: Op)
    ensures Part(run + [last], 0, run)
  {
    assert (run + [last])[0..|run|] == run;
  }

  // -------------------------------------------------------------- timers that are missed

  /** A scan leaves behind the timers of the slot it misses, whatever else the wheel holds. */
  lemma LeftBehind(v: View, now: int, v': View, precision: nat, e: Element)
    requires 0 < precision && Whole(v, precision) && Ran(v, now, v', precision)
    requires 0 < v'.point && !MissesNone(v.point, v'.point)
    requires var spot := Missed(v.point, v'.point);
             spot.level < LEVELS && Square(v.slots) && e in v.slots[spot.level][spot.index % 256]
    requires e in v.started
    ensures e in v'.started && e !in v'.fired && e !in v'.complete
  {
    hide Timely, Whole, AllMayFire, FiredOutright, MissesNone, Missed, Scanned;
    var spot := Missed(v.point, v'.point);
    StillThere(v, now, v', e, spot.level, spot.index % 256);
    InOnePlace(v', precision, e);
  }

  lemma StillThere(v: View, now: int, v': View, e: Element, k: nat, o: nat)
    requires Scanned(v, now, v') && 0 < v'.point && !MissesNone(v.point, v'.point)
    requires k == Missed(v.point, v'.point).level < LEVELS && o == Missed(v.point, v'.point).index % 256
    requires e in v.slots[k][o]
    ensures Waits(v'.slots, e)
  {
    hide CatchesUp, Vacant, Missed, OnlyDue, Tracks, TracksTimers;
    var gone: seq<set<nat>> :| ScanFinished(gone, v.point, v'.point) && |gone| == LEVELS
      && forall k: nat, o: nat :: k < LEVELS && o < SLOTS ==>
           Grown(if o in gone[k] then [] else v.slots[k][o], v'.slots[k][o], now);
    assert o !in gone[k];
    StaysGrown(v.slots[k][o], v'.slots[k][o], e, now);
    assert e in v'.slots[k][o];
  }

  lemma InOnePlace(v: View, precision: nat, e: Element)
    requires Whole(v, precision) && Waits(v.slots, e) && e in v.started
    ensures e !in v.fired && e !in v.complete
  {
  }

  /** A timer of the missed slot's own tick, started at the multiple of the slot's width below `from`. */
  function GapRun(precision: nat, from: nat, dest: nat): seq<Op>
    requires 0 < dest
  {
    var spot := Missed(from, dest);
    var w := B(spot.level);
    WaitingRun(precision, (from / w) * w, from, spot.index * w * precision)
  }

  /** The timer of the missed slot's own tick, started at the multiple of its width below `from`. */
  lemma GapPlan(precision: nat, from: nat, dest: nat, spot: Spot, b: nat, p: nat, tick: nat)
    requires 100_000 <= precision && dest * precision < CLOCK_END
    requires 0 < dest && !MissesNone(from, dest) && spot == Missed(from, dest) && b == B(spot.level)
    requires p == (from / b) * b && tick == spot.index * b
    ensures 4 <= spot.level <= 5 && p <= from < tick < dest
    ensures Level(p, tick) == spot.level && Offset(p, tick) == spot.index % 256
    ensures NextVisit(spot.level, spot.index % 256, p) == tick && tick * precision / precision == tick
    ensures p * precision <= from * precision < tick * precision < dest * precision
  {
    hide Level, Offset, NextVisit, CatchesUp, Vacant, Missed, B, First;
    DivModUnique(dest * precision, precision, dest, 0);
    TickBound(dest * precision, precision, dest);
    MissedWithin(from, dest);
    GapSlot(from, p, spot.level, b, spot.index, tick);
    ScaledTick(tick, p, from, dest, precision);
  }

  lemma ScaledTick(tick: nat, p: nat, from: nat, dest: nat, precision: nat)
    requires p <= from < tick < dest && 0 < precision
    ensures tick * precision / precision == tick
    ensures p * precision <= from * precision < tick * precision < dest * precision
  {
    DivModUnique(tick * precision, precision, tick, 0);
    MulMono(p, from, precision);
    MulStep(from, tick, precision);
    MulStep(tick, dest, precision);
  }

  lemma GapSlot(from: nat, p: nat, k: nat, b: nat, u: nat, tick: nat)
    requires 4 <= k <= 5 && b == B(k) && p == (from / b) * b && tick == u * b
    requires from < tick && u < from / b + 256
    ensures p <= from && Level(p, tick) == k && Offset(p, tick) == u % 256 && NextVisit(k, u % 256, p) == tick
  {
    hide Level, Offset, B, First, NextIndex;
    var a := from / b;
    FloorBounds(from, b);
    MulCancelLt(a, u, b);
    PlacedAt(k, b, u, p, a, 0, 0, tick);
    GapIndex(p, k, b, a, u);
    NextIndexUnique(k, u % 256, p, u);
  }

  lemma GapIndex(p: nat, k: nat, b: nat, a: nat, u: nat)
    requires 0 < k && b == B(k) && p == a * b && a < u < a + 256
    ensures First(k, p) <= u < First(k, p) + 256
  {
    DivModUnique(p, b, a, 0);
    FirstBounds(k, p);
    MulStep(a, u, b);
    FirstLeast(k, p, u);
  }

  /** Where a timer goes that is some widths of a slot, and less than one more, away. */
  lemma PlacedAt(k: nat, b: nat, u: nat, p: nat, q: nat, r: nat, x: nat, tick: nat)
    requires 0 < k < LEVELS && b == B(k) && 0 < u - q < 256 && p == q * b + r && r < b && x < b
    requires tick == u * b + r + x && p <= tick
    ensures Level(p, tick) == k && Offset(p, tick) == u % 256
  {
    hide B, Digit, TopByte;
    var m: nat, d: nat := u - q, tick - p;
    Distribute(m, q, b);
    TopByteIs(d, k, m, x);
    ByteOf(p, k, b, q, r);
    assert (m + q % 256) % 256 == u % 256;
  }

  lemma ByteOf(p: nat, k: nat, b: nat, q: nat, r: nat)
    requires b == B(k) && p == q * b + r && r < b
    ensures Digit(p, k) == q % 256
  {
    hide B;
    DivModUnique(p, b, q, r);
  }

  lemma TopByteIs(d: nat, k: nat, q: nat, r: nat)
    requires 0 < k < LEVELS && 0 < q < 256 && r < B(k) && d == q * B(k) + r
    ensures TopByte(d, 7) == k && Digit(d, k) == q
  {
    DivModUnique(d, B(k), q, r);
    MulMono(q + 1, 256, B(k));
    Distribute(q, 1, B(k));
    MulMono(1, q, B(k));
    BMono(k + 1, 8);
    TopByteBounds(d, 7);
    var j := TopByte(d, 7);
    if j < k {
      BMono(j + 1, k);
    } else if k < j {
      BMono(k + 1, j);
    }
  }

  lemma WasStarted(v: View, precision: nat, e: Element)
    requires Whole(v, precision) && Waits(v.slots, e)
    ensures e in v.started
  {
  }

  lemma GapEnd(v: View, v': View, precision: nat, from: nat, dest: nat, e: Element)
    requires 100_000 <= precision && dest * precision < CLOCK_END && 0 < dest && !MissesNone(from, dest)
    requires Ran(v, dest * precision, v', precision)
    requires var spot := Missed(from, dest);
             Waiting(v, precision, from, e, spot.level, spot.index % 256) && e.tp < dest * precision
    ensures Timely(v, precision) && v.point == from && Waits(v.slots, e)
    ensures v'.point == dest && e in v'.started && e.tp < v'.clock && e !in v'.fired && e !in v'.complete
  {
    hide Missed, MissesNone, Whole, Timely, AllMayFire, FiredOutright, Scanned;
    DivModUnique(dest * precision, precision, dest, 0);
    TickBound(dest * precision, precision, dest);
    WasStarted(v, precision, e);
    LeftBehind(v, dest * precision, v', precision, e);
  }

  lemma GapSensible(precision: nat, from: nat, dest: nat)
    requires 100_000 <= precision && dest * precision < CLOCK_END && 0 < dest && !MissesNone(from, dest)
    ensures Sensible(GapRun(precision, from, dest) + [Run(dest * precision)])
  {
    hide WaitingRun, Missed, MissesNone, Level, Offset, NextVisit, B, Sensible;
    var spot := Missed(from, dest);
    var w := B(spot.level);
    var p, tick := (from / w) * w, spot.index * w;
    GapPlan(precision, from, dest, spot, w, p, tick);
    WaitingSensible(precision, p, from, tick * precision, dest);
  }

  /**
   * For every start and every end where a scan may miss a timer there is a run that misses one. In every
   * trace of the run: until its last scan none has missed a timer, and the wheel is at `from` and on time,
   * with a timer due before `dest`; and the last scan, to `dest`, leaves this timer in the wheel, unfired
   * and past its deadline.
   */
  lemma CatchUpGap(precision: nat, from: nat, dest: nat, views: seq<View>) returns (e: Element)
    requires 100_000 <= precision && dest * precision < CLOCK_END && 0 < dest && !MissesNone(from, dest)
    requires Trace(views, GapRun(precision, from, dest) + [Run(dest * precision)], precision)
    ensures var run := GapRun(precision, from, dest);
            var v, v' := views[|run|], views[|run| + 1];
            && NoneMissed(views[..|run| + 1], run) && Timely(v, precision)
            && v.point == from && Waits(v.slots, e)
            && v'.point == dest && e in v'.started && e.tp < v'.clock && e !in v'.fired && e !in v'.complete
  {
    hide WaitingRun, Missed, MissesNone, Level, Offset, NextVisit, Whole, Timely, Ran, Started, B, NoneMissed;
    var spot, run := Missed(from, dest), GapRun(precision, from, dest);
    var w := B(spot.level);
    var p, tick := (from / w) * w, spot.index * w;
    GapPlan(precision, from, dest, spot, w, p, tick);
    PartOfSelf(run, Run(dest * precision));
    e := Arrives(views, run + [Run(dest * precision)], precision, p, from, tick * precision);
    assert Step(views[|run|], Run(dest * precision), views[|run| + 1], precision);
    GapEnd(views[|run|], views[|run| + 1], precision, from, dest, e);
  }

  /** The wheel has such a run: driven so, it misses the timer. */
  method MissTimer(precision: nat, from: nat, dest: nat)
    returns (t: Timer, ghost views: seq<View>, ghost e: Element)
    requires 100_000 <= precision && dest * precision < CLOCK_END && 0 < dest && !MissesNone(from, dest)
    ensures var run := GapRun(precision, from, dest);
            && Trace(views, run + [Run(dest * precision)], precision) && t.Valid() && t.Snapshot() == views[|run| + 1]
            && views[|run|].point == from && t.point == dest
            && e in t.started && e.tp < t.clock && e !in t.fired && e !in t.complete
  {
    hide GapRun, MissesNone, Trace, Sensible, Timely, Waits, NoneMissed;
    GapSensible(precision, from, dest);
    t, views := Play(precision, GapRun(precision, from, dest) + [Run(dest * precision)]);
    e := CatchUpGap(precision, from, dest, views);
  }
}

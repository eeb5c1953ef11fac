/// The arithmetic of the timer wheel: which slot a deadline is put in, when a
/// slot is next scanned, and which slots the strided scan of one catch-up visits.
module WheelScan {
  import opened Base256

  const LEVELS := 8
  const SLOTS := 256

  /** Ticks stay below 2^47: the clock is a signed 64-bit count of nanoseconds
      and the precision is at least 100 microseconds. */
  const MAX_TICK := 0x8000_0000_0000

  // ---------------------------------------------------------------- placement

  /** The highest non-zero byte of `d`, searched from byte `k` down; 0 if none. */
  function TopByte(d: nat, k: nat): (r: nat)
    ensures r <= k
    ensures r > 0 ==> Digit(d, r) > 0
    ensures forall j :: r < j <= k ==> Digit(d, j) == 0
  {
    if k == 0 || Digit(d, k) > 0 then k else TopByte(d, k - 1)
  }

  /** The wheel level for deadline tick `tick` seen from point `point`. */
  function Level(point: nat, tick: nat): (r: nat)
    requires point <= tick
    ensures r < LEVELS
  {
    TopByte(tick - point, 7)
  }

  /** The slot index: the chosen bytes of the distance and of the point, added without carry. */
  function Offset(point: nat, tick: nat): (r: nat)
    requires point <= tick
    ensures r < SLOTS
  {
    var k := Level(point, tick);
    (Digit(tick - point, k) + Digit(point, k)) % 256
  }

  /** The first index, in units of 256^k, that a scan starting at `point` reaches on level `k`.
      Upper levels are never scanned at tick 0. */
  function First(k: nat, point: nat): nat {
    if k == 0 then point else CeilDiv(if point == 0 then 1 else point, B(k))
  }

  function NextIndex(k: nat, o: nat, point: nat): nat {
    First(k, point) + (o - First(k, point)) % 256
  }

  /** The tick at which a tick-by-tick scan starting at `point` first looks at slot `o` of level `k`. */
  function NextVisit(k: nat, o: nat, point: nat): nat {
    NextIndex(k, o, point) * B(k)
  }

  /** What a timer's slot promises: the slot is looked at no later than the deadline tick,
      exactly at it on level 0, and less than two slot widths before it on an upper level; it is
      less than 256 slots ahead of the point's own. */
  ghost predicate InTime(tick: int, k: nat, o: nat, point: nat) {
    && NextVisit(k, o, point) <= tick
    && (k == 0 ==> NextVisit(k, o, point) == tick)
    && tick < NextVisit(k, o, point) + 2 * B(k)
    && NextIndex(k, o, point) < point / B(k) + 256
  }

  /** Seen from point `p` the deadline belongs in the slot. */
  ghost predicate Belongs(tick: int, k: nat, o: nat, p: nat) {
    p <= tick < p + B(8) && Level(p, tick) == k && Offset(p, tick) == o
  }

  /** A timer's slot is in time for it, and was chosen for it not later than now. */
  ghost predicate Fits(tick: int, k: nat, o: nat, point: nat) {
    && InTime(tick, k, o, point)
    && exists p: nat :: p <= point && Belongs(tick, k, o, p) && NextVisit(k, o, p) == NextVisit(k, o, point)
  }

  lemma FirstBounds(k: nat, point: nat)
    ensures point <= First(k, point) * B(k) < (if k > 0 && point == 0 then 1 else point) + B(k)
    ensures k > 0 ==> First(k, point) > 0
  {
    if k > 0 {
      CeilDivBounds(if point == 0 then 1 else point, B(k));
    } else {
      assert B(0) == 1;
    }
  }

  lemma FirstLeast(k: nat, point: nat, u: nat)
    requires u * B(k) >= point && (k > 0 ==> u > 0)
    ensures First(k, point) <= u
  {
    if k > 0 {
      MulMono(1, u, B(k));
      CeilDivLeast(if point == 0 then 1 else point, B(k), u);
    } else {
      assert B(0) == 1;
    }
  }

  lemma NextVisitBasics(k: nat, o: nat, point: nat)
    requires o < 256
    ensures NextIndex(k, o, point) % 256 == o
    ensures NextIndex(k, o, point) < First(k, point) + 256
    ensures NextVisit(k, o, point) >= point
    ensures k > 0 ==> NextIndex(k, o, point) > 0
  {
    FirstBounds(k, point);
    MulMono(First(k, point), NextIndex(k, o, point), B(k));
  }

  /** No earlier positive multiple of 256^k at or after `point` has slot index `o`. */
  lemma NextVisitLeast(k: nat, o: nat, point: nat, u: nat)
    requires o < 256 && u % 256 == o && u * B(k) >= point && (k > 0 ==> u > 0)
    ensures NextIndex(k, o, point) <= u
    ensures NextVisit(k, o, point) <= u * B(k)
  {
    hide First, B;
    FirstLeast(k, point, u);
    NextVisitBasics(k, o, point);
    MulMono(NextIndex(k, o, point), u, B(k));
  }

  /** Any slot index below 256 that is the next one is determined by its residue and range. */
  lemma NextIndexUnique(k: nat, o: nat, point: nat, u: nat)
    requires o < 256 && u % 256 == o && First(k, point) <= u < First(k, point) + 256
    ensures NextIndex(k, o, point) == u
  {
  }

  /** Moving the point forward does not change the next visit of a slot not yet reached. */
  lemma NextVisitStable(k: nat, o: nat, from: nat, to: nat)
    requires o < 256 && from <= to <= NextVisit(k, o, from)
    ensures NextVisit(k, o, to) == NextVisit(k, o, from) && NextIndex(k, o, to) == NextIndex(k, o, from)
  {
    NextVisitBasics(k, o, from);
    NextVisitBasics(k, o, to);
    NextVisitLeast(k, o, to, NextIndex(k, o, from));
    NextVisitLeast(k, o, from, NextIndex(k, o, to));
    MulMono(NextIndex(k, o, from), NextIndex(k, o, to), B(k));
  }

  lemma TopByteBounds(d: nat, k: nat)
    requires d < B(k + 1)
    ensures TopByte(d, k) > 0 ==> B(TopByte(d, k)) <= d
    ensures d < B(TopByte(d, k) + 1)
    ensures d / B(TopByte(d, k)) == Digit(d, TopByte(d, k))
  {
    if k == 0 {
      assert B(1) == 256;
      assert B(0) == 1;
    } else {
      var q := d / B(k);
      assert d == q * B(k) + d % B(k);
      if q >= 256 {
        MulMono(256, q, B(k));
      }
      assert q < 256;
      if Digit(d, k) > 0 {
        MulMono(1, q, B(k));
      } else {
        TopByteBounds(d, k - 1);
      }
    }
  }

  /** The placement lemma: although bytes are added without carry, the chosen slot is next
      looked at between now and the deadline, at the deadline on level 0, and less than two
      slot widths before it on any other level. */
  lemma Placement(point: nat, tick: nat)
    requires point <= tick < point + B(8)
    ensures Fits(tick, Level(point, tick), Offset(point, tick), point)
    ensures NextVisit(Level(point, tick), Offset(point, tick), point) >= point
  {
    TopByteBounds(tick - point, 7);
    if Level(point, tick) == 0 {
      PlacementLow(point, tick);
    } else {
      PlacementHigh(point, tick);
    }
    assert Belongs(tick, Level(point, tick), Offset(point, tick), point);
  }

  lemma SumBytes(a: nat, b: nat)
    ensures (a % 256 + b % 256) % 256 == (a + b) % 256
  {
    var r := a % 256 + b % 256;
    DivModUnique(a + b, 256, a / 256 + b / 256 + r / 256, r % 256);
  }

  lemma PlacementLow(point: nat, tick: nat)
    requires point <= tick < point + B(1) && Level(point, tick) == 0
    ensures InTime(tick, 0, Offset(point, tick), point)
    ensures NextVisit(0, Offset(point, tick), point) >= point
  {
    assert B(0) == 1 && B(1) == 256;
    assert Digit(tick - point, 0) == (tick - point) % 256 && Digit(point, 0) == point % 256;
    SumBytes(tick - point, point);
    NextIndexUnique(0, tick % 256, point, tick);
  }

  lemma PlacementHigh(point: nat, tick: nat)
    requires point <= tick
    requires 0 < Level(point, tick)
    requires (tick - point) / B(Level(point, tick)) == Digit(tick - point, Level(point, tick))
    ensures InTime(tick, Level(point, tick), Offset(point, tick), point)
    ensures NextVisit(Level(point, tick), Offset(point, tick), point) >= point
  {
    var k := Level(point, tick);
    SlotIndex(point, tick, k, Digit(tick - point, k), point / B(k), Offset(point, tick)) by {
      SumBytes(Digit(tick - point, k), point / B(k));
    }
  }

  lemma SlotIndex(point: nat, tick: nat, k: nat, a: nat, q: nat, o: nat)
    requires k > 0 && point <= tick && 0 < a < 256 && a == (tick - point) / B(k)
    requires q == point / B(k) && o < 256 && o == (a + q) % 256
    ensures InTime(tick, k, o, point) && NextVisit(k, o, point) >= point
  {
    var u := a + q;
    IndexSum(point, tick, B(k), a, q);
    FirstBounds(k, point);
    MulCancelLt(q, First(k, point) + 1, B(k)) by {
      Distribute(First(k, point), 1, B(k));
    }
    FirstLeast(k, point, u);
    FitsAt(tick, k, o, point, u);
  }

  lemma FitsAt(tick: nat, k: nat, o: nat, point: nat, u: nat)
    requires k > 0 && o < 256 && u % 256 == o && First(k, point) <= u < First(k, point) + 256
    requires point <= u * B(k) <= tick < u * B(k) + 2 * B(k) && u < point / B(k) + 256
    ensures InTime(tick, k, o, point) && NextVisit(k, o, point) >= point
  {
    NextIndexUnique(k, o, point, u);
  }

  /** How far ahead of `p` the slot is, and how exactly its index bounds the deadline. */
  lemma BelongsAt(tick: nat, k: nat, o: nat, p: nat)
    requires 0 < k && Belongs(tick, k, o, p)
    ensures var u, q := NextIndex(k, o, p), p / B(k);
            0 < u - q < 256 && u * B(k) + p % B(k) <= tick < u * B(k) + p % B(k) + B(k)
  {
    hide B, TopByte, First, NextIndex;
    var q, a := p / B(k), (tick - p) / B(k);
    TopByteBounds(tick - p, 7);
    SumBytes(a, q);
    TightSum(tick, p, B(k), a, q);
    IndexRange(p, k, q, a + q);
    NextIndexUnique(k, o, p, a + q);
  }

  lemma TightSum(tick: nat, p: nat, b: nat, a: nat, q: nat)
    requires 0 < b && p <= tick && q == p / b && a == (tick - p) / b
    ensures (a + q) * b + p % b <= tick < (a + q) * b + p % b + b && (0 < a ==> p <= (a + q) * b)
  {
    FloorBounds(tick - p, b);
    Distribute(a, q, b);
    assert p == q * b + p % b;
    MulMono(if 0 < a then 1 else 0, a, b);
  }

  lemma IndexRange(p: nat, k: nat, q: nat, u: nat)
    requires 0 < k && q == p / B(k) && q < u < q + 256 && p <= u * B(k)
    ensures First(k, p) <= u < First(k, p) + 256
  {
    FirstBounds(k, p);
    FloorBounds(p, B(k));
    FirstLeast(k, p, u);
    Distribute(First(k, p), 1, B(k));
    MulCancelLt(q, First(k, p) + 1, B(k));
  }

  /** Adding the two quotients gives an index between the current one and the deadline's. */
  lemma IndexSum(point: nat, tick: nat, w: nat, a: nat, q: nat)
    requires w > 0 && point <= tick && 0 < a == (tick - point) / w && q == point / w
    ensures point <= (a + q) * w <= tick < (a + q) * w + 2 * w && q * w <= point
  {
    FloorBounds(tick - point, w);
    FloorBounds(point, w);
    Distribute(a, q, w);
    MulMono(1, a, w);
  }

  // ----------------------------------------------------------------- scanning

  /** The step table of the scan. Entry 3 is 2^32 where 256^3 would be 2^24. */
  const ADDITIONS: seq<nat> := [
    0x1, 0x100, 0x1_0000, 0x1_0000_0000, 0x100_0000_0000,
    0x1_0000_0000_0000, 0x100_0000_0000_0000, 0xFFFF_FFFF_FFFF_FFFF
  ]

  /** The number of ticks the scan moves on from `pos` while it triggers slots of `level`. */
  function Stride(pos: nat, level: nat): (add: nat)
    requires level < LEVELS
    ensures add > 0
  {
    if level == 0 then ADDITIONS[0]
    else
      var levelup := (256 - Digit(pos, level - 1)) * ADDITIONS[level - 1];
      if levelup > 0 && levelup < ADDITIONS[level] then levelup else ADDITIONS[level]
  }

  /** A slot that a tick-by-tick scan of `[from, to)` looks at. */
  ghost predicate Due(k: nat, o: nat, from: nat, to: nat) {
    NextVisit(k, o, from) < to
  }

  ghost predicate SameDue(from: nat, a: nat, b: nat) {
    forall k: nat, o: nat :: k < LEVELS && o < SLOTS ==> (Due(k, o, from, a) <==> Due(k, o, from, b))
  }

  /** Every slot of the levels below `t` is due in `[from, to)`. */
  ghost predicate LevelsDone(t: nat, from: nat, to: nat) {
    forall k: nat, o: nat :: k < t && o < SLOTS ==> Due(k, o, from, to)
  }

  /** The scan at `pos` climbs from level `t` to level `k`: all bytes from `t` below `k` are zero. */
  ghost predicate Carry(pos: nat, t: nat, k: nat) {
    && t <= k < LEVELS
    && (k > t ==> pos > 0)
    && forall j :: t <= j < k ==> Digit(pos, j) == 0
  }

  /** The number of times level `k` has been looked at in `[from, to)`. */
  function Count(k: nat, from: nat, to: nat): int {
    First(k, to) - First(k, from)
  }

  /** How far a catch-up from `from` reaches every slot it should: one past the first positive
      multiple of 2^32, in units of 2^32. */
  function CatchUpLimit(from: nat): nat {
    (First(4, from) + 1) * B(4)
  }

  /** The last tick scanned on level `k` <= 3 by a catch-up that gets that far: its 256th look at the level. */
  function LevelEnd(k: nat, from: nat): nat {
    (First(k, from) + 255) * B(k)
  }

  function LevelThreeEnd(from: nat): nat {
    LevelEnd(3, from)
  }

  /** Where such a catch-up goes next: too far, by the wrong entry of the step table. */
  function Resume(from: nat): nat {
    LevelThreeEnd(from) + (256 - Digit(LevelThreeEnd(from), 3)) * 0x1_0000_0000
  }

  lemma CarryMultiple(pos: nat, t: nat, k: nat)
    requires pos % B(t) == 0 && t <= k < LEVELS
    ensures Carry(pos, t, k) <==> pos % B(k) == 0 && (k > t ==> pos > 0)
    decreases k
  {
    if k > t {
      CarryMultiple(pos, t, k - 1);
      if pos % B(k) == 0 {
        MultipleDown(pos, k - 1, k);
        MultipleUp(pos, k - 1);
      } else if Carry(pos, t, k) {
        MultipleUp(pos, k - 1);
      }
    }
  }

  lemma MultipleDigit(pos: nat, k: nat)
    requires pos % B(k) == 0
    ensures pos == (pos / B(k)) * B(k)
    ensures Digit(pos, k) == (pos / B(k)) % 256
  {
  }

  /** Looking at the slots reached at one aligned position is looking at everything that is due there. */
  lemma VisitIsDue(from: nat, pos: nat, t: nat, k: nat, o: nat)
    requires from <= pos && pos % B(t) == 0 && t <= k < LEVELS && o < SLOTS && (t > 0 ==> pos > 0)
    ensures Due(k, o, from, pos + 1) <==> Due(k, o, from, pos) || (Carry(pos, t, k) && o == Digit(pos, k))
  {
    CarryMultiple(pos, t, k);
    if Carry(pos, t, k) && o == Digit(pos, k) {
      MultipleDigit(pos, k);
      assert k > 0 ==> pos / B(k) > 0;
      NextVisitLeast(k, o, from, pos / B(k));
    }
    if NextVisit(k, o, from) == pos {
      VisitedHere(from, pos, k, o);
    }
  }

  lemma VisitedHere(from: nat, pos: nat, k: nat, o: nat)
    requires o < SLOTS && NextVisit(k, o, from) == pos
    ensures pos % B(k) == 0 && Digit(pos, k) == o && (k > 0 ==> pos > 0)
  {
    NextVisitBasics(k, o, from);
    var u := NextIndex(k, o, from);
    DivModUnique(pos, B(k), u, 0);
    MulMono(if k > 0 then 1 else 0, u, B(k));
  }

  /** Looking at 256 consecutive indices of a level looks at every slot of it. */
  lemma FullTurn(k: nat, from: nat, to: nat, o: nat)
    requires o < 256 && to > 0 && Count(k, from, to) >= 256
    ensures Due(k, o, from, to)
  {
    NextVisitBasics(k, o, from);
    var u := NextIndex(k, o, from);
    assert u + 1 <= First(k, to);
    if u * B(k) >= to {
      FirstLeast(k, to, u);
    }
  }

  lemma LevelDone(t: nat, from: nat, to: nat)
    requires LevelsDone(t, from, to) && to > 0 && Count(t, from, to) >= 256
    ensures LevelsDone(t + 1, from, to)
  {
    forall k: nat, o: nat | k < t + 1 && o < SLOTS
      ensures Due(k, o, from, to)
    {
      if k == t {
        FullTurn(t, from, to, o);
      }
    }
  }

  /** Counting one more position counts the level exactly when the scan climbs to it. */
  lemma CountStep(from: nat, pos: nat, t: nat, k: nat)
    requires pos % B(t) == 0 && t <= k < LEVELS && (t > 0 ==> pos > 0)
    ensures Count(k, from, pos + 1) == Count(k, from, pos) + (if Carry(pos, t, k) then 1 else 0)
  {
    CarryMultiple(pos, t, k);
    if k > 0 && pos > 0 {
      CeilDivStep(pos, B(k));
    }
  }

  /** The next multiple of 256^t after `pos`. */
  function NextMultiple(pos: nat, t: nat): nat {
    NextAbove(pos, B(t))
  }

  /** Nothing of level `t` or above is due strictly between `pos` and the next multiple of 256^t. */
  lemma NothingBetween(from: nat, pos: nat, t: nat, k: nat, o: nat)
    requires t <= k && o < SLOTS && from <= pos
    ensures Due(k, o, from, pos + 1) <==> Due(k, o, from, NextMultiple(pos, t))
  {
    NextAboveBounds(pos, B(t));
    var v := NextVisit(k, o, from);
    if pos < v {
      DivModUnique(v, B(k), NextIndex(k, o, from), 0);
      MultipleDown(v, t, k);
      NextAboveLeast(pos, B(t), v);
    }
  }

  lemma FirstBetween(pos: nat, t: nat, k: nat)
    requires 0 < k && t <= k
    ensures First(k, NextMultiple(pos, t)) == First(k, pos + 1)
  {
    NextAboveBounds(pos, B(t));
    var c := CeilDiv(pos + 1, B(k));
    CeilDivBounds(pos + 1, B(k));
    DivModUnique(c * B(k), B(k), c, 0);
    MultipleDown(c * B(k), t, k);
    NextAboveLeast(pos, B(t), c * B(k));
    CeilDivUnique(NextMultiple(pos, t), B(k), c);
  }

  /** The stride of phase `t` goes to the next multiple of 256^t, whether the phase has just
      begun (the position is a multiple of the smaller power) or not. */
  lemma StrideAligns(pos: nat, t: nat)
    requires t <= 3 && (t > 0 ==> pos % B(t - 1) == 0)
    ensures pos + Stride(pos, t) == NextMultiple(pos, t)
  {
    BValues();
    if t > 0 {
      var d := Digit(pos, t - 1);
      ToNextMultiple(pos, B(t - 1));
      assert Stride(pos, t) == (256 - d) * B(t - 1) by {
        assert ADDITIONS[t - 1] == B(t - 1);
        MulMono(256 - d, 256, B(t - 1));
        MulMono(1, 256 - d, B(t - 1));
      }
    }
  }

  lemma ToNextMultiple(pos: nat, b: nat)
    requires b > 0 && pos % b == 0
    ensures 256 * b > 0 && pos + (256 - (pos / b) % 256) * b == NextAbove(pos, 256 * b)
  {
    var q := pos / b;
    assert pos == q * b;
    DivNest(pos, b, 256);
    Distribute(q, 256 - q % 256, b);
    assert q + (256 - q % 256) == (q / 256 + 1) * 256;
    Associate(q / 256 + 1, 256, b);
  }

  lemma StrideNext(pos: nat, t: nat, t': nat)
    requires t <= t' <= t + 1 && t' <= 3 && pos % B(t) == 0
    ensures pos + Stride(pos, t') == NextMultiple(pos, t')
    ensures NextMultiple(pos, t') % B(t') == 0 && NextMultiple(pos, t') > pos
  {
    if t' > 0 {
      MultipleDown(pos, t' - 1, t);
    }
    StrideAligns(pos, t');
    NextAboveBounds(pos, B(t'));
  }

  /** After a full turn of level `t` the next level has been counted at most once, and the
      scan has covered at least 255 of its steps. */
  lemma TurnDone(from: nat, pos: nat, t: nat)
    requires t <= 3 && from <= pos && Count(t, from, pos + 1) == 256
    ensures Count(t + 1, from, pos + 1) <= 1
    ensures t > 0 ==> Count(t + 1, from, pos + 1) == 1
    ensures pos + 1 > from + 255 * B(t)
  {
    if t == 0 {
      BValues();
      assert First(1, pos + 1) == CeilDiv(from + 256, 256);
      assert (from + 256) / 256 == from / 256 + 1 && (from + 256) % 256 == from % 256;
    } else {
      TurnDoneHigh(from, pos, t);
    }
  }

  lemma TurnDoneHigh(from: nat, pos: nat, t: nat)
    requires 0 < t && from <= pos && Count(t, from, pos + 1) == 256
    ensures Count(t + 1, from, pos + 1) == 1
    ensures pos + 1 > from + 255 * B(t)
  {
    var a := First(t, from);
    CeilNest(if from == 0 then 1 else from, t);
    CeilNest(pos + 1, t);
    assert (a + 256) / 256 == a / 256 + 1 && (a + 256) % 256 == a % 256;
    TurnLength(from, pos, t);
  }

  lemma TurnLength(from: nat, pos: nat, t: nat)
    requires 0 < t && Count(t, from, pos + 1) == 256
    ensures pos + 1 > from + 255 * B(t)
  {
    FirstBounds(t, from);
    FirstBounds(t, pos + 1);
    Distribute(First(t, from), 256, B(t));
  }

  lemma CeilNest(x: nat, t: nat)
    ensures CeilDiv(x, B(t + 1)) == CeilDiv(CeilDiv(x, B(t)), 256)
  {
    var c := CeilDiv(x, B(t));
    var e := CeilDiv(c, 256);
    CeilDivBounds(x, B(t));
    CeilDivBounds(c, 256);
    MulMono(c, e * 256, B(t));
    MulMono(e * 256, c + 255, B(t));
    Distribute(c, 255, B(t));
    Associate(e, 256, B(t));
    CeilDivUnique(x, B(t + 1), e);
  }

  // ------------------------------------------------------------ the scan loop

  /** The slots emptied so far, as index sets by level, are exactly those due in `[from, to)`. */
  ghost predicate Tracks(gone: seq<set<nat>>, from: nat, to: nat) {
    && |gone| == LEVELS
    && forall k: nat, o: nat :: k < LEVELS && o < SLOTS ==> (o in gone[k] <==> Due(k, o, from, to))
  }

  /** Only slots due in `[from, to)` have been emptied. */
  ghost predicate OnlyDue(gone: seq<set<nat>>, from: nat, to: nat) {
    && |gone| == LEVELS
    && forall k: nat, o: nat :: k < LEVELS && o in gone[k] ==> o < SLOTS && Due(k, o, from, to)
  }

  /** One position has been looked at: the counters of the levels reached have gone up ... */
  ghost predicate Counted(pos: nat, t: nat, counts: seq<nat>, counts': seq<nat>) {
    && |counts| == |counts'| == LEVELS
    && forall k: nat :: k < LEVELS ==> counts'[k] == counts[k] + (if Carry(pos, t, k) then 1 else 0)
  }

  /** ... and one slot of each of them has been emptied. */
  ghost predicate Emptied(pos: nat, t: nat, gone: seq<set<nat>>, gone': seq<set<nat>>) {
    && |gone| == |gone'| == LEVELS
    && forall k: nat :: k < LEVELS ==> gone'[k] == gone[k] + (if Carry(pos, t, k) then {Digit(pos, k)} else {})
  }

  /** The counters hold how often each level from `t` up has been looked at in `[from, pos)`. */
  ghost predicate Counters(from: nat, pos: nat, t: nat, counts: seq<nat>) {
    && t <= 3 && |counts| == LEVELS
    && from <= pos && pos % B(t) == 0
    && (t > 0 ==> pos > 0 && pos > from + 255 * B(t - 1))
    && (forall k: nat :: t <= k < LEVELS ==> counts[k] == Count(k, from, pos))
    && counts[t] < 256
  }

  /** Everything due before `covered` is emptied, nothing else is, and nothing is due from there to `pos`. */
  ghost predicate Cover(from: nat, pos: nat, covered: nat, t: nat, gone: seq<set<nat>>) {
    && from <= covered <= pos
    && LevelsDone(t, from, covered)
    && Tracks(gone, from, covered) && OnlyDue(gone, from, covered)
    && SameDue(from, covered, pos)
  }

  /** The head of the scan loop while the scan is exact. */
  ghost predicate Exact(from: nat, pos: nat, covered: nat, t: nat, counts: seq<nat>, gone: seq<set<nat>>) {
    Counters(from, pos, t, counts) && Cover(from, pos, covered, t, gone)
  }

  /** The head of the scan loop once the step table has sent it too far. */
  ghost predicate Beyond(from: nat, pos: nat, covered: nat, t: nat, counts: seq<nat>, gone: seq<set<nat>>) {
    && 4 <= t <= 5 && |counts| == LEVELS
    && from <= covered <= pos && pos >= Resume(from) && pos >= from + B(t)
    && counts[5] <= CeilDiv(pos / B(4), 256)
    && OnlyDue(gone, from, covered)
    && (if pos == Resume(from) then covered == LevelThreeEnd(from) + 1 && Tracks(gone, from, covered)
        else covered > Resume(from))
  }

  /** The level the scan triggers after this position. */
  function NextLevel(t: nat, counts': seq<nat>): nat
    requires t < |counts'|
  {
    if counts'[t] == 256 then t + 1 else t
  }

  lemma CountersLook(from: nat, pos: nat, t: nat, counts: seq<nat>, counts': seq<nat>)
    requires Counters(from, pos, t, counts) && Counted(pos, t, counts, counts')
    ensures forall k: nat :: t <= k < LEVELS ==> counts'[k] == Count(k, from, pos + 1)
  {
    forall k: nat | t <= k < LEVELS
      ensures counts'[k] == Count(k, from, pos + 1)
    {
      CountStep(from, pos, t, k);
    }
  }

  lemma CountersAdvance(from: nat, pos: nat, t: nat, counts: seq<nat>, counts': seq<nat>, t': nat)
    requires Counters(from, pos, t, counts) && Counted(pos, t, counts, counts')
    requires t' == NextLevel(t, counts') <= 3
    ensures Counters(from, pos + Stride(pos, t'), t', counts')
  {
    CountersLook(from, pos, t, counts, counts');
    StrideNext(pos, t, t');
    assert Carry(pos, t, t);
    if t' > t {
      TurnDone(from, pos, t);
    }
    CountsBetween(from, pos, t', counts');
  }

  lemma CountsBetween(from: nat, pos: nat, t: nat, counts: seq<nat>)
    requires |counts| == LEVELS
    requires forall k: nat :: t <= k < LEVELS ==> counts[k] == Count(k, from, pos + 1)
    ensures forall k: nat :: t <= k < LEVELS ==> counts[k] == Count(k, from, NextMultiple(pos, t))
  {
    forall k: nat | t <= k < LEVELS
      ensures counts[k] == Count(k, from, NextMultiple(pos, t))
    {
      CountBetween(from, pos, t, k);
    }
  }

  lemma CountBetween(from: nat, pos: nat, t: nat, k: nat)
    requires t <= k
    ensures Count(k, from, NextMultiple(pos, t)) == Count(k, from, pos + 1)
  {
    if k == 0 {
      assert B(0) == 1;
    } else {
      FirstBetween(pos, t, k);
    }
  }

  lemma CoverLook(from: nat, pos: nat, covered: nat, t: nat, gone: seq<set<nat>>, gone': seq<set<nat>>)
    requires t < LEVELS && pos % B(t) == 0 && (t > 0 ==> pos > 0)
    requires Cover(from, pos, covered, t, gone) && Emptied(pos, t, gone, gone')
    ensures Tracks(gone', from, pos + 1) && OnlyDue(gone', from, pos + 1) && LevelsDone(t, from, pos + 1)
  {
    forall k: nat, o: nat | k < LEVELS && o < SLOTS
      ensures o in gone'[k] <==> Due(k, o, from, pos + 1)
    {
      assert Due(k, o, from, covered) <==> Due(k, o, from, pos);
      if k >= t {
        VisitIsDue(from, pos, t, k, o);
      }
    }
  }

  /** One turn of the scan loop while it is exact: nothing due has been missed at the next head. */
  lemma ExactStep(from: nat, pos: nat, covered: nat, t: nat, counts: seq<nat>, gone: seq<set<nat>>,
                  counts': seq<nat>, gone': seq<set<nat>>, t': nat)
    requires Exact(from, pos, covered, t, counts, gone)
    requires Counted(pos, t, counts, counts') && Emptied(pos, t, gone, gone')
    requires t' == NextLevel(t, counts') <= 3
    ensures Exact(from, pos + Stride(pos, t'), pos + 1, t', counts', gone')
  {
    CoverLook(from, pos, covered, t, gone, gone');
    LevelsAfter(from, pos, t, counts, counts');
    CoverAdvance(from, pos, t, t', gone');
    CountersAdvance(from, pos, t, counts, counts', t');
  }

  /** The turn that completes level 3: nothing has been missed up to the catch-up limit. */
  lemma ExactEnd(from: nat, pos: nat, covered: nat, t: nat, counts: seq<nat>, gone: seq<set<nat>>,
                 counts': seq<nat>, gone': seq<set<nat>>)
    requires Exact(from, pos, covered, t, counts, gone)
    requires Counted(pos, t, counts, counts') && Emptied(pos, t, gone, gone')
    requires NextLevel(t, counts') == 4
    ensures Beyond(from, pos + Stride(pos, 4), pos + 1, 4, counts', gone')
    ensures pos == LevelThreeEnd(from) && pos + Stride(pos, 4) == Resume(from) && counts'[4] == 1
    ensures Tracks(gone', from, pos + 1) && OnlyDue(gone', from, pos + 1) && LevelsDone(4, from, pos + 1)
    ensures SameDue(from, LevelThreeEnd(from) + 1, CatchUpLimit(from))
  {
    CoverLook(from, pos, covered, t, gone, gone');
    LevelsAfter(from, pos, t, counts, counts');
    CountersLook(from, pos, t, counts, counts');
    TurnDone(from, pos, 3);
    ExactFinish(from, pos, counts', gone');
  }

  lemma CoverAdvance(from: nat, pos: nat, t: nat, t': nat, gone': seq<set<nat>>)
    requires t <= t' <= t + 1 && t' <= 3 && from <= pos && pos % B(t) == 0
    requires Tracks(gone', from, pos + 1) && OnlyDue(gone', from, pos + 1) && LevelsDone(t', from, pos + 1)
    ensures Cover(from, pos + Stride(pos, t'), pos + 1, t', gone')
  {
    StrideNext(pos, t, t');
    NothingSkipped(from, pos, t');
  }

  lemma LevelsAfter(from: nat, pos: nat, t: nat, counts: seq<nat>, counts': seq<nat>)
    requires Counters(from, pos, t, counts) && Counted(pos, t, counts, counts')
    requires LevelsDone(t, from, pos + 1)
    ensures LevelsDone(NextLevel(t, counts'), from, pos + 1)
  {
    CountersLook(from, pos, t, counts, counts');
    if counts'[t] == 256 {
      LevelDone(t, from, pos + 1);
    }
  }

  /** Once all levels below `t` are done, going on to the next multiple of 256^t skips nothing. */
  lemma NothingSkipped(from: nat, pos: nat, t: nat)
    requires from <= pos && LevelsDone(t, from, pos + 1)
    ensures SameDue(from, pos + 1, NextMultiple(pos, t))
  {
    NextAboveBounds(pos, B(t));
    forall k: nat, o: nat | k < LEVELS && o < SLOTS
      ensures Due(k, o, from, pos + 1) <==> Due(k, o, from, NextMultiple(pos, t))
    {
      if k >= t {
        NothingBetween(from, pos, t, k, o);
      }
    }
  }

  lemma ExactFinish(from: nat, pos: nat, counts': seq<nat>, gone': seq<set<nat>>)
    requires |counts'| == LEVELS && from <= pos && pos % B(3) == 0
    requires counts'[5] == Count(5, from, pos + 1)
    requires Count(3, from, pos + 1) == 256 && Count(4, from, pos + 1) == 1
    requires pos + 1 > from + 255 * B(3)
    requires Tracks(gone', from, pos + 1) && OnlyDue(gone', from, pos + 1)
    requires LevelsDone(4, from, pos + 1)
    ensures pos == LevelThreeEnd(from) && pos + Stride(pos, 4) == Resume(from)
    ensures Beyond(from, Resume(from), pos + 1, 4, counts', gone')
    ensures SameDue(from, pos + 1, CatchUpLimit(from))
  {
    BValues();
    CeilDivUnique(pos + 1, B(3), pos / B(3) + 1);
    assert First(3, pos + 1) == pos / B(3) + 1;
    assert pos == LevelThreeEnd(from);
    LimitReached(from, pos);
    NothingSkipped(from, pos, 4);
    var pos' := pos + Stride(pos, 4);
    assert pos' == Resume(from);
    FirstBounds(5, from);
    assert pos' / B(4) >= pos / B(4) + 1;
    assert counts'[5] <= CeilDiv(pos' / B(4), 256) by {
      CeilNestDown(pos, pos');
    }
  }

  lemma LimitReached(from: nat, pos: nat)
    requires Count(4, from, pos + 1) == 1
    ensures CatchUpLimit(from) == NextMultiple(pos, 4)
    ensures CatchUpLimit(from) > pos
  {
    BValues();
    assert First(4, pos + 1) == CeilDiv(pos + 1, 0x1_0000_0000);
  }

  /** Level 5 has been counted no more often than there are multiples of 2^40 so far. */
  lemma CeilNestDown(pos: nat, pos': nat)
    requires pos' >= pos + B(4)
    ensures First(5, pos + 1) <= CeilDiv(pos' / B(4), 256) + 1
    ensures forall from: nat :: First(5, pos + 1) - First(5, from) <= CeilDiv(pos' / B(4), 256)
  {
    BValues();
    assert First(5, pos + 1) == CeilDiv(pos + 1, 0x100_0000_0000);
    forall from: nat
      ensures First(5, from) >= 1
    {
      FirstBounds(5, from);
    }
  }

  /** Past the limit the scan is no longer exact, but still only looks at slots that are due, and
      stays within the eight levels. */
  lemma BeyondStep(from: nat, pos: nat, covered: nat, t: nat, counts: seq<nat>, gone: seq<set<nat>>,
                   counts': seq<nat>, gone': seq<set<nat>>)
    requires Beyond(from, pos, covered, t, counts, gone)
    requires pos < MAX_TICK
    requires Counted(pos, t, counts, counts') && Emptied(pos, t, gone, gone')
    ensures var t' := NextLevel(t, counts');
            t' <= 5 && Beyond(from, pos + Stride(pos, t'), pos + 1, t', counts', gone')
  {
    BValues();
    var t' := NextLevel(t, counts');
    forall k: nat, o: nat | k < LEVELS && o in gone'[k]
      ensures o < SLOTS && Due(k, o, from, pos + 1)
    {
      if o !in gone[k] {
        BeyondVisit(from, pos, t, k);
      }
    }
    BeyondLevels(pos, t, counts, counts');
  }

  /** Level 5 is looked at no more than once in every 2^40 ticks, so it never completes a turn. */
  lemma BeyondLevels(pos: nat, t: nat, counts: seq<nat>, counts': seq<nat>)
    requires 4 <= t <= 5 && pos < MAX_TICK && Counted(pos, t, counts, counts')
    requires counts[5] <= CeilDiv(pos / B(4), 256)
    ensures var t' := NextLevel(t, counts');
            t' <= 5 && Stride(pos, t') >= B(t')
            && counts'[5] <= CeilDiv((pos + Stride(pos, t')) / B(4), 256)
  {
    BValues();
    CarryFive(pos);
    assert counts'[5] <= CeilDiv(pos / B(4) + (if t == 4 then 1 else 256), 256);
    assert pos / B(4) < 0x8000;
    var t' := NextLevel(t, counts');
    assert Stride(pos, t') >= B(t');
    assert (pos + Stride(pos, t')) / B(4) >= pos / B(4) + (if t' == 4 then 1 else 256);
  }

  lemma CarryFive(pos: nat)
    ensures Carry(pos, 4, 5) ==> pos / B(4) % 256 == 0
  {
    assert Carry(pos, 4, 5) ==> Digit(pos, 4) == 0;
  }

  lemma BeyondVisit(from: nat, pos: nat, t: nat, k: nat)
    requires Carry(pos, t, k) && pos >= from + B(t)
    ensures Due(k, Digit(pos, k), from, pos + 1)
  {
    CarryFloor(pos, t, k);
    FloorBounds(pos, B(t));
    FloorBounds(pos, B(k));
    assert pos / B(k) > 0;
    NextVisitLeast(k, Digit(pos, k), from, pos / B(k));
  }

  lemma CarryFloor(pos: nat, t: nat, k: nat)
    requires Carry(pos, t, k)
    ensures (pos / B(k)) * B(k) == (pos / B(t)) * B(t)
    decreases k
  {
    if k > t {
      CarryFloor(pos, t, k - 1);
      DivByNextPower(pos, k - 1);
      assert Digit(pos, k - 1) == 0;
      Associate(pos / B(k), 256, B(k - 1));
    }
  }

  /** The climb stops within the eight levels: a position that has reached level `t` and is
      zero in every byte from there up to the seventh is not zero in the last. */
  lemma ClimbStops(pos: nat, t: nat)
    requires Carry(pos, t, 7) && B(t) <= pos < B(8)
    ensures Digit(pos, 7) != 0
  {
    var q := pos / B(7);
    assert 0 < q by {
      CarryFloor(pos, t, 7);
      FloorBounds(pos, B(t));
      MulCancelLt(0, q, B(7));
    }
    assert q / 256 == 0 by {
      DivByNextPower(pos, 7);
      FloorBounds(pos, B(8));
      MulCancelLt(pos / B(8), 1, B(8));
    }
  }

  /** The state in which the scan loop can stop at `dest`. */
  ghost predicate Scanning(from: nat, pos: nat, covered: nat, t: nat, counts: seq<nat>, gone: seq<set<nat>>) {
    || Exact(from, pos, covered, t, counts, gone)
    || (Beyond(from, pos, covered, t, counts, gone)
        && SameDue(from, LevelThreeEnd(from) + 1, CatchUpLimit(from)))
  }

  /** While the scan is exact it has not passed the catch-up limit. */
  lemma ExactBelowLimit(from: nat, pos: nat, t: nat)
    requires t <= 3 && pos % B(t) == 0 && Count(t, from, pos) < 256
    ensures pos <= CatchUpLimit(from)
  {
    BMono(t + 1, 4);
    FirstBounds(t, from);
    FirstBounds(4, from);
    FirstBounds(t, pos);
    MulMono(First(t, pos), First(t, from) + 255, B(t));
    Distribute(First(t, from), 255, B(t));
    Distribute(First(4, from), 1, B(4));
  }

  lemma ResumeBeyondLimit(from: nat)
    ensures LevelThreeEnd(from) + 1 <= CatchUpLimit(from) <= Resume(from)
  {
    BValues();
    var v := LevelThreeEnd(from);
    CeilDivUnique(v + 1, B(3), First(3, from) + 256);
    FirstBounds(3, from);
    TurnDone(from, v, 3);
    LimitReached(from, v);
  }

  lemma ScanStep(from: nat, pos: nat, covered: nat, t: nat, counts: seq<nat>, gone: seq<set<nat>>,
                 counts': seq<nat>, gone': seq<set<nat>>, t': nat)
    requires Scanning(from, pos, covered, t, counts, gone) && pos < MAX_TICK
    requires Counted(pos, t, counts, counts') && Emptied(pos, t, gone, gone')
    requires t' == NextLevel(t, counts')
    ensures t' < LEVELS && Scanning(from, pos + Stride(pos, t'), pos + 1, t', counts', gone')
    ensures OnlyDue(gone', from, pos + 1)
    ensures t > 0 ==> pos > from + 255 * B(t - 1)
  {
    if Exact(from, pos, covered, t, counts, gone) {
      if t' <= 3 {
        ExactStep(from, pos, covered, t, counts, gone, counts', gone', t');
      } else {
        ExactEnd(from, pos, covered, t, counts, gone, counts', gone');
      }
    } else {
      BeyondStep(from, pos, covered, t, counts, gone, counts', gone');
    }
  }

  lemma ScanHead(from: nat, pos: nat, covered: nat, t: nat, counts: seq<nat>, gone: seq<set<nat>>)
    requires Scanning(from, pos, covered, t, counts, gone)
    ensures t < LEVELS && |counts| == |gone| == LEVELS && covered <= pos && (pos > 0 ==> B(t) <= pos)
  {
    if Exact(from, pos, covered, t, counts, gone) && pos > 0 {
      if pos < B(t) {
        DivModUnique(pos, B(t), 0, pos);
      }
    }
  }

  lemma ScanStart(from: nat)
    ensures Scanning(from, from, from, 0, seq(LEVELS, _ => 0), seq(LEVELS, _ => {}))
  {
    assert B(0) == 1;
    var gone: seq<set<nat>> := seq(LEVELS, _ => {});
    forall k: nat, o: nat | k < LEVELS && o < SLOTS
      ensures o in gone[k] <==> Due(k, o, from, from)
    {
      NextVisitBasics(k, o, from);
    }
  }

  // ------------------------------------------------------------ slots fired outright

  /** A slot of an upper level that a catch-up to `dest` comes to when all levels below are
      scanned through, so that it fires the slot outright instead of cascading it. */
  ghost predicate Direct(k: nat, o: nat, from: nat, dest: nat) {
    0 < k <= 3 && o < SLOTS && LevelEnd(k - 1, from) < NextVisit(k, o, from) < dest
  }

  /** The same on the levels above the third, which are only fired after the wrong step. */
  ghost predicate Outright(k: nat, o: nat, from: nat, dest: nat) {
    Direct(k, o, from, dest) || (3 < k < LEVELS && o < SLOTS && Due(k, o, from, dest) && dest > Resume(from))
  }

  lemma LevelEndBounds(k: nat, from: nat)
    ensures from + 255 * B(k) <= LevelEnd(k, from) <= from + B(k + 1)
  {
    FirstBounds(k, from);
    Distribute(First(k, from), 255, B(k));
  }

  lemma LevelEndMono(j: nat, k: nat, from: nat)
    requires j <= k
    ensures LevelEnd(j, from) <= LevelEnd(k, from)
    decreases k
  {
    if j < k {
      LevelEndMono(j, k - 1, from);
      LevelEndBounds(k - 1, from);
      LevelEndBounds(k, from);
    }
  }

  /** The last slot of a level comes at the end of its turn, and no slot later. */
  lemma LastOfLevel(k: nat, o: nat, from: nat)
    requires o < SLOTS
    ensures NextVisit(k, (First(k, from) + 255) % 256, from) == LevelEnd(k, from)
    ensures NextVisit(k, o, from) <= LevelEnd(k, from)
  {
    NextIndexUnique(k, (First(k, from) + 255) % 256, from, First(k, from) + 255);
    NextVisitBasics(k, o, from);
    MulMono(NextIndex(k, o, from), First(k, from) + 255, B(k));
  }

  /** While the scan is exact, the slot it fires is one it has not come to before, and the levels
      below are through. */
  lemma ExactFires(from: nat, pos: nat, covered: nat, t: nat, counts: seq<nat>, gone: seq<set<nat>>)
    requires Exact(from, pos, covered, t, counts, gone)
    ensures NextVisit(t, Digit(pos, t), from) == pos && Digit(pos, t) !in gone[t]
    ensures pos <= LevelEnd(t, from)
    ensures t > 0 ==> LevelEnd(t - 1, from) < covered
  {
    var u, o := pos / B(t), Digit(pos, t);
    MultipleDigit(pos, t);
    if t > 0 {
      CeilDivUnique(pos, B(t), u);
      LastOfLevel(t - 1, 0, from);
      assert Due(t - 1, (First(t - 1, from) + 255) % 256, from, covered);
    } else {
      assert B(0) == 1;
    }
    assert First(t, pos) == u;
    FirstLeast(t, from, u);
    NextIndexUnique(t, o, from, u);
    LastOfLevel(t, o, from);
    assert Due(t, o, from, covered) <==> Due(t, o, from, pos);
  }

  /** One position fires one slot outright, and comes to no other that is to be fired so. */
  lemma FiresOutright(from: nat, pos: nat, covered: nat, t: nat, counts: seq<nat>, gone: seq<set<nat>>)
    requires Scanning(from, pos, covered, t, counts, gone)
    ensures t > 0 ==> t < LEVELS && Outright(t, Digit(pos, t), from, pos + 1)
    ensures forall k: nat, o: nat :: Direct(k, o, from, pos + 1) && !Direct(k, o, from, covered) ==>
              k == t && o == Digit(pos, t) && |gone| == LEVELS && o !in gone[k]
  {
    hide Direct, Digit;
    if Exact(from, pos, covered, t, counts, gone) {
      ExactOutright(from, pos, covered, t, counts, gone);
      forall k: nat, o: nat | Direct(k, o, from, pos + 1) && !Direct(k, o, from, covered)
        ensures k == t && o == Digit(pos, t) && o !in gone[k]
      {
        DirectHere(from, pos, covered, t, counts, gone, k, o);
      }
    } else {
      BeyondOutright(from, pos, covered, t, counts, gone);
    }
  }

  lemma ExactOutright(from: nat, pos: nat, covered: nat, t: nat, counts: seq<nat>, gone: seq<set<nat>>)
    requires Exact(from, pos, covered, t, counts, gone)
    ensures t > 0 ==> t <= 3 && Direct(t, Digit(pos, t), from, pos + 1)
  {
    ExactFires(from, pos, covered, t, counts, gone);
  }

  lemma BeyondOutright(from: nat, pos: nat, covered: nat, t: nat, counts: seq<nat>, gone: seq<set<nat>>)
    requires Beyond(from, pos, covered, t, counts, gone)
    ensures Outright(t, Digit(pos, t), from, pos + 1)
    ensures forall k: nat, o: nat :: Direct(k, o, from, pos + 1) ==> Direct(k, o, from, covered)
  {
    ResumeBeyondLimit(from);
    assert Carry(pos, t, t);
    BeyondVisit(from, pos, t, t);
    forall k: nat, o: nat | Direct(k, o, from, pos + 1)
      ensures Direct(k, o, from, covered)
    {
      DirectEnds(from, k, o);
    }
  }

  lemma DirectHere(from: nat, pos: nat, covered: nat, t: nat, counts: seq<nat>, gone: seq<set<nat>>, k: nat, o: nat)
    requires Exact(from, pos, covered, t, counts, gone)
    requires Direct(k, o, from, pos + 1) && !Direct(k, o, from, covered)
    ensures k == t && o == Digit(pos, t) && o !in gone[k]
  {
    ExactFires(from, pos, covered, t, counts, gone);
    assert Due(k, o, from, covered) <==> Due(k, o, from, pos);
    VisitedHere(from, pos, k, o);
    LastOfLevel(k, o, from);
    LevelEndsBelow(t, from);
    LevelEndsBelow(k, from);
  }

  lemma LevelEndsBelow(t: nat, from: nat)
    ensures forall k: nat :: k < t ==> LevelEnd(k, from) <= LevelEnd(t - 1, from)
  {
    forall k: nat | k < t
      ensures LevelEnd(k, from) <= LevelEnd(t - 1, from)
    {
      LevelEndMono(k, t - 1, from);
    }
  }

  lemma DirectEnds(from: nat, k: nat, o: nat)
    requires 0 < k <= 3 && o < SLOTS
    ensures NextVisit(k, o, from) <= LevelThreeEnd(from)
  {
    LastOfLevel(k, o, from);
    LevelEndMono(k, 3, from);
  }

  /** When the scan stops, it has come to every slot that it fires outright. */
  lemma DirectDone(from: nat, pos: nat, covered: nat, t: nat, counts: seq<nat>, gone: seq<set<nat>>, dest: nat)
    requires Scanning(from, pos, covered, t, counts, gone) && covered <= dest <= pos
    ensures forall k: nat, o: nat :: Direct(k, o, from, dest) ==> Direct(k, o, from, covered)
  {
    ResumeBeyondLimit(from);
    forall k: nat, o: nat | Direct(k, o, from, dest)
      ensures Direct(k, o, from, covered)
    {
      if Exact(from, pos, covered, t, counts, gone) {
        assert Due(k, o, from, covered) <==> Due(k, o, from, pos);
      } else {
        DirectEnds(from, k, o);
      }
    }
  }

  /** A catch-up fires a slot outright if and only if it goes beyond the next multiple of 256 after
      its first 256 ticks. */
  lemma OutrightFrom(from: nat, dest: nat)
    ensures (exists k: nat, o: nat :: Outright(k, o, from, dest)) <==> dest > NextAbove(from + 255, 256)
  {
    var v := NextAbove(from + 255, 256);
    NextAboveBounds(from + 255, 256);
    BValues();
    assert LevelEnd(0, from) == from + 255;
    if dest > v {
      FirstOutright(from, v);
      assert Outright(1, Digit(v, 1), from, dest);
    }
    forall k: nat, o: nat | Outright(k, o, from, dest)
      ensures dest > v
    {
      OutrightLate(k, o, from, dest);
    }
  }

  lemma FirstOutright(from: nat, v: nat)
    requires v == NextAbove(from + 255, 256)
    ensures NextVisit(1, Digit(v, 1), from) == v && LevelEnd(0, from) < v
  {
    BValues();
    NextAboveBounds(from + 255, 256);
    var u := v / 256;
    FirstLeast(1, from, u);
    FirstBounds(1, from);
    NextIndexUnique(1, Digit(v, 1), from, u);
  }

  lemma OutrightLate(k: nat, o: nat, from: nat, dest: nat)
    requires Outright(k, o, from, dest)
    ensures dest > NextAbove(from + 255, 256)
  {
    BValues();
    NextAboveBounds(from + 255, 256);
    if Direct(k, o, from, dest) {
      LevelEndMono(0, k - 1, from);
      var v := NextVisit(k, o, from);
      DivModUnique(v, B(k), NextIndex(k, o, from), 0);
      MultipleDown(v, 1, k);
      NextAboveLeast(from + 255, 256, v);
    } else {
      ResumeBeyondLimit(from);
      FirstBounds(4, from);
      Distribute(First(4, from), 1, B(4));
    }
  }

  /** A catch-up empties no slot before it is due, and up to the limit it empties all that are. */
  lemma ScanToLimit(from: nat, pos: nat, covered: nat, t: nat, counts: seq<nat>, gone: seq<set<nat>>, dest: nat)
    requires Scanning(from, pos, covered, t, counts, gone) && covered <= dest <= pos
    ensures OnlyDue(gone, from, dest)
    ensures dest <= CatchUpLimit(from) ==> Tracks(gone, from, dest)
    ensures CatchUpLimit(from) < dest ==> t >= 4
  {
    hide NextVisit, Resume, LevelThreeEnd, CatchUpLimit;
    ResumeBeyondLimit(from);
    if Exact(from, pos, covered, t, counts, gone) {
      ExactBelowLimit(from, pos, t);
      TracksUpTo(gone, from, covered, dest, pos);
    } else if dest <= CatchUpLimit(from) {
      TracksUpTo(gone, from, covered, dest, CatchUpLimit(from));
    }
  }

  lemma TracksUpTo(gone: seq<set<nat>>, from: nat, a: nat, b: nat, c: nat)
    requires a <= b <= c && Tracks(gone, from, a) && SameDue(from, a, c)
    ensures Tracks(gone, from, b)
  {
    forall k: nat, o: nat | k < LEVELS && o < SLOTS
      ensures o in gone[k] <==> Due(k, o, from, b)
    {
      assert Due(k, o, from, a) <==> Due(k, o, from, c);
    }
  }
}

/// What the wrong entry of the step table does to a catch-up that goes beyond its limit: where it
/// goes, which slots it misses, and for which ends it has missed none.
module WheelStray {
  import opened Base256
  import opened WheelScan

  /** How far the scan moves in one step of level 4, in units of 2^32, where it should move by one. */
  function Skip(from: nat): (s: nat)
    ensures 1 <= s <= 256
  {
    256 - Digit(LevelThreeEnd(from), 3)
  }

  /** The `j`-th position on level 4. */
  function Stop(from: nat, j: nat): nat {
    var n: nat := j * Skip(from);
    LevelThreeEnd(from) + n * B(4)
  }

  /** From `dest` the next multiple of 256^k is less than 2^24 away. */
  predicate Near(dest: nat, k: nat) {
    CeilDiv(dest, B(k)) * B(k) < dest + B(3)
  }

  /** The ends of a catch-up from `from` by which it has missed no slot. */
  predicate CatchesUp(from: nat, dest: nat) {
    || dest <= CatchUpLimit(from)
    || (First(3, from) % 256 == 0
        && var h := First(4, from);
           if dest <= (h + 256) * B(4) then Near(dest, 4)
           else if h % 256 == 0 then Near(dest, 5)
           else dest <= ((h + 255) / 256 + 1) * B(5))
  }

  /** The scan ends after the last slot of level 4 is due and before it is looked at, with the point
      short of a turn of level 4 when it began. */
  predicate LastLate(from: nat, dest: nat) {
    First(3, from) % 256 == 0 && from % B(4) != 0 && dest > 0 && (dest - 1) / B(4) == First(4, from) + 255
  }

  /** That slot was 256 slots ahead of the point, so that no timer waits in it; and no slot of level 5
      is due with it. */
  predicate Vacant(from: nat, dest: nat) {
    LastLate(from, dest) && First(4, from) % 256 != 1
  }

  /** The ends of a catch-up from `from` by which it has missed no timer. */
  predicate MissesNone(from: nat, dest: nat) {
    CatchesUp(from, dest) || Vacant(from, dest)
  }

  /** The slots emptied are those due in `[from, to)`, except perhaps for the vacant one. */
  ghost predicate TracksTimers(gone: seq<set<nat>>, from: nat, to: nat) {
    && |gone| == LEVELS
    && forall k: nat, o: nat :: k < LEVELS && o < SLOTS ==>
         (o in gone[k] <==> Due(k, o, from, to))
         || (Vacant(from, to) && k == 4 && o == (First(4, from) + 255) % 256)
  }

  /** On its way to `dest` the scan has come back to the first slot it missed. */
  predicate Met(from: nat, dest: nat) {
    exists j: nat :: 1 <= j <= 255 && Stop(from, j) < dest && (j * Skip(from)) % 256 == 1
  }

  /** A slot of a level, by its index in units of 256^level. */
  datatype Spot = Spot(level: nat, index: nat)

  /** A slot that a catch-up to an end that is not one of these has missed. */
  function Missed(from: nat, dest: nat): Spot
    requires dest > 0
  {
    var h := First(4, from);
    if First(3, from) % 256 == 0 then
      if LastLate(from, dest) && h % 256 == 1 then Spot(5, (h + 255) / 256)
      else if dest <= (h + 256) * B(4) then Spot(4, (dest - 1) / B(4))
      else if h % 256 == 0 then Spot(5, (dest - 1) / B(5))
      else Spot(5, (h + 255) / 256 + 1)
    else if !Met(from, dest) then Spot(4, h + 1)
    else if (256 * (h / 256 + 1) - h) % Skip(from) == 0 then Spot(5, h / 256 + 2)
    else Spot(5, h / 256 + 1)
  }

  /** The slot is due by `dest`, and it has not been emptied. */
  ghost predicate LeftOut(spot: Spot, gone: seq<set<nat>>, from: nat, dest: nat) {
    && 4 <= spot.level <= 5 && |gone| == LEVELS
    && First(spot.level, from) <= spot.index < First(spot.level, from) + 256
    && from < spot.index * B(spot.level) < dest
    && spot.index % 256 !in gone[spot.level]
  }

  lemma LeftOutDue(spot: Spot, gone: seq<set<nat>>, from: nat, dest: nat)
    requires LeftOut(spot, gone, from, dest)
    ensures NextVisit(spot.level, spot.index % 256, from) == spot.index * B(spot.level)
    ensures !Tracks(gone, from, dest)
  {
    NextIndexUnique(spot.level, spot.index % 256, from, spot.index);
    assert Due(spot.level, spot.index % 256, from, dest);
  }

  // ------------------------------------------------------------ where level 3 ends

  /** The scan leaves level 3 in the turn of level 4 it has counted first. */
  lemma ThirdEnd(from: nat)
    ensures LevelThreeEnd(from) == First(4, from) * B(4) + (256 - Skip(from)) * B(3)
    ensures Skip(from) == 1 <==> First(3, from) % 256 == 0
    ensures First(5, from) == CeilDiv(First(4, from), 256)
    ensures First(4, from) > 0
  {
    BValues();
    var x := if from == 0 then 1 else from;
    var f := First(3, from);
    FirstBounds(3, from);
    CeilNest(x, 3);
    CeilNest(x, 4);
    DivModUnique(LevelThreeEnd(from), B(3), f + 255, 0);
    assert Digit(LevelThreeEnd(from), 3) == (f + 255) % 256;
    assert First(4, from) == (f + 255) / 256;
  }

  /** One step on level 4 from a position like that. */
  lemma StrideFour(pos: nat, y: nat, s: nat)
    requires 1 <= s <= 256 && pos == y * B(4) + (256 - s) * B(3)
    ensures Stride(pos, 4) == s * B(4)
    ensures pos / B(4) == y && pos + s * B(4) == (y + s) * B(4) + (256 - s) * B(3)
  {
    BValues();
    assert pos / B(3) == y * 256 + (256 - s);
    assert Digit(pos, 3) == (256 - s) % 256;
  }

  lemma StrideFive(pos: nat)
    ensures Stride(pos, 5) == (256 - Digit(pos, 4)) * B(5)
  {
    BValues();
  }

  lemma StopAt(from: nat, j: nat)
    ensures Stop(from, j) == (First(4, from) + j * Skip(from)) * B(4) + (256 - Skip(from)) * B(3)
  {
    ThirdEnd(from);
    BValues();
  }

  // ------------------------------------------------------------ steps that are too long

  lemma OddTimesOdd(a: nat, b: nat)
    requires a % 2 == 1
    ensures (a * b) % 2 == b % 2
  {
    DivModUnique(a * b, 2, (a / 2) * b + b / 2, b % 2) by {
      assert a == (a / 2) * 2 + 1;
      Distribute((a / 2) * 2, 1, b);
      Associate(a / 2, 2, b);
      Associate(a / 2, b, 2);
    }
  }

  /** An odd number above 1 divides no power of two. */
  lemma OddFactor(s: nat, k: nat, e: nat)
    requires 1 < s && s % 2 == 1 && s * k == Pow2(e)
    ensures false
  {
    OddTimesOdd(s, k);
    if e > 0 {
      Associate(s, k / 2, 2);
      OddFactor(s, k / 2, e - 1);
    } else {
      MulMono(1, k, s);
    }
  }

  function Pow2(e: nat): nat {
    if e == 0 then 1 else 2 * Pow2(e - 1)
  }

  lemma OddSkip(s: nat)
    requires 1 < s && s % 2 == 1
    ensures 256 % s != 0
  {
    if 256 % s == 0 {
      assert Pow2(8) == 256;
      OddFactor(s, 256 / s, 8);
    }
  }

  lemma NoFactor(v: nat, w: nat)
    requires 2 <= v <= 16
    ensures v * w != 257
  {
    if v * w == 257 {
      DivModUnique(257, v, w, 0);
    }
  }

  /** The scan comes back to the first slot it missed only after two more turns, and not at all if
      its steps are even. */
  lemma InverseFar(j: nat, s: nat)
    requires 1 <= j <= 255 && 2 <= s <= 256 && (j * s) % 256 == 1
    ensures s % 2 == 1 && j * s >= 513
  {
    var n := j * s;
    assert n % 2 == 1;
    if s % 2 == 0 {
      DivModUnique(n, 2, j * (s / 2), 0) by {
        Associate(j, s / 2, 2);
      }
    }
    MulMono(2, s, j);
    if n == 257 {
      if j <= 16 {
        NoFactor(j, s);
      } else if s <= 16 {
        NoFactor(s, j);
      } else {
        MulMono(17, s, j);
      }
    }
  }

  /** Slot `w` of level 5 has been emptied only if the steps of level 4 lead to it. */
  ghost predicate OnlyHit(from: nat, w: nat, gone: seq<set<nat>>)
    requires |gone| == LEVELS
  {
    w % 256 in gone[5] ==> 256 * w >= First(4, from) && (256 * w - First(4, from)) % Skip(from) == 0
  }

  /** The head of the loop when steps of level 4 are too long: the slot after the first of level 4
      is missed until the scan comes back to it, and then one of two slots of level 5. */
  ghost predicate Astray(from: nat, pos: nat, covered: nat, t: nat, counts: seq<nat>, gone: seq<set<nat>>) {
    var c := First(4, from) / 256 + 1;
    && |counts| == |gone| == LEVELS && Skip(from) >= 2
    && (t == 4 ==> 1 <= counts[4] <= 255 && pos == Stop(from, counts[4]))
    && ((First(4, from) + 1) % 256 in gone[4] ==> Met(from, covered))
    && (Skip(from) % 2 == 1 ==>
          && OnlyHit(from, c, gone) && OnlyHit(from, c + 1, gone)
          && (t == 5 ==> pos / B(5) >= c + 2))
  }

  lemma AstrayStart(from: nat, counts: seq<nat>, gone: seq<set<nat>>)
    requires |counts| == LEVELS && counts[4] == 1 && Skip(from) >= 2
    requires Tracks(gone, from, LevelThreeEnd(from) + 1)
    ensures Astray(from, Resume(from), LevelThreeEnd(from) + 1, 4, counts, gone)
  {
    BValues();
    ThirdEnd(from);
    var h, c := First(4, from), First(4, from) / 256 + 1;
    NextIndexUnique(4, (h + 1) % 256, from, h + 1);
    NextIndexUnique(5, c % 256, from, c);
    NextIndexUnique(5, (c + 1) % 256, from, c + 1);
    assert !Due(4, (h + 1) % 256, from, LevelThreeEnd(from) + 1);
    assert !Due(5, c % 256, from, LevelThreeEnd(from) + 1);
    assert !Due(5, (c + 1) % 256, from, LevelThreeEnd(from) + 1);
  }

  lemma MetLater(from: nat, a: nat, b: nat)
    requires Met(from, a) && a <= b
    ensures Met(from, b)
  {
    var j: nat :| 1 <= j <= 255 && Stop(from, j) < a && (j * Skip(from)) % 256 == 1;
    assert Stop(from, j) < b;
  }

  /** A stop on level 4, where `n` is how far it is from the first. */
  lemma StopSlots(from: nat, pos: nat, j: nat, n: nat)
    requires pos == Stop(from, j) && n == j * Skip(from)
    ensures pos / B(4) == First(4, from) + n && Digit(pos, 4) == (First(4, from) + n) % 256
    ensures pos / B(5) == (First(4, from) + n) / 256
    ensures Digit(pos, 4) == (First(4, from) + 1) % 256 <==> n % 256 == 1
  {
    StopAt(from, j);
    StrideFour(pos, First(4, from) + n, Skip(from));
    DivByNextPower(pos, 4);
    SameDigit(First(4, from), n);
  }

  lemma SameDigit(h: nat, n: nat)
    ensures (h + n) % 256 == (h + 1) % 256 <==> n % 256 == 1
  {
  }

  lemma AstrayFirst(from: nat, pos: nat, covered: nat, t: nat, counts: seq<nat>, gone: seq<set<nat>>,
                    gone': seq<set<nat>>)
    requires 4 <= t <= 5 && covered <= pos && Astray(from, pos, covered, t, counts, gone)
    requires Emptied(pos, t, gone, gone')
    ensures (First(4, from) + 1) % 256 in gone'[4] ==> Met(from, pos + 1)
  {
    var o := (First(4, from) + 1) % 256;
    if o in gone[4] {
      MetLater(from, covered, pos + 1);
    } else if o in gone'[4] {
      StopSlots(from, pos, counts[4], counts[4] * Skip(from));
      assert Stop(from, counts[4]) < pos + 1;
    }
  }

  lemma AstrayUpper(from: nat, pos: nat, covered: nat, t: nat, counts: seq<nat>, gone: seq<set<nat>>,
                    gone': seq<set<nat>>, w: nat)
    requires 4 <= t <= 5 && pos < MAX_TICK && Astray(from, pos, covered, t, counts, gone) && Skip(from) % 2 == 1
    requires Emptied(pos, t, gone, gone') && OnlyHit(from, w, gone)
    requires First(4, from) / 256 < w <= First(4, from) / 256 + 2
    ensures OnlyHit(from, w, gone')
  {
    hide Stop, Met, Digit, Skip, B, First;
    if w % 256 in gone'[5] && w % 256 !in gone[5] {
      assert Carry(pos, t, 5) && Digit(pos, 5) == w % 256;
      SmallDigit(pos);
      if t == 4 {
        UpperHit(from, pos, counts[4], counts[4] * Skip(from), w);
      }
    }
  }

  lemma SmallDigit(pos: nat)
    requires pos < MAX_TICK
    ensures Digit(pos, 5) == pos / B(5) < 128
  {
    BValues();
  }

  lemma UpperHit(from: nat, pos: nat, j: nat, n: nat, w: nat)
    requires pos == Stop(from, j) && n == j * Skip(from) && pos < MAX_TICK
    requires Digit(pos, 4) == 0 && Digit(pos, 5) == w % 256
    requires First(4, from) / 256 < w <= First(4, from) / 256 + 2
    ensures 256 * w >= First(4, from) && (256 * w - First(4, from)) % Skip(from) == 0
  {
    hide Stop, Skip;
    SmallDigit(pos);
    StopSlots(from, pos, j, n);
    HitExactly(First(4, from), n, w);
    DivModUnique(n, Skip(from), j, 0);
  }

  lemma HitExactly(h: nat, n: nat, w: nat)
    requires (h + n) % 256 == 0 && (h + n) / 256 < 128 && h / 256 < w <= h / 256 + 2 && w % 256 == ((h + n) / 256) % 256
    ensures 256 * w == h + n
  {
  }

  lemma AstrayStep(from: nat, pos: nat, covered: nat, t: nat, counts: seq<nat>, gone: seq<set<nat>>,
                   counts': seq<nat>, gone': seq<set<nat>>, t': nat)
    requires 4 <= t <= 5 && covered <= pos < MAX_TICK && Astray(from, pos, covered, t, counts, gone)
    requires Counted(pos, t, counts, counts') && Emptied(pos, t, gone, gone')
    requires t' == NextLevel(t, counts') <= 5
    ensures Astray(from, pos + Stride(pos, t'), pos + 1, t', counts', gone')
  {
    hide Met, OnlyHit, Stop;
    AstrayFirst(from, pos, covered, t, counts, gone, gone');
    var c := First(4, from) / 256 + 1;
    if Skip(from) % 2 == 1 {
      AstrayUpper(from, pos, covered, t, counts, gone, gone', c);
      AstrayUpper(from, pos, covered, t, counts, gone, gone', c + 1);
    }
    AstrayMove(from, pos, t, counts, counts', t');
  }

  lemma NextStop(from: nat, pos: nat, j: nat)
    requires pos == Stop(from, j)
    ensures pos + Stride(pos, 4) == Stop(from, j + 1)
  {
    hide Stop, Skip;
    var s, h := Skip(from), First(4, from);
    StopAt(from, j);
    StopAt(from, j + 1);
    StrideFour(pos, h + j * s, s);
    Distribute(j, 1, s);
  }

  lemma NextFifth(pos: nat)
    ensures (pos + Stride(pos, 5)) / B(5) >= pos / B(5) + 1
  {
    BValues();
    StrideFive(pos);
  }

  lemma AstrayMove(from: nat, pos: nat, t: nat, counts: seq<nat>, counts': seq<nat>, t': nat)
    requires 4 <= t <= t' <= 5 && |counts| == |counts'| == LEVELS && Skip(from) >= 2
    requires t == 4 ==> 1 <= counts[4] <= 255 && pos == Stop(from, counts[4]) && counts'[4] == counts[4] + 1
    requires t == 4 ==> (t' == 4 <==> counts'[4] < 256)
    requires t == 5 && Skip(from) % 2 == 1 ==> pos / B(5) >= First(4, from) / 256 + 3
    ensures t' == 4 ==> 1 <= counts'[4] <= 255 && pos + Stride(pos, 4) == Stop(from, counts'[4])
    ensures t' == 5 && Skip(from) % 2 == 1 ==> (pos + Stride(pos, 5)) / B(5) >= First(4, from) / 256 + 3
  {
    hide Stop, Skip, B, Stride, Digit, First;
    NextFifth(pos);
    if t' == 4 {
      NextStop(from, pos, counts[4]);
    } else if t == 4 {
      StopSlots(from, pos, counts[4], counts[4] * Skip(from));
    }
  }

  /** The missed slot is one that is due. */
  lemma MissedWithin(from: nat, dest: nat)
    requires !CatchesUp(from, dest) && dest <= MAX_TICK
    ensures dest > 0
    ensures var spot := Missed(from, dest);
            && 4 <= spot.level <= 5 && from < spot.index * B(spot.level) < dest
            && First(spot.level, from) <= spot.index < First(spot.level, from) + 256
            && (!Vacant(from, dest) ==> spot.index < from / B(spot.level) + 256)
  {
    ThirdEnd(from);
    FirstBounds(4, from);
    hide First, Met, Vacant, Missed, CatchesUp, B;
    if First(3, from) % 256 == 0 {
      NotFromZero(from);
      LateWithin(from, dest);
    } else {
      AstrayWithin(from, dest);
    }
  }

  lemma NotFromZero(from: nat)
    requires First(3, from) % 256 == 0
    ensures from > 0
  {
    BValues();
  }

  lemma AstrayWithin(from: nat, dest: nat)
    requires !CatchesUp(from, dest) && dest <= MAX_TICK && First(3, from) % 256 != 0 && Skip(from) != 1
    requires from <= First(4, from) * B(4) <= from + B(4) && First(5, from) == CeilDiv(First(4, from), 256)
    ensures dest > 0
    ensures var spot := Missed(from, dest);
            && 4 <= spot.level <= 5 && from < spot.index * B(spot.level) < dest
            && First(spot.level, from) <= spot.index < First(spot.level, from) + 256
            && spot.index < from / B(spot.level) + 256
  {
    hide First, Met, Vacant;
    BValues();
    assert dest > (First(4, from) + 1) * B(4);
    if Met(from, dest) {
      MetFar(from, dest);
    }
  }

  lemma LateWithin(from: nat, dest: nat)
    requires !CatchesUp(from, dest) && dest <= MAX_TICK && First(3, from) % 256 == 0
    requires from <= First(4, from) * B(4) < from + B(4) && First(5, from) == CeilDiv(First(4, from), 256)
    ensures dest > 0
    ensures var spot := Missed(from, dest);
            && 4 <= spot.level <= 5 && from < spot.index * B(spot.level) < dest
            && First(spot.level, from) <= spot.index < First(spot.level, from) + 256
            && (!Vacant(from, dest) ==> spot.index < from / B(spot.level) + 256)
  {
    hide First;
    BValues();
    var h := First(4, from);
    assert dest > (h + 1) * B(4);
  }

  lemma MetFar(from: nat, dest: nat)
    requires Skip(from) >= 2 && Met(from, dest)
    ensures Skip(from) % 2 == 1 && dest > (First(4, from) + 513) * B(4)
  {
    ThirdEnd(from);
    var j: nat :| 1 <= j <= 255 && Stop(from, j) < dest && (j * Skip(from)) % 256 == 1;
    InverseFar(j, Skip(from));
    StopAt(from, j);
    MulMono(First(4, from) + 513, First(4, from) + j * Skip(from), B(4));
  }

  /** Beyond the limit such a scan has always missed a slot. */
  lemma AstrayEnd(from: nat, pos: nat, covered: nat, t: nat, counts: seq<nat>, gone: seq<set<nat>>, dest: nat)
    requires Astray(from, pos, covered, t, counts, gone) && covered <= dest && CatchUpLimit(from) < dest
    ensures Skip(from) != 1 && !CatchesUp(from, dest) && LeftOut(Missed(from, dest), gone, from, dest)
  {
    BValues();
    ThirdEnd(from);
    var h, s, c := First(4, from), Skip(from), First(4, from) / 256 + 1;
    if Met(from, dest) {
      MetFar(from, dest);
      if (256 * c - h) % s == 0 {
        OddSkip(s);
        TwoMultiples(256 * c - h, s);
      }
    } else if (h + 1) % 256 in gone[4] {
      MetLater(from, covered, dest);
    }
  }

  lemma TwoMultiples(x: nat, s: nat)
    requires s > 0 && x % s == 0 && 256 % s != 0
    ensures (x + 256) % s != 0
  {
    if (x + 256) % s == 0 {
      var a, b := x / s, (x + 256) / s;
      Distribute(b, -a, s);
      assert 256 == (b - a) * s;
      assert b >= a by {
        if b < a {
          MulMono(b, a, s);
        }
      }
      DivModUnique(256, s, b - a, 0);
    }
  }

  // ------------------------------------------------------------ steps that are late

  /** The head of the loop when the steps have the right length: every slot is looked at, but
      256^t - 2^24 ticks late. `m` counts the steps of level `t`. */
  ghost predicate Lagging(from: nat, pos: nat, covered: nat, t: nat, counts: seq<nat>, gone: seq<set<nat>>, m: nat) {
    && |counts| == |gone| == LEVELS && 4 <= t <= 5 && First(3, from) % 256 == 0
    && from + B(3) <= m * B(t) && pos == m * B(t) + B(t) - B(3) && covered == m * B(t) - B(3) + 1
    && Tracks(gone, from, covered) && OnlyDue(gone, from, covered) && LevelsDone(t, from, covered)
    && SameDue(from, covered, m * B(t))
    && (t == 4 ==> 1 <= counts[4] <= 255 && m == First(4, from) + counts[4])
    && (t == 5 ==> First(4, from) % 256 == 0 && m > First(5, from))
  }

  /** The head of the loop when the first step of level 5 was too long. */
  ghost predicate Overshot(from: nat, pos: nat, covered: nat, t: nat, gone: seq<set<nat>>) {
    var h, c := First(4, from), (First(4, from) + 255) / 256 + 1;
    && |gone| == LEVELS && t == 5 && First(3, from) % 256 == 0 && h % 256 != 0
    && pos / B(5) > c && c % 256 !in gone[5]
    && covered > (h + 256) * B(4) - B(3)
    && (covered <= c * B(5) ==> Tracks(gone, from, covered) && SameDue(from, covered, c * B(5)))
  }

  lemma LaggingStart(from: nat, counts: seq<nat>, gone: seq<set<nat>>)
    requires |counts| == LEVELS && counts[4] == 1 && Skip(from) == 1
    requires Tracks(gone, from, LevelThreeEnd(from) + 1) && OnlyDue(gone, from, LevelThreeEnd(from) + 1)
    requires LevelsDone(4, from, LevelThreeEnd(from) + 1)
    requires SameDue(from, LevelThreeEnd(from) + 1, CatchUpLimit(from))
    ensures Lagging(from, Resume(from), LevelThreeEnd(from) + 1, 4, counts, gone, First(4, from) + 1)
  {
    BValues();
    ThirdEnd(from);
    FirstBounds(4, from);
  }

  /** The bytes from `t` up do not tell the position from the multiple of 256^t below it. */
  lemma SameUpper(pos: nat, e: nat, t: nat, k: nat)
    requires t <= k && e == (pos / B(t)) * B(t)
    ensures pos / B(k) == e / B(k) && Digit(pos, k) == Digit(e, k)
    decreases k
  {
    if k == t {
      DivModUnique(e, B(t), pos / B(t), 0);
    } else {
      SameUpper(pos, e, t, k - 1);
      DivByNextPower(pos, k - 1);
      DivByNextPower(e, k - 1);
    }
  }

  lemma SameLook(pos: nat, e: nat, t: nat, gone: seq<set<nat>>, gone': seq<set<nat>>)
    requires e == (pos / B(t)) * B(t) && e > 0 && t < LEVELS && Emptied(pos, t, gone, gone')
    ensures Emptied(e, t, gone, gone')
  {
    hide Digit;
    forall k: nat | t <= k < LEVELS
      ensures Digit(pos, k) == Digit(e, k)
    {
      SameUpper(pos, e, t, k);
    }
    forall k: nat | k < LEVELS
      ensures gone'[k] == gone[k] + (if Carry(e, t, k) then {Digit(e, k)} else {})
    {
      assert Carry(e, t, k) <==> Carry(pos, t, k);
    }
  }

  lemma AtMultiple(pos: nat, m: nat, d: nat, r: nat)
    requires 0 < r <= d && pos == m * d + d - r
    ensures pos / d == m
  {
    DivModUnique(pos, d, m, d - r);
  }

  lemma LaggingLook(from: nat, pos: nat, covered: nat, t: nat, counts: seq<nat>, gone: seq<set<nat>>, m: nat,
                    gone': seq<set<nat>>)
    requires Lagging(from, pos, covered, t, counts, gone, m) && Emptied(pos, t, gone, gone')
    ensures var e := m * B(t); Tracks(gone', from, e + 1) && OnlyDue(gone', from, e + 1) && LevelsDone(t, from, e + 1)
  {
    hide Tracks, OnlyDue, SameDue, LevelsDone, Emptied;
    var e := m * B(t);
    BMono(3, t);
    AtMultiple(pos, m, B(t), B(3));
    SameLook(pos, e, t, gone, gone');
    DivModUnique(e, B(t), m, 0);
    CoverLook(from, e, covered, t, gone, gone');
  }

  lemma SameDueWithin(from: nat, a: nat, b: nat, c: nat)
    requires a <= b <= c && SameDue(from, a, c)
    ensures SameDue(from, b, c)
  {
    forall k: nat, o: nat | k < LEVELS && o < SLOTS
      ensures Due(k, o, from, b) <==> Due(k, o, from, c)
    {
      assert Due(k, o, from, a) <==> Due(k, o, from, c);
    }
  }

  /** What has been emptied at `a` is right up to `c`, if nothing is due on the way. */
  lemma GoesOn(gone: seq<set<nat>>, from: nat, t: nat, a: nat, b: nat, c: nat)
    requires a <= b <= c && Tracks(gone, from, a) && OnlyDue(gone, from, a) && LevelsDone(t, from, a)
    requires SameDue(from, a, c)
    ensures Tracks(gone, from, b) && OnlyDue(gone, from, b) && LevelsDone(t, from, b) && SameDue(from, b, c)
  {
    TracksUpTo(gone, from, a, b, c);
    SameDueWithin(from, a, b, c);
    LevelsDoneLater(t, from, a, b);
  }

  lemma LaggingStride(pos: nat, m: nat, t: nat)
    requires 4 <= t <= 5 && pos == m * B(t) + B(t) - B(3)
    ensures Stride(pos, t) == B(t) && pos + Stride(pos, t) == (m + 1) * B(t) + B(t) - B(3)
  {
    BValues();
    if t == 4 {
      StrideFour(pos, m, 1);
    } else {
      StrideFive(pos);
      assert pos / B(4) == m * 256 + 255;
    }
  }

  lemma NextOfMultiple(m: nat, t: nat)
    ensures NextMultiple(m * B(t), t) == (m + 1) * B(t)
  {
    DivModUnique(m * B(t), B(t), m, 0);
  }

  /** A step within the level. */
  lemma LaggingStep(from: nat, pos: nat, covered: nat, t: nat, counts: seq<nat>, gone: seq<set<nat>>, m: nat,
                    counts': seq<nat>, gone': seq<set<nat>>)
    requires Lagging(from, pos, covered, t, counts, gone, m) && Emptied(pos, t, gone, gone')
    requires Counted(pos, t, counts, counts') && (t == 4 ==> counts[4] < 255)
    ensures Lagging(from, pos + Stride(pos, t), pos + 1, t, counts', gone', m + 1)
  {
    hide Tracks, OnlyDue, SameDue, LevelsDone, Emptied, Stride, B;
    LaggingLook(from, pos, covered, t, counts, gone, m, gone');
    BMono(3, t);
    var e := m * B(t);
    DivModUnique(e, B(t), m, 0);
    NothingSkipped(from, e, t);
    NextOfMultiple(m, t);
    Distribute(m, 1, B(t));
    GoesOn(gone', from, t, e + 1, pos + 1, (m + 1) * B(t));
    LaggingStride(pos, m, t);
    assert Carry(pos, t, t);
  }

  /** The step that completes level 4: where level 5 goes on. */
  lemma LaggingTurn(from: nat, pos: nat, covered: nat, counts: seq<nat>, gone: seq<set<nat>>, m: nat,
                    counts': seq<nat>, gone': seq<set<nat>>)
    requires Lagging(from, pos, covered, 4, counts, gone, m) && Emptied(pos, 4, gone, gone')
    requires Counted(pos, 4, counts, counts') && counts[4] == 255
    ensures var h, c := First(4, from), (First(4, from) + 255) / 256 + 1;
            && Tracks(gone', from, pos + 1) && OnlyDue(gone', from, pos + 1) && LevelsDone(5, from, pos + 1)
            && SameDue(from, pos + 1, c * B(5)) && pos == (h + 256) * B(4) - B(3)
  {
    hide Tracks, OnlyDue, SameDue, LevelsDone, Emptied, Stride, B;
    LaggingLook(from, pos, covered, 4, counts, gone, m, gone');
    var e, c := m * B(4), (First(4, from) + 255) / 256 + 1;
    Distribute(m, 1, B(4));
    TurnOfFour(from, m, e);
    NothingSkipped(from, e, 5);
    FifthMultiple(m, c);
    GoesOn(gone', from, 5, e + 1, pos + 1, c * B(5));
  }

  lemma TurnOfFour(from: nat, m: nat, e: nat)
    requires e == m * B(4) && m == First(4, from) + 255 && LevelsDone(4, from, e + 1)
    ensures LevelsDone(5, from, e + 1) && from <= e
  {
    hide B;
    FirstBounds(4, from);
    BValues();
    MulMono(First(4, from), m, B(4));
    Distribute(m, 1, B(4));
    CeilDivUnique(e + 1, B(4), m + 1);
    LevelDone(4, from, e + 1);
  }

  lemma FifthMultiple(m: nat, c: nat)
    requires c == m / 256 + 1
    ensures NextMultiple(m * B(4), 5) == c * B(5) && m * B(4) + B(4) <= c * B(5) && B(3) <= B(4)
  {
    BValues();
  }

  lemma FifthStride(pos: nat, h: nat)
    requires pos == (h + 256) * B(4) - B(3)
    ensures var c := (h + 255) / 256 + 1;
            && (h % 256 == 0 ==> pos + Stride(pos, 5) == c * B(5) + B(5) - B(3) && pos + 1 == c * B(5) - B(3) + 1)
            && (h % 256 != 0 ==> (pos + Stride(pos, 5)) / B(5) > c)
  {
    BValues();
    StrideFive(pos);
    assert pos / B(4) == h + 255;
  }

  lemma LaggingFifth(from: nat, pos: nat, covered: nat, counts: seq<nat>, gone: seq<set<nat>>, m: nat,
                     counts': seq<nat>, gone': seq<set<nat>>)
    requires Lagging(from, pos, covered, 4, counts, gone, m) && Emptied(pos, 4, gone, gone')
    requires Counted(pos, 4, counts, counts') && counts[4] == 255
    ensures var pos', c := pos + Stride(pos, 5), (First(4, from) + 255) / 256 + 1;
            if First(4, from) % 256 == 0 then Lagging(from, pos', pos + 1, 5, counts', gone', c)
            else Overshot(from, pos', pos + 1, 5, gone')
  {
    hide OnlyDue, SameDue, LevelsDone, Emptied, Stride, B, Digit;
    LaggingTurn(from, pos, covered, counts, gone, m, counts', gone');
    var h, c := First(4, from), (First(4, from) + 255) / 256 + 1;
    FifthStride(pos, h);
    FifthMultiple(h + 255, c);
    ThirdEnd(from);
    if h % 256 == 0 {
      FifthFar(from, h, c);
    } else {
      NextIndexUnique(5, c % 256, from, c);
      Distribute(h + 255, 1, B(4));
      assert !Due(5, c % 256, from, pos + 1);
    }
  }

  lemma FifthFar(from: nat, h: nat, c: nat)
    requires h == First(4, from) && h % 256 == 0 && c == h / 256 + 1
    ensures from + B(3) <= c * B(5)
  {
    BValues();
    FirstBounds(4, from);
  }

  lemma OvershotStep(from: nat, pos: nat, covered: nat, gone: seq<set<nat>>, gone': seq<set<nat>>)
    requires Overshot(from, pos, covered, 5, gone) && pos < MAX_TICK && Emptied(pos, 5, gone, gone')
    ensures Overshot(from, pos + Stride(pos, 5), pos + 1, 5, gone')
  {
    hide First, Tracks, SameDue, Stride;
    var h, c := First(4, from), (First(4, from) + 255) / 256 + 1;
    SmallDigit(pos);
    NextFifth(pos);
    FifthMultiple(h + 255, c);
    FloorBounds(pos, B(5));
    MulMono(c + 1, pos / B(5), B(5));
    Distribute(c, 1, B(5));
    Distribute(h + 255, 1, B(4));
  }

  /** The head of the loop beyond the limit. */
  ghost predicate Stray(from: nat, pos: nat, covered: nat, t: nat, counts: seq<nat>, gone: seq<set<nat>>) {
    || Astray(from, pos, covered, t, counts, gone)
    || (exists m: nat :: Lagging(from, pos, covered, t, counts, gone, m))
    || Overshot(from, pos, covered, t, gone)
  }

  lemma StrayStep(from: nat, pos: nat, covered: nat, t: nat, counts: seq<nat>, gone: seq<set<nat>>,
                  counts': seq<nat>, gone': seq<set<nat>>, t': nat)
    requires 4 <= t <= 5 && covered <= pos < MAX_TICK && Stray(from, pos, covered, t, counts, gone)
    requires Counted(pos, t, counts, counts') && Emptied(pos, t, gone, gone')
    requires t' == NextLevel(t, counts') <= 5
    ensures Stray(from, pos + Stride(pos, t'), pos + 1, t', counts', gone')
  {
    hide Astray, Overshot, Emptied, Stride;
    if Astray(from, pos, covered, t, counts, gone) {
      AstrayStep(from, pos, covered, t, counts, gone, counts', gone', t');
    } else if Overshot(from, pos, covered, t, gone) {
      OvershotFive(from, pos, covered, t, gone);
      OvershotStep(from, pos, covered, gone, gone');
    } else {
      var m: nat :| Lagging(from, pos, covered, t, counts, gone, m);
      assert Carry(pos, t, t);
      if t == t' {
        LaggingStep(from, pos, covered, t, counts, gone, m, counts', gone');
        assert Lagging(from, pos + Stride(pos, t), pos + 1, t, counts', gone', m + 1);
      } else {
        LaggingFifth(from, pos, covered, counts, gone, m, counts', gone');
      }
    }
  }

  lemma OvershotFive(from: nat, pos: nat, covered: nat, t: nat, gone: seq<set<nat>>)
    requires Overshot(from, pos, covered, t, gone)
    ensures t == 5
  {
  }

  /** What a catch-up to `dest` guarantees about the slots it has emptied: none before it is due, and
      all that are due if and only if it ends by the limit or where a late scan is on time again. */
  ghost predicate CaughtUp(gone: seq<set<nat>>, from: nat, dest: nat) {
    && (CatchesUp(from, dest) ==> Tracks(gone, from, dest))
    && (MissesNone(from, dest) ==> TracksTimers(gone, from, dest))
    && (!CatchesUp(from, dest) ==> dest > 0 && LeftOut(Missed(from, dest), gone, from, dest))
  }

  /** No timer waits 256 slots ahead. */
  lemma VacantIndex(from: nat, dest: nat)
    requires Vacant(from, dest)
    ensures NextIndex(4, (First(4, from) + 255) % 256, from) == from / B(4) + 256
  {
    NextIndexUnique(4, (First(4, from) + 255) % 256, from, First(4, from) + 255);
    assert from > 0;
  }

  lemma NearAt(dest: nat, k: nat, m: nat)
    requires 3 <= k && m * B(k) < dest + B(k) && dest <= m * B(k)
    ensures Near(dest, k) <==> m * B(k) < dest + B(3)
  {
    CeilDivUnique(dest, B(k), m);
  }

  lemma LaggingEnd(from: nat, pos: nat, covered: nat, t: nat, counts: seq<nat>, gone: seq<set<nat>>, m: nat, dest: nat)
    requires Lagging(from, pos, covered, t, counts, gone, m)
    requires covered <= dest <= pos && CatchUpLimit(from) < dest <= MAX_TICK
    ensures CaughtUp(gone, from, dest)
  {
    hide OnlyDue, SameDue, LevelsDone;
    BMono(3, t);
    ThirdEnd(from);
    if dest <= m * B(t) {
      TracksUpTo(gone, from, covered, dest, m * B(t));
      TracksAll(gone, from, dest);
      LaggingNear(from, t, m, dest);
    } else {
      Distribute(m, 1, B(t));
      LaggingMissed(from, t, m, dest);
      LaggingLeft(from, pos, covered, t, counts, gone, m, dest);
      if Vacant(from, dest) {
        LaggingVacant(from, pos, covered, t, counts, gone, m, dest);
      }
    }
  }

  lemma LaggingNear(from: nat, t: nat, m: nat, dest: nat)
    requires 4 <= t <= 5 && First(3, from) % 256 == 0 && m * B(t) < dest + B(3) && dest <= m * B(t)
    requires t == 4 ==> m <= First(4, from) + 255
    requires t == 5 ==> First(4, from) % 256 == 0
    ensures CatchesUp(from, dest)
  {
    BValues();
    NearAt(dest, t, m);
    if t == 5 {
      NearAt(dest, 4, m * 256);
    }
  }

  lemma LaggingMissed(from: nat, t: nat, m: nat, dest: nat)
    requires 4 <= t <= 5 && First(3, from) % 256 == 0 && CatchUpLimit(from) < dest <= MAX_TICK
    requires m * B(t) < dest <= m * B(t) + B(t) - B(3)
    requires t == 4 ==> First(4, from) < m <= First(4, from) + 255
    requires t == 5 ==> First(4, from) % 256 == 0 && m > First(4, from) / 256
    requires First(5, from) == CeilDiv(First(4, from), 256)
    ensures !CatchesUp(from, dest) && First(t, from) <= m < First(t, from) + 256
    ensures Missed(from, dest) == Spot(t, m)
         || (t == 4 && m == First(4, from) + 255 && m % 256 == 0 && Missed(from, dest) == Spot(5, m / 256))
    ensures Vacant(from, dest) ==> t == 4 && m == First(4, from) + 255 && m % 256 != 0
  {
    if t == 4 {
      FourMissed(from, m, dest);
    } else {
      FiveMissed(from, m, dest);
    }
  }

  lemma FourMissed(from: nat, m: nat, dest: nat)
    requires First(3, from) % 256 == 0 && CatchUpLimit(from) < dest <= MAX_TICK
    requires m * B(4) < dest <= m * B(4) + B(4) - B(3) && First(4, from) < m <= First(4, from) + 255
    ensures !CatchesUp(from, dest)
    ensures Missed(from, dest) == Spot(4, m)
         || (m == First(4, from) + 255 && m % 256 == 0 && Missed(from, dest) == Spot(5, m / 256))
    ensures Vacant(from, dest) ==> m == First(4, from) + 255 && m % 256 != 0
  {
    hide First, CatchUpLimit;
    BValues();
    NearAt(dest, 4, m + 1);
    assert (dest - 1) / B(4) == m;
  }

  lemma FiveMissed(from: nat, m: nat, dest: nat)
    requires First(3, from) % 256 == 0 && CatchUpLimit(from) < dest <= MAX_TICK
    requires m * B(5) < dest <= m * B(5) + B(5) - B(3)
    requires First(4, from) % 256 == 0 && m > First(4, from) / 256 && First(5, from) == First(4, from) / 256
    ensures !CatchesUp(from, dest) && First(5, from) <= m < First(5, from) + 256
    ensures Missed(from, dest) == Spot(5, m) && !Vacant(from, dest)
  {
    hide First, CatchUpLimit;
    BValues();
    NearAt(dest, 5, m + 1);
    assert (dest - 1) / B(5) == m;
  }

  /** The slot the scan comes to next is due. */
  lemma LaggingLeft(from: nat, pos: nat, covered: nat, t: nat, counts: seq<nat>, gone: seq<set<nat>>, m: nat, dest: nat)
    requires Lagging(from, pos, covered, t, counts, gone, m) && m * B(t) < dest
    requires First(t, from) <= m < First(t, from) + 256
    ensures LeftOut(Spot(t, m), gone, from, dest)
    ensures t == 4 && m == First(4, from) + 255 && m % 256 == 0 ==> LeftOut(Spot(5, m / 256), gone, from, dest)
  {
    BMono(3, t);
    NextIndexUnique(t, m % 256, from, m);
    assert !Due(t, m % 256, from, covered);
    if t == 4 && m == First(4, from) + 255 && m % 256 == 0 {
      BValues();
      ThirdEnd(from);
      NextIndexUnique(5, (m / 256) % 256, from, m / 256);
      assert !Due(5, (m / 256) % 256, from, covered);
    }
  }

  lemma LaggingVacant(from: nat, pos: nat, covered: nat, t: nat, counts: seq<nat>, gone: seq<set<nat>>, m: nat,
                      dest: nat)
    requires Lagging(from, pos, covered, t, counts, gone, m) && m * B(t) < dest <= m * B(t) + B(t)
    requires Vacant(from, dest) && t == 4 && m == First(4, from) + 255 && m % 256 != 0
    ensures TracksTimers(gone, from, dest)
  {
    hide LevelsDone, Vacant, Tracks, OnlyDue, SameDue, TracksTimers, B;
    var e := m * B(4);
    BMono(3, 4);
    DivModUnique(e, B(4), m, 0);
    GoesOn(gone, from, 4, covered, e, e);
    LevelsDoneLater(4, from, e, e + 1);
    NothingSkipped(from, e, 4);
    NextOfMultiple(m, 4);
    Distribute(m, 1, B(4));
    forall k: nat, o: nat | k < LEVELS && o < SLOTS && !(k == 4 && o == m % 256)
      ensures Due(k, o, from, e) <==> Due(k, o, from, dest)
    {
      OneDue(from, e, m, k, o, dest);
    }
    AllButOne(gone, from, e, dest, m);
  }

  /** Before the next multiple of 2^32 only the slots at this one become due. */
  lemma OneDue(from: nat, e: nat, m: nat, k: nat, o: nat, dest: nat)
    requires e == m * B(4) && m % 256 != 0 && from <= e < dest <= (m + 1) * B(4)
    requires k < LEVELS && o < SLOTS && !(k == 4 && o == m % 256)
    requires LevelsDone(4, from, e) && SameDue(from, e + 1, (m + 1) * B(4))
    ensures Due(k, o, from, e) <==> Due(k, o, from, dest)
  {
    DivModUnique(e, B(4), m, 0);
    SameDueWithin(from, e + 1, dest, (m + 1) * B(4));
    assert Due(k, o, from, e + 1) <==> Due(k, o, from, (m + 1) * B(4));
    assert Due(k, o, from, dest) <==> Due(k, o, from, (m + 1) * B(4));
    if k < 4 {
      LevelsDoneAt(4, from, e, k, o);
    } else {
      assert Digit(e, 4) == m % 256;
      VisitIsDue(from, e, 4, k, o);
    }
  }

  lemma AllButOne(gone: seq<set<nat>>, from: nat, e: nat, dest: nat, m: nat)
    requires Tracks(gone, from, e) && Vacant(from, dest) && m == First(4, from) + 255
    requires forall k: nat, o: nat :: k < LEVELS && o < SLOTS && !(k == 4 && o == m % 256) ==>
               (Due(k, o, from, e) <==> Due(k, o, from, dest))
    ensures TracksTimers(gone, from, dest)
  {
    hide Vacant;
  }

  lemma TracksAll(gone: seq<set<nat>>, from: nat, dest: nat)
    requires Tracks(gone, from, dest)
    ensures TracksTimers(gone, from, dest)
  {
    hide Vacant;
  }

  lemma LevelsDoneLater(t: nat, from: nat, a: nat, b: nat)
    requires LevelsDone(t, from, a) && a <= b
    ensures LevelsDone(t, from, b)
  {
    forall k: nat, o: nat | k < t && o < SLOTS
      ensures Due(k, o, from, b)
    {
      assert Due(k, o, from, a);
    }
  }

  lemma LevelsDoneAt(t: nat, from: nat, a: nat, k: nat, o: nat)
    requires LevelsDone(t, from, a) && k < t && o < SLOTS
    ensures Due(k, o, from, a)
  {
  }

  lemma OvershotEnd(from: nat, pos: nat, covered: nat, t: nat, gone: seq<set<nat>>, dest: nat)
    requires Overshot(from, pos, covered, t, gone) && covered <= dest && CatchUpLimit(from) < dest
    ensures CaughtUp(gone, from, dest)
  {
    hide SameDue, Tracks, TracksTimers, Vacant, CatchesUp, Missed, First;
    var c := (First(4, from) + 255) / 256 + 1;
    ThirdEnd(from);
    if dest <= c * B(5) {
      TracksUpTo(gone, from, covered, dest, c * B(5));
      TracksAll(gone, from, dest);
      OvershotNear(from, First(4, from), c, dest);
    } else {
      OvershotMissed(from, First(4, from), c, dest);
    }
  }

  lemma OvershotNear(from: nat, h: nat, c: nat, dest: nat)
    requires First(3, from) % 256 == 0 && h == First(4, from) && h % 256 != 0 && c == (h + 255) / 256 + 1
    requires (h + 256) * B(4) - B(3) < dest <= c * B(5)
    ensures CatchesUp(from, dest)
  {
    hide First, CatchUpLimit;
    BValues();
    if dest <= (h + 256) * B(4) {
      NearAt(dest, 4, h + 256);
    }
  }

  lemma OvershotMissed(from: nat, h: nat, c: nat, dest: nat)
    requires First(3, from) % 256 == 0 && h == First(4, from) && h % 256 != 0 && c == (h + 255) / 256 + 1
    requires CatchUpLimit(from) < dest && c * B(5) < dest && First(5, from) == CeilDiv(h, 256)
    ensures !CatchesUp(from, dest) && !Vacant(from, dest) && Missed(from, dest) == Spot(5, c)
    ensures First(5, from) <= c < First(5, from) + 256 && from < c * B(5)
  {
    FirstBounds(4, from);
    hide First, CatchUpLimit;
    BValues();
  }

  lemma AstrayCaught(gone: seq<set<nat>>, from: nat, dest: nat)
    requires Skip(from) != 1 && dest > 0 && !CatchesUp(from, dest) && LeftOut(Missed(from, dest), gone, from, dest)
    ensures CaughtUp(gone, from, dest)
  {
    ThirdEnd(from);
  }

  lemma StrayEnd(from: nat, pos: nat, covered: nat, t: nat, counts: seq<nat>, gone: seq<set<nat>>, dest: nat)
    requires Stray(from, pos, covered, t, counts, gone)
    requires covered <= dest <= pos && CatchUpLimit(from) < dest <= MAX_TICK
    ensures CaughtUp(gone, from, dest)
  {
    hide Astray, Lagging, Overshot, CaughtUp, CatchesUp, Vacant, Missed, LeftOut, TracksTimers;
    if Astray(from, pos, covered, t, counts, gone) {
      AstrayEnd(from, pos, covered, t, counts, gone, dest);
      AstrayCaught(gone, from, dest);
    } else if Overshot(from, pos, covered, t, gone) {
      OvershotEnd(from, pos, covered, t, gone, dest);
    } else {
      var m: nat :| Lagging(from, pos, covered, t, counts, gone, m);
      LaggingEnd(from, pos, covered, t, counts, gone, m, dest);
    }
  }

  // ------------------------------------------------------------ the whole scan

  /** The head of the scan loop, wherever it is. */
  ghost predicate Tracking(from: nat, pos: nat, covered: nat, t: nat, counts: seq<nat>, gone: seq<set<nat>>) {
    Scanning(from, pos, covered, t, counts, gone) && (t >= 4 ==> Stray(from, pos, covered, t, counts, gone))
  }

  lemma StrayStart(from: nat, counts: seq<nat>, gone: seq<set<nat>>)
    requires |counts| == LEVELS && counts[4] == 1
    requires Tracks(gone, from, LevelThreeEnd(from) + 1) && OnlyDue(gone, from, LevelThreeEnd(from) + 1)
    requires LevelsDone(4, from, LevelThreeEnd(from) + 1)
    requires SameDue(from, LevelThreeEnd(from) + 1, CatchUpLimit(from))
    ensures Stray(from, Resume(from), LevelThreeEnd(from) + 1, 4, counts, gone)
  {
    hide Tracks, OnlyDue, LevelsDone, SameDue, Astray, Lagging, Overshot;
    if Skip(from) == 1 {
      LaggingStart(from, counts, gone);
      assert Lagging(from, Resume(from), LevelThreeEnd(from) + 1, 4, counts, gone, First(4, from) + 1);
    } else {
      AstrayStart(from, counts, gone);
    }
  }

  lemma TrackStart(from: nat)
    ensures Tracking(from, from, from, 0, seq(LEVELS, _ => 0), seq(LEVELS, _ => {}))
  {
    ScanStart(from);
  }

  /** One position of the scan keeps what is known of the slots it has emptied and missed. */
  lemma TrackStep(from: nat, pos: nat, covered: nat, t: nat, counts: seq<nat>, gone: seq<set<nat>>,
                  counts': seq<nat>, gone': seq<set<nat>>, t': nat)
    requires Tracking(from, pos, covered, t, counts, gone) && pos < MAX_TICK
    requires Counted(pos, t, counts, counts') && Emptied(pos, t, gone, gone')
    requires t' == NextLevel(t, counts')
    ensures t' < LEVELS && Tracking(from, pos + Stride(pos, t'), pos + 1, t', counts', gone')
    ensures OnlyDue(gone', from, pos + 1)
    ensures t > 0 ==> pos > from + 255 * B(t - 1)
  {
    hide Stray, Stride, Emptied, OnlyDue, Tracks;
    ScanStep(from, pos, covered, t, counts, gone, counts', gone', t');
    if t' >= 4 {
      if t <= 3 {
        ExactEnd(from, pos, covered, t, counts, gone, counts', gone');
        StrayStart(from, counts', gone');
      } else {
        StrayStep(from, pos, covered, t, counts, gone, counts', gone', t');
      }
    }
  }

  /** What a finished scan guarantees about the slots it has emptied. */
  ghost predicate ScanFinished(gone: seq<set<nat>>, from: nat, dest: nat) {
    OnlyDue(gone, from, dest) && CaughtUp(gone, from, dest)
  }

  /** A finished catch-up has emptied no slot before it was due, and all that are due if and only if
      it ends by the limit, or where a late scan is on time again. Else a known slot is missing. */
  lemma ScanResult(from: nat, pos: nat, covered: nat, t: nat, counts: seq<nat>, gone: seq<set<nat>>, dest: nat)
    requires Tracking(from, pos, covered, t, counts, gone) && covered <= dest <= pos && dest <= MAX_TICK
    ensures ScanFinished(gone, from, dest)
    ensures Tracks(gone, from, dest) <==> CatchesUp(from, dest)
  {
    hide Stray, Missed, LeftOut, Tracks, OnlyDue, Vacant, TracksTimers;
    ScanToLimit(from, pos, covered, t, counts, gone, dest);
    if dest > CatchUpLimit(from) {
      StrayEnd(from, pos, covered, t, counts, gone, dest);
    } else {
      TracksAll(gone, from, dest);
    }
    if !CatchesUp(from, dest) {
      LeftOutDue(Missed(from, dest), gone, from, dest);
    }
  }
}

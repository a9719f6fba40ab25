/** The simulation core of script.js ("Canton Halloween Run"): the player's
    double-jump budget and physics, spawning, the backward removal loops over
    obstacles and pumpkins, and the end-of-run save. Drawing, timers, input
    wiring and storage stay outside; the clock reading, the random draws and
    the stored leaderboard come in as parameters. */
module ScriptRunner {
  import opened Geometry
  import opened Text
  import opened Leaderboard
  import opened Seqs

  const GroundY: real := 240.0
  const Gravity: real := 0.8
  const CanvasWidth: real := 900.0
  /** Entities whose right edge (obstacles) or x (pumpkins) passes this are dropped. */
  const OffLeft: real := -50.0
  const SpawnGap: real := 1000.0
  const PumpkinPeriod: nat := 150
  const StartSpeed: real := 6.0
  const JumpBudget: int := 2
  /** A pumpkin collides as a 28-pixel square whose top sits 24 above its y. */
  const PickupSide: real := 28.0
  const PickupLift: real := 24.0
  const MinWidth: int := 32

  datatype Pumpkin = Pumpkin(x: real, y: real, size: real)

  datatype FrameOutcome =
    | Skipped   // the run had already ended: `loop` returns at once
    | Running   // the next frame is requested
    | Ended     // an obstacle was hit: the score was saved
    | Crashed   // a removal loop read past the end of its array (TypeError)

  // -----------------------------------------------------------------------
  // Spawning (random draws taken as parameters in [0, 1))

  /** `spawnObstacle()`: a post standing on the ground at the right edge. */
  function NewObstacle(r1: real, r2: real): (o: Rect)
    requires 0.0 <= r1 < 1.0 && 0.0 <= r2 < 1.0
    ensures o.x == CanvasWidth && o.y + o.height == GroundY
    ensures 100.0 <= o.height < 170.0 && 20.0 <= o.width < 40.0
  {
    var h := 100.0 + r1 * 70.0;
    Rect(CanvasWidth, GroundY - h, 20.0 + r2 * 20.0, h)
  }

  /** `spawnPumpkin()`: a pumpkin at the right edge, 80 to 160 above the ground. */
  function NewPumpkin(r: real): (p: Pumpkin)
    requires 0.0 <= r < 1.0
    ensures p.x == CanvasWidth && p.size == 32.0
    ensures GroundY - 160.0 < p.y <= GroundY - 80.0
  {
    Pumpkin(CanvasWidth, GroundY - 80.0 - r * 80.0, 32.0)
  }

  /** The obstacle spawn test of `loop`: a second after the start, and a
      second after the previous spawn. */
  predicate SpawnDue(now: real, gameStartTime: real, lastSpawn: real)
  {
    now - gameStartTime >= SpawnGap && now - lastSpawn >= SpawnGap
  }

  /** `Math.floor(50 * (w ? w / h : 1))`, raised to 32 when narrower: with
      an image, w is the floor of 50·w/h whenever that floor exceeds 32, and
      32 exactly when the floor is at most 32. */
  function ScaledWidth(imgWidth: nat, imgHeight: nat): (w: int)
    requires imgWidth > 0 ==> imgHeight > 0
    ensures w >= MinWidth
    ensures imgWidth == 0 ==> w == 50
    ensures imgWidth > 0 && w > MinWidth ==>
      w * imgHeight <= 50 * imgWidth < (w + 1) * imgHeight
    ensures imgWidth > 0 && w == MinWidth ==> 50 * imgWidth < (MinWidth + 1) * imgHeight
  {
    var scaled := if imgWidth == 0 then 50 else (50 * imgWidth) / imgHeight;
    if scaled < MinWidth then MinWidth else scaled
  }

  // -----------------------------------------------------------------------
  // The obstacle loop: for (i = n-1; i >= 0; i--) { move; maybe splice; test obstacles[i] }

  function Scrolled(o: Rect, speed: real): Rect
  {
    o.(x := o.x - speed)
  }

  predicate ObstacleGone(o: Rect)
  {
    o.x + o.width < OffLeft
  }

  /** The obstacles still on screen after moving each left by speed, in order. */
  function Survivors(s: seq<Rect>, speed: real): (r: seq<Rect>)
    ensures |r| <= |s|
  {
    if s == [] then []
    else (if ObstacleGone(Scrolled(s[0], speed)) then [] else [Scrolled(s[0], speed)]) +
         Survivors(s[1..], speed)
  }

  /** Some obstacle of s overlaps the player's box. */
  predicate AnyHit(box: Rect, s: seq<Rect>)
  {
    s != [] && (Intersect(box, s[0]) || AnyHit(box, s[1..]))
  }

  /** The loop starts at the last obstacle; when that one is spliced out
      there is nothing left at index i for `rectIntersect` to read. Any later
      splice leaves a survivor in slot i, so this is the only way to fail. */
  predicate ObstaclePassCrashes(s: seq<Rect>, speed: real)
  {
    s != [] && ObstacleGone(Scrolled(s[|s| - 1], speed))
  }

  /** AnyHit agrees with its reading as an existential. */
  lemma {:induction false} AnyHitIff(box: Rect, s: seq<Rect>)
    ensures AnyHit(box, s) <==> exists i :: 0 <= i < |s| && Intersect(box, s[i])
  {
    if s != [] {
      AnyHitIff(box, s[1..]);
      if exists i :: 0 <= i < |s| && Intersect(box, s[i]) {
        var i :| 0 <= i < |s| && Intersect(box, s[i]);
        if i > 0 { assert s[1..][i - 1] == s[i]; }
      }
      if exists i :: 0 <= i < |s[1..]| && Intersect(box, s[1..][i]) {
        var i :| 0 <= i < |s[1..]| && Intersect(box, s[1..][i]);
        assert s[i + 1] == s[1..][i];
      }
    }
  }

  /** Every survivor is on screen. */
  lemma {:induction false} SurvivorsOnScreen(s: seq<Rect>, speed: real)
    ensures forall i :: 0 <= i < |Survivors(s, speed)| ==> !ObstacleGone(Survivors(s, speed)[i])
  {
    if s != [] {
      SurvivorsOnScreen(s[1..], speed);
    }
  }

  /** Exactly the moved obstacles that are still on screen survive: each one
      moved left by exactly speed. */
  lemma {:induction false} SurvivorsExactly(s: seq<Rect>, speed: real, o: Rect)
    ensures o in Survivors(s, speed) <==>
      exists i :: 0 <= i < |s| && o == Scrolled(s[i], speed) && !ObstacleGone(o)
  {
    if s != [] {
      SurvivorsExactly(s[1..], speed, o);
      var head := if ObstacleGone(Scrolled(s[0], speed)) then [] else [Scrolled(s[0], speed)];
      assert o in Survivors(s, speed) <==> o in head || o in Survivors(s[1..], speed);
      if exists i :: 0 <= i < |s| && o == Scrolled(s[i], speed) && !ObstacleGone(o) {
        var i :| 0 <= i < |s| && o == Scrolled(s[i], speed) && !ObstacleGone(o);
        if i > 0 { assert s[1..][i - 1] == s[i]; }
      }
      if exists i :: 0 <= i < |s[1..]| && o == Scrolled(s[1..][i], speed) && !ObstacleGone(o) {
        var i :| 0 <= i < |s[1..]| && o == Scrolled(s[1..][i], speed) && !ObstacleGone(o);
        assert s[i + 1] == s[1..][i];
      }
    }
  }

  /** A box left of the drop line cannot touch a player standing right of it,
      so dropping an obstacle never hides a collision that would have counted. */
  lemma GoneObstacleMissesPlayer(o: Rect, box: Rect)
    requires ObstacleGone(o) && box.x >= OffLeft
    ensures !Intersect(box, o)
  {
  }

  /** One iteration of the obstacle loop at index i, on values. With P the
      untouched prefix, m the moved obstacle and tail the survivors after
      it: writing m into slot i and splicing it out when it is gone leaves
      P followed by the survivors from i on, and what slot i then holds
      decides the hit test. */
  lemma ObstacleStep(L: seq<Rect>, i: int, speed: real, box: Rect)
    requires 0 <= i < |L|
    ensures var P, m, tail := L[..i], Scrolled(L[i], speed), Survivors(L[i + 1..], speed);
      && |P| == i
      && L[..i + 1] + tail == P + [L[i]] + tail
      && (P + [L[i]] + tail)[i] == L[i]
      && (P + [L[i]] + tail)[i := m] == P + [m] + tail
      && (P + [m] + tail)[i] == m
      && (ObstacleGone(m) ==>
            && (P + [m] + tail)[..i] + (P + [m] + tail)[i + 1..] == P + tail
            && Survivors(L[i..], speed) == tail)
      && (!ObstacleGone(m) ==>
            && P + [m] + tail == P + Survivors(L[i..], speed)
            && (AnyHit(box, Survivors(L[i..], speed)) <==> Intersect(box, m) || AnyHit(box, tail)))
      && (tail != [] ==> (P + tail)[i] == tail[0] && (Intersect(box, tail[0]) ==> AnyHit(box, tail)))
  {
    var P, m, tail := L[..i], Scrolled(L[i], speed), Survivors(L[i + 1..], speed);
    assert L[i..][0] == L[i] && L[i..][1..] == L[i + 1..];
    PrefixSplit(L, i);
    ReplaceAt(P, L[i], m, tail);
    RemoveAt(P, m, tail);
    if !ObstacleGone(m) {
      Assoc(P, [m], tail);
      assert ([m] + tail)[0] == m && ([m] + tail)[1..] == tail;
    }
  }

  // -----------------------------------------------------------------------
  // The pumpkin loop: move; splice when off screen; read pumpkins[i]; splice when picked

  datatype Fate = Gone | Picked | Kept

  function Slid(p: Pumpkin, speed: real): Pumpkin
  {
    p.(x := p.x - speed)
  }

  function PickupBox(p: Pumpkin): Rect
  {
    Rect(p.x, p.y - PickupLift, PickupSide, PickupSide)
  }

  /** What happens to one pumpkin this frame: off screen after moving, else
      picked when its box overlaps the player's, else kept. */
  function FateOf(p: Pumpkin, speed: real, box: Rect): Fate
  {
    var m := Slid(p, speed);
    if m.x < OffLeft then Gone
    else if Intersect(box, PickupBox(m)) then Picked
    else Kept
  }

  /** The pumpkins left after the loop, moved, in order. */
  function KeptPumpkins(s: seq<Pumpkin>, speed: real, box: Rect): (r: seq<Pumpkin>)
    ensures |r| <= |s|
  {
    if s == [] then []
    else (if FateOf(s[0], speed, box) == Kept then [Slid(s[0], speed)] else []) +
         KeptPumpkins(s[1..], speed, box)
  }

  /** How many pumpkins the player picks up. */
  function PickedCount(s: seq<Pumpkin>, speed: real, box: Rect): (n: nat)
    ensures n <= |s|
  {
    if s == [] then 0
    else (if FateOf(s[0], speed, box) == Picked then 1 else 0) + PickedCount(s[1..], speed, box)
  }

  function GoneCount(s: seq<Pumpkin>, speed: real, box: Rect): (n: nat)
    ensures n <= |s|
  {
    if s == [] then 0
    else (if FateOf(s[0], speed, box) == Gone then 1 else 0) + GoneCount(s[1..], speed, box)
  }

  /** The index of the last pumpkin that is not picked up, or -1. */
  function LastUnpicked(s: seq<Pumpkin>, speed: real, box: Rect): (j: int)
    ensures -1 <= j < |s|
    ensures j >= 0 ==> FateOf(s[j], speed, box) != Picked
  {
    if s == [] then -1
    else if FateOf(s[|s| - 1], speed, box) != Picked then |s| - 1
    else LastUnpicked(s[..|s| - 1], speed, box)
  }

  /** Everything after LastUnpicked is picked up. */
  lemma {:induction false} AfterLastUnpicked(s: seq<Pumpkin>, speed: real, box: Rect)
    ensures forall k :: LastUnpicked(s, speed, box) < k < |s| ==> FateOf(s[k], speed, box) == Picked
  {
    if s != [] && FateOf(s[|s| - 1], speed, box) == Picked {
      var p := s[..|s| - 1];
      AfterLastUnpicked(p, speed, box);
      forall k | LastUnpicked(s, speed, box) < k < |s|
        ensures FateOf(s[k], speed, box) == Picked
      {
        if k < |s| - 1 { assert s[k] == p[k]; }
      }
    }
  }

  /** Walking back from the end, the loop survives as long as each
      off-screen pumpkin has a kept one after it. It fails exactly when the
      last pumpkin that is not picked up is one that has scrolled off. */
  predicate PumpkinPassCrashes(s: seq<Pumpkin>, speed: real, box: Rect)
  {
    var j := LastUnpicked(s, speed, box);
    j >= 0 && FateOf(s[j], speed, box) == Gone
  }

  /** None of the kept pumpkins is off screen or touching the player. */
  lemma {:induction false} KeptOnScreen(s: seq<Pumpkin>, speed: real, box: Rect)
    ensures forall i :: 0 <= i < |KeptPumpkins(s, speed, box)| ==>
      var p := KeptPumpkins(s, speed, box)[i];
      !(p.x < OffLeft) && !Intersect(box, PickupBox(p))
  {
    if s != [] {
      KeptOnScreen(s[1..], speed, box);
    }
  }

  /** Nothing is kept exactly when no pumpkin's fate is Kept. */
  lemma {:induction false} KeptEmptyIff(s: seq<Pumpkin>, speed: real, box: Rect)
    ensures KeptPumpkins(s, speed, box) == [] <==>
      forall k :: 0 <= k < |s| ==> FateOf(s[k], speed, box) != Kept
  {
    if s != [] {
      KeptEmptyIff(s[1..], speed, box);
      forall k | 1 <= k < |s| ensures s[k] == s[1..][k - 1] { }
    }
  }

  /** When everything after index i is picked up, each of those pumpkins
      adds one to the count. */
  lemma AllPickedCount(L: seq<Pumpkin>, i: int, speed: real, box: Rect)
    requires -1 <= i < |L|
    requires forall k :: i < k < |L| ==> FateOf(L[k], speed, box) == Picked
    ensures PickedCount(L[i + 1..], speed, box) == |L| - 1 - i
    decreases |L| - i
  {
    if i < |L| - 1 {
      AllPickedCount(L, i + 1, speed, box);
      assert L[i + 1..][0] == L[i + 1] && L[i + 1..][1..] == L[i + 2..];
    }
  }

  /** Every pumpkin is accounted for exactly once: dropped off screen,
      picked up (one point each), or kept. */
  lemma {:induction false} PumpkinTally(s: seq<Pumpkin>, speed: real, box: Rect)
    ensures |KeptPumpkins(s, speed, box)| + PickedCount(s, speed, box) +
            GoneCount(s, speed, box) == |s|
  {
    if s != [] {
      PumpkinTally(s[1..], speed, box);
    }
  }

  /** A lone pumpkin scrolling off the left edge makes the loop read past
      the end of the array. */
  lemma LonePumpkinLeavingCrashes(p: Pumpkin, speed: real, box: Rect)
    requires Slid(p, speed).x < OffLeft
    ensures PumpkinPassCrashes([p], speed, box)
  {
    assert FateOf([p][0], speed, box) == Gone;
  }

  /** A kept pumpkin at the back of the array keeps the loop safe. */
  lemma KeptLastPumpkinIsSafe(s: seq<Pumpkin>, speed: real, box: Rect)
    requires s != [] && FateOf(s[|s| - 1], speed, box) == Kept
    ensures !PumpkinPassCrashes(s, speed, box)
  {
  }

  /** One iteration of the pumpkin loop at index i, on values, with P the
      untouched prefix, m the moved pumpkin and tail what is kept after it:
      the off-screen splice applies exactly to a Gone pumpkin, the pick-up
      test then fires exactly for a Picked one, and a kept neighbour that
      slides into slot i fails the pick-up test. */
  lemma PumpkinStep(L: seq<Pumpkin>, i: int, speed: real, box: Rect)
    requires 0 <= i < |L|
    ensures var P, m, tail := L[..i], Slid(L[i], speed), KeptPumpkins(L[i + 1..], speed, box);
      var f := FateOf(L[i], speed, box);
      && |P| == i
      && L[..i + 1] + tail == P + [L[i]] + tail
      && (P + [L[i]] + tail)[i] == L[i]
      && (P + [L[i]] + tail)[i := m] == P + [m] + tail
      && (P + [m] + tail)[i] == m
      && (P + [m] + tail)[..i] + (P + [m] + tail)[i + 1..] == P + tail
      && (tail != [] ==>
            (P + tail)[i] == tail[0] && !(tail[0].x < OffLeft) && !Intersect(box, PickupBox(tail[0])))
      && (f == Gone <==> m.x < OffLeft)
      && (f == Picked <==> !(m.x < OffLeft) && Intersect(box, PickupBox(m)))
      && (f == Kept ==> P + [m] + tail == P + KeptPumpkins(L[i..], speed, box))
      && (f != Kept ==> KeptPumpkins(L[i..], speed, box) == tail)
      && (KeptPumpkins(L[i..], speed, box) == [] <==> f != Kept && tail == [])
      && PickedCount(L[i..], speed, box) == (if f == Picked then 1 else 0) + PickedCount(L[i + 1..], speed, box)
  {
    var P, m, tail := L[..i], Slid(L[i], speed), KeptPumpkins(L[i + 1..], speed, box);
    assert L[i..][0] == L[i] && L[i..][1..] == L[i + 1..];
    PrefixSplit(L, i);
    ReplaceAt(P, L[i], m, tail);
    RemoveAt(P, m, tail);
    Assoc(P, [m], tail);
    KeptOnScreen(L[i + 1..], speed, box);
  }

  /** The backward obstacle loop of `loop` (script.js:144) on the array
      value L: move, splice when off screen, then test slot i. over0 is the
      game-over flag before the loop. */
  method SweepObstacles(L: seq<Rect>, speed: real, box: Rect, over0: bool)
    returns (s: seq<Rect>, over: bool, crashed: bool)
    ensures crashed <==> ObstaclePassCrashes(L, speed)
    ensures crashed ==> s == L[..|L| - 1] && over == over0
    ensures !crashed ==> s == Survivors(L, speed) && over == (over0 || AnyHit(box, s))
  {
    s, over := L, over0;
    var i := |s| - 1;
    while i >= 0
      invariant -1 <= i < |L|
      invariant s == L[..i + 1] + Survivors(L[i + 1..], speed)
      invariant over == (over0 || AnyHit(box, Survivors(L[i + 1..], speed)))
      invariant i < |L| - 1 ==>
        Survivors(L[i + 1..], speed) != [] && !ObstacleGone(Scrolled(L[|L| - 1], speed))
    {
      ObstacleStep(L, i, speed, box);
      s := s[i := Scrolled(s[i], speed)];
      if ObstacleGone(s[i]) {
        s := s[..i] + s[i + 1..];
      }
      if i >= |s| {
        return s, over, true;
      }
      if Intersect(box, s[i]) {
        over := true;
      }
      i := i - 1;
    }
    assert L[0..] == L;
    return s, over, false;
  }

  /** What the pumpkin loop has established with slot i next: the slots
      after i hold their kept pumpkins, the count holds their pick-ups, and
      the kept part is empty exactly while no slot at or below i is the last
      pumpkin not picked up. */
  ghost predicate PumpkinLoopInv(L: seq<Pumpkin>, i: int, s: seq<Pumpkin>, count: int,
                                 count0: int, speed: real, box: Rect)
  {
    var J := LastUnpicked(L, speed, box);
    && -1 <= i < |L|
    && s == L[..i + 1] + KeptPumpkins(L[i + 1..], speed, box)
    && count == count0 + PickedCount(L[i + 1..], speed, box)
    && (J <= i ==> KeptPumpkins(L[i + 1..], speed, box) == [])
    && (i < J ==> KeptPumpkins(L[i + 1..], speed, box) != [] && FateOf(L[J], speed, box) == Kept)
  }

  /** One pass of the pumpkin loop body at slot i of the live array s:
      move, splice when off screen, then read slot i again (which crashes
      when the splice emptied it) and pick up on overlap. A crash leaves what
      SweepPumpkins promises for a crash; otherwise the loop moves on to
      slot i - 1. */
  method VisitPumpkin(s: seq<Pumpkin>, i: int, count: int, speed: real, box: Rect,
                      ghost L: seq<Pumpkin>, ghost count0: int)
    returns (s': seq<Pumpkin>, count': int, crashed: bool)
    requires 0 <= i && PumpkinLoopInv(L, i, s, count, count0, speed, box)
    ensures crashed ==> PumpkinPassCrashes(L, speed, box)
    ensures crashed ==> s' == L[..LastUnpicked(L, speed, box)]
    ensures crashed ==> count' == count0 + (|L| - 1 - LastUnpicked(L, speed, box))
    ensures !crashed ==> PumpkinLoopInv(L, i - 1, s', count', count0, speed, box)
  {
    PumpkinStep(L, i, speed, box);
    s', count' := s[i := Slid(s[i], speed)], count;
    if s'[i].x < OffLeft {
      s' := s'[..i] + s'[i + 1..];
    }
    if i >= |s'| {
      PumpkinCrashAt(L, i, speed, box, s', count', count0);
      return s', count', true;
    }
    if Intersect(box, PickupBox(s'[i])) {
      count' := count' + 1;
      s' := s'[..i] + s'[i + 1..];
    }
    crashed := false;
    LastUnpickedStep(L, i, speed, box);
    PumpkinUnfold(L, i, speed, box);
  }

  lemma PickedAfterLastUnpicked(L: seq<Pumpkin>, k: int, speed: real, box: Rect)
    requires LastUnpicked(L, speed, box) < k < |L|
    ensures FateOf(L[k], speed, box) == Picked
  {
    AfterLastUnpicked(L, speed, box);
  }

  /** The loop crashes at slot i only when i is the last pumpkin not picked
      up, and every pumpkin after it has been picked up; what the loop leaves
      behind is then the untouched front and the count of those pick-ups. */
  lemma PumpkinCrashAt(L: seq<Pumpkin>, i: int, speed: real, box: Rect,
                       s: seq<Pumpkin>, count: int, count0: int)
    requires 0 <= i < |L| && LastUnpicked(L, speed, box) <= i
    requires FateOf(L[i], speed, box) == Gone
    requires s == L[..i] && count == count0 + PickedCount(L[i + 1..], speed, box)
    ensures PumpkinPassCrashes(L, speed, box)
    ensures s == L[..LastUnpicked(L, speed, box)]
    ensures count == count0 + (|L| - 1 - LastUnpicked(L, speed, box))
  {
    if LastUnpicked(L, speed, box) < i {
      PickedAfterLastUnpicked(L, i, speed, box);
    }
    AfterLastUnpicked(L, speed, box);
    AllPickedCount(L, i, speed, box);
  }

  /** How the kept suffix relates to LastUnpicked, one slot further down,
      when the loop did not crash at slot i. */
  lemma LastUnpickedStep(L: seq<Pumpkin>, i: int, speed: real, box: Rect)
    requires 0 <= i < |L|
    requires var J := LastUnpicked(L, speed, box);
      && (J <= i ==> KeptPumpkins(L[i + 1..], speed, box) == [])
      && (i < J ==> KeptPumpkins(L[i + 1..], speed, box) != [] && FateOf(L[J], speed, box) == Kept)
    requires !(FateOf(L[i], speed, box) == Gone && KeptPumpkins(L[i + 1..], speed, box) == [])
    ensures var J := LastUnpicked(L, speed, box);
      && (J <= i - 1 ==> KeptPumpkins(L[i..], speed, box) == [])
      && (i - 1 < J ==> KeptPumpkins(L[i..], speed, box) != [] && FateOf(L[J], speed, box) == Kept)
  {
    PumpkinUnfold(L, i, speed, box);
    if LastUnpicked(L, speed, box) < i {
      PickedAfterLastUnpicked(L, i, speed, box);
    }
  }

  /** KeptPumpkins and PickedCount take one pumpkin at a time. */
  lemma PumpkinUnfold(L: seq<Pumpkin>, i: int, speed: real, box: Rect)
    requires 0 <= i < |L|
    ensures KeptPumpkins(L[i..], speed, box) ==
      (if FateOf(L[i], speed, box) == Kept then [Slid(L[i], speed)] else []) +
      KeptPumpkins(L[i + 1..], speed, box)
    ensures PickedCount(L[i..], speed, box) ==
      (if FateOf(L[i], speed, box) == Picked then 1 else 0) + PickedCount(L[i + 1..], speed, box)
  {
    assert L[i..][0] == L[i] && L[i..][1..] == L[i + 1..];
  }

  /** The backward pumpkin loop of `loop` (script.js:145) on the array value
      L. After an off-screen splice it goes on to read slot i, which is the
      next kept pumpkin, or nothing (TypeError). count0 is the pumpkin count
      before the loop. */
  method SweepPumpkins(L: seq<Pumpkin>, speed: real, box: Rect, count0: int)
    returns (s: seq<Pumpkin>, count: int, crashed: bool)
    ensures crashed <==> PumpkinPassCrashes(L, speed, box)
    ensures crashed ==> s == L[..LastUnpicked(L, speed, box)]
    ensures crashed ==> count == count0 + (|L| - 1 - LastUnpicked(L, speed, box))
    ensures !crashed ==> s == KeptPumpkins(L, speed, box)
    ensures !crashed ==> count == count0 + PickedCount(L, speed, box)
  {
    s, count := L, count0;
    var i := |s| - 1;
    PumpkinLoopStart(L, speed, box, count0);
    while i >= 0
      invariant PumpkinLoopInv(L, i, s, count, count0, speed, box)
    {
      var hit;
      s, count, hit := VisitPumpkin(s, i, count, speed, box, L, count0);
      if hit {
        return s, count, true;
      }
      i := i - 1;
    }
    PumpkinLoopEnd(L, s, count, count0, speed, box);
    return s, count, false;
  }

  lemma PumpkinLoopStart(L: seq<Pumpkin>, speed: real, box: Rect, count0: int)
    ensures PumpkinLoopInv(L, |L| - 1, L, count0, count0, speed, box)
  {
    assert L[|L|..] == [] && L[..|L|] == L;
    assert L + [] == L;
  }

  lemma PumpkinLoopEnd(L: seq<Pumpkin>, s: seq<Pumpkin>, count: int, count0: int,
                       speed: real, box: Rect)
    requires PumpkinLoopInv(L, -1, s, count, count0, speed, box)
    ensures !PumpkinPassCrashes(L, speed, box)
    ensures s == KeptPumpkins(L, speed, box)
    ensures count == count0 + PickedCount(L, speed, box)
  {
    assert L[..0] == [] && L[0..] == L;
    ghost var kept := KeptPumpkins(L, speed, box);
    assert [] + kept == kept;
  }

  // -----------------------------------------------------------------------
  // The player object

  class Player {
    var x: real
    var y: real
    var width: real
    var height: real
    var dy: real
    var jumpForce: real
    var grounded: bool
    var jumpsLeft: int

    /** The budget stays within 0..2 and the player never sinks below the ground. */
    ghost predicate Valid()
      reads this
    {
      0 <= jumpsLeft <= JumpBudget && width > 0.0 && height > 0.0 && y <= GroundY - height
    }

    /** The literal at script.js:39. */
    constructor ()
      ensures Valid()
      ensures x == 50.0 && y == GroundY - 48.0 && width == 48.0 && height == 48.0
      ensures dy == 0.0 && jumpForce == 14.0 && !grounded && jumpsLeft == JumpBudget
    {
      x, y, width, height := 50.0, GroundY - 48.0, 48.0, 48.0;
      dy, jumpForce, grounded, jumpsLeft := 0.0, 14.0, false, JumpBudget;
    }

    function Box(): Rect
      reads this
    {
      Rect(x, y, width, height)
    }

    /** `doJump()`: spend one jump; the second one (taken with one left) is
        stronger by 4. With nothing left it does nothing. */
    method DoJump()
      requires Valid()
      modifies this
      ensures Valid()
      ensures x == old(x) && y == old(y) && width == old(width) && height == old(height)
      ensures jumpForce == old(jumpForce)
      ensures old(jumpsLeft) == 0 ==>
        dy == old(dy) && grounded == old(grounded) && jumpsLeft == 0
      ensures old(jumpsLeft) > 0 ==>
        && jumpsLeft == old(jumpsLeft) - 1
        && !grounded
        && dy == -jumpForce - (if old(jumpsLeft) == 1 then 4.0 else 0.0)
    {
      if jumpsLeft > 0 {
        dy := -jumpForce - (if jumpsLeft == 1 then 4.0 else 0.0);
        jumpsLeft := jumpsLeft - 1;
        grounded := false;
      }
    }

    /** The vertical state after one physics step from (y0, dy0, g0, j0):
        velocity first, then position, then the clamp to the ground, which
        also lands the player and refills the budget. */
    ghost predicate Fell(y0: real, dy0: real, g0: bool, j0: int)
      reads this
    {
      var vy := dy0 + Gravity;
      var ny := y0 + vy;
      if ny > GroundY - height then
        y == GroundY - height && dy == 0.0 && grounded && jumpsLeft == JumpBudget
      else
        y == ny && dy == vy && grounded == g0 && jumpsLeft == j0
    }

    /** `player.dy += gravity; player.y += player.dy;` and the clamp. */
    method Fall()
      requires Valid()
      modifies this
      ensures Valid()
      ensures Fell(old(y), old(dy), old(grounded), old(jumpsLeft))
      ensures x == old(x) && width == old(width) && height == old(height)
      ensures jumpForce == old(jumpForce)
    {
      dy := dy + Gravity;
      y := y + dy;
      if y > GroundY - height {
        y := GroundY - height;
        dy := 0.0;
        grounded := true;
        jumpsLeft := JumpBudget;
      }
    }

    /** The player part of `resetGame()`: one sixth of the 300-pixel canvas
        high, w wide, standing on the ground with a full budget. */
    method Stand(w: real)
      requires w > 0.0
      modifies this
      ensures Valid()
      ensures height == 50.0 && width == w && y == GroundY - height && dy == 0.0
      ensures grounded && jumpsLeft == JumpBudget
      ensures x == old(x) && jumpForce == old(jumpForce)
    {
      height := 300.0 / 6.0;
      width := w;
      y := GroundY - height;
      dy := 0.0;
      grounded := true;
      jumpsLeft := JumpBudget;
    }
  }

  /** Two jumps from the ground: the first at jumpForce, the second 4
      stronger, and the third refused. */
  method JumpThreeTimes(p: Player)
    requires p.Valid() && p.jumpsLeft == JumpBudget && p.jumpForce == 14.0
    modifies p
    ensures p.Valid() && p.jumpsLeft == 0 && !p.grounded && p.dy == -18.0
  {
    p.DoJump();
    assert p.dy == -14.0 && p.jumpsLeft == 1 && !p.grounded;
    p.DoJump();
    assert p.dy == -18.0 && p.jumpsLeft == 0;
    p.DoJump();
    assert p.dy == -18.0 && p.jumpsLeft == 0;
  }

  // -----------------------------------------------------------------------
  // The script's global state

  class Runner {
    const player: Player
    var playerName: string
    var obstacles: seq<Rect>
    var pumpkins: seq<Pumpkin>
    var frame: int
    var speed: real
    var gameOver: bool
    var lastSpawn: real
    var gameStartTime: real
    var pumpkinCount: int
    /** A removal loop threw: the frame chain has stopped, because the
        TypeError skips the request for the next frame. */
    var crashed: bool

    ghost predicate Valid()
      reads this, player
    {
      player.Valid() && speed > 0.0 && frame >= 0 && pumpkinCount >= 0
    }

    /** The declarations at script.js:37-50. */
    constructor ()
      ensures Valid() && fresh(player)
      ensures playerName == "" && obstacles == [] && pumpkins == []
      ensures frame == 0 && speed == StartSpeed && !gameOver
      ensures lastSpawn == 0.0 && gameStartTime == 0.0 && pumpkinCount == 0
      ensures !crashed
    {
      player := new Player();
      playerName, obstacles, pumpkins := "", [], [];
      frame, speed, gameOver := 0, StartSpeed, false;
      lastSpawn, gameStartTime, pumpkinCount := 0.0, 0.0, 0;
      crashed := false;
    }

    /** `resetGame()`: empty lists, speed 6, no score, and the player re-sized
        to 50 high and standing on the ground with a full budget. */
    method ResetGame(imgWidth: nat, imgHeight: nat)
      requires Valid()
      requires imgWidth > 0 ==> imgHeight > 0
      modifies this`obstacles, this`pumpkins, this`frame, this`speed, this`gameOver,
               this`pumpkinCount, player
      ensures Valid()
      ensures obstacles == [] && pumpkins == [] && frame == 0 && speed == StartSpeed
      ensures !gameOver && pumpkinCount == 0
      ensures player.height == 50.0 && player.width == ScaledWidth(imgWidth, imgHeight) as real
      ensures player.width >= MinWidth as real
      ensures player.y == GroundY - player.height && player.dy == 0.0
      ensures player.grounded && player.jumpsLeft == JumpBudget
      ensures player.x == old(player.x) && player.jumpForce == old(player.jumpForce)
      ensures playerName == old(playerName) && lastSpawn == old(lastSpawn)
      ensures gameStartTime == old(gameStartTime) && crashed == old(crashed)
    {
      obstacles, pumpkins, frame, speed, gameOver, pumpkinCount := [], [], 0, StartSpeed, false, 0;
      player.Stand(ScaledWidth(imgWidth, imgHeight) as real);
    }

    /** The start button: trim the name (falling back to `Player` for an
        empty box), reset, and start the clocks half a second into the gap
        so that the first obstacle comes about a second in. now and later
        are the two clock readings, in order; a new frame chain begins. */
    method Start(input: string, now: real, later: real, imgWidth: nat, imgHeight: nat)
      requires Valid()
      requires now <= later
      requires imgWidth > 0 ==> imgHeight > 0
      modifies this, player
      ensures Valid()
      ensures playerName == StartName(input)
      ensures gameStartTime == now && lastSpawn == later - 500.0 && !crashed
      ensures obstacles == [] && pumpkins == [] && frame == 0 && speed == StartSpeed
      ensures !gameOver && pumpkinCount == 0
      ensures player.height == 50.0 && player.width == ScaledWidth(imgWidth, imgHeight) as real
      ensures player.y == GroundY - player.height && player.dy == 0.0
      ensures player.grounded && player.jumpsLeft == JumpBudget
      ensures player.x == old(player.x) && player.jumpForce == old(player.jumpForce)
    {
      playerName := StartName(input);
      gameStartTime := now;
      lastSpawn := later - 500.0;
      crashed := false;
      ResetGame(imgWidth, imgHeight);
    }

    /** The 15-second interval: ten percent faster. */
    method BoostSpeed()
      requires Valid()
      modifies this`speed
      ensures Valid()
      ensures speed == old(speed) * 1.1 && speed > old(speed)
    {
      speed := speed * 1.1;
    }

    method SpawnObstacle(r1: real, r2: real)
      requires 0.0 <= r1 < 1.0 && 0.0 <= r2 < 1.0
      modifies this`obstacles
      ensures obstacles == old(obstacles) + [NewObstacle(r1, r2)]
    {
      obstacles := obstacles + [NewObstacle(r1, r2)];
    }

    method SpawnPumpkin(r: real)
      requires 0.0 <= r < 1.0
      modifies this`pumpkins
      ensures pumpkins == old(pumpkins) + [NewPumpkin(r)]
    {
      pumpkins := pumpkins + [NewPumpkin(r)];
    }

    /** The obstacle loop applied to the script's array and flag. */
    method MoveObstacles() returns (crashed: bool)
      modifies this`obstacles, this`gameOver
      ensures var L := old(obstacles);
        && (crashed <==> ObstaclePassCrashes(L, speed))
        && (crashed ==> obstacles == L[..|L| - 1] && gameOver == old(gameOver))
        && (!crashed ==> obstacles == Survivors(L, speed) &&
                         gameOver == (old(gameOver) || AnyHit(player.Box(), obstacles)))
    {
      obstacles, gameOver, crashed := SweepObstacles(obstacles, speed, player.Box(), gameOver);
    }

    /** The pumpkin loop applied to the script's array and counter. */
    method MovePumpkins() returns (crashed: bool)
      modifies this`pumpkins, this`pumpkinCount
      ensures var L, box := old(pumpkins), player.Box();
              var j := LastUnpicked(L, speed, box);
        && (crashed <==> PumpkinPassCrashes(L, speed, box))
        && (crashed ==> pumpkins == L[..j] && pumpkinCount == old(pumpkinCount) + (|L| - 1 - j))
        && (!crashed ==> pumpkins == KeptPumpkins(L, speed, box) &&
                         pumpkinCount == old(pumpkinCount) + PickedCount(L, speed, box))
    {
      pumpkins, pumpkinCount, crashed := SweepPumpkins(pumpkins, speed, player.Box(), pumpkinCount);
    }

    /** The first half of a frame of `loop`: count it, spawn what is due,
        and apply gravity. `now` is the clock reading, r1 and r2 the
        obstacle draws and r3 the pumpkin draw. */
    method Advance(now: real, r1: real, r2: real, r3: real)
      requires Valid()
      requires 0.0 <= r1 < 1.0 && 0.0 <= r2 < 1.0 && 0.0 <= r3 < 1.0
      modifies this, player
      ensures Valid()
      ensures var spawn := SpawnDue(now, old(gameStartTime), old(lastSpawn));
        && frame == old(frame) + 1
        && obstacles == old(obstacles) + (if spawn then [NewObstacle(r1, r2)] else [])
        && lastSpawn == (if spawn then now else old(lastSpawn))
        && pumpkins == old(pumpkins) + (if frame % PumpkinPeriod == 0 then [NewPumpkin(r3)] else [])
      ensures player.Fell(old(player.y), old(player.dy), old(player.grounded), old(player.jumpsLeft))
      ensures player.x == old(player.x) && player.width == old(player.width)
      ensures player.height == old(player.height) && player.jumpForce == old(player.jumpForce)
      ensures speed == old(speed) && playerName == old(playerName)
      ensures gameStartTime == old(gameStartTime) && gameOver == old(gameOver)
      ensures pumpkinCount == old(pumpkinCount) && crashed == old(crashed)
    {
      frame := frame + 1;
      if SpawnDue(now, gameStartTime, lastSpawn) {
        SpawnObstacle(r1, r2);
        lastSpawn := now;
      }
      if frame % PumpkinPeriod == 0 {
        SpawnPumpkin(r3);
      }
      player.Fall();
    }

    /** The second half: the obstacle loop, then the pumpkin loop unless the
        first one failed, then the game-over test. */
    method Collide() returns (outcome: FrameOutcome)
      requires !gameOver
      modifies this`obstacles, this`gameOver, this`pumpkins, this`pumpkinCount
      ensures var obs, pks, box := old(obstacles), old(pumpkins), player.Box();
        && (outcome == Crashed <==>
              ObstaclePassCrashes(obs, speed) || PumpkinPassCrashes(pks, speed, box))
        && (ObstaclePassCrashes(obs, speed) ==>
              obstacles == obs[..|obs| - 1] && !gameOver &&
              pumpkins == pks && pumpkinCount == old(pumpkinCount))
        && (!ObstaclePassCrashes(obs, speed) ==>
              obstacles == Survivors(obs, speed) && gameOver == AnyHit(box, obstacles))
        && (!ObstaclePassCrashes(obs, speed) && PumpkinPassCrashes(pks, speed, box) ==>
              var j := LastUnpicked(pks, speed, box);
              pumpkins == pks[..j] && pumpkinCount == old(pumpkinCount) + (|pks| - 1 - j))
        && (outcome != Crashed ==>
              && pumpkins == KeptPumpkins(pks, speed, box)
              && pumpkinCount == old(pumpkinCount) + PickedCount(pks, speed, box)
              && (outcome == Ended <==> gameOver)
              && (outcome == Running <==> !gameOver))
    {
      var crashed := MoveObstacles();
      if crashed {
        return Crashed;
      }
      crashed := MovePumpkins();
      if crashed {
        return Crashed;
      }
      outcome := if gameOver then Ended else Running;
    }

    /** One animation frame of `loop` without the drawing, ending with the
        save that `endGame` does through `saveScore`; store is the
        leaderboard as stored before the frame and saved what is stored
        after it. A crash stops the frame chain: a runner that has crashed
        or ended runs no further frame. */
    method Frame(now: real, r1: real, r2: real, r3: real, store: seq<Entry>)
      returns (outcome: FrameOutcome, saved: seq<Entry>)
      requires Valid()
      requires 0.0 <= r1 < 1.0 && 0.0 <= r2 < 1.0 && 0.0 <= r3 < 1.0
      modifies this, player
      ensures Valid()
      ensures old(gameOver) || old(crashed) ==>
        outcome == Skipped && saved == store && unchanged(this) && unchanged(player)
      ensures !old(gameOver) && !old(crashed) ==>
        var spawn := SpawnDue(now, old(gameStartTime), old(lastSpawn));
        var obs := old(obstacles) + (if spawn then [NewObstacle(r1, r2)] else []);
        var pks := old(pumpkins) + (if frame % PumpkinPeriod == 0 then [NewPumpkin(r3)] else []);
        var box := player.Box();
        && frame == old(frame) + 1
        && lastSpawn == (if spawn then now else old(lastSpawn))
        && speed == old(speed) && playerName == old(playerName)
        && gameStartTime == old(gameStartTime)
        && player.Fell(old(player.y), old(player.dy), old(player.grounded), old(player.jumpsLeft))
        && player.x == old(player.x) && player.width == old(player.width)
        && player.height == old(player.height) && player.jumpForce == old(player.jumpForce)
        && (outcome == Crashed <==>
              ObstaclePassCrashes(obs, speed) || PumpkinPassCrashes(pks, speed, box))
        && (ObstaclePassCrashes(obs, speed) ==>
              obstacles == obs[..|obs| - 1] && !gameOver &&
              pumpkins == pks && pumpkinCount == old(pumpkinCount))
        && (!ObstaclePassCrashes(obs, speed) ==>
              obstacles == Survivors(obs, speed) && gameOver == AnyHit(box, obstacles))
        && (!ObstaclePassCrashes(obs, speed) && PumpkinPassCrashes(pks, speed, box) ==>
              var j := LastUnpicked(pks, speed, box);
              pumpkins == pks[..j] && pumpkinCount == old(pumpkinCount) + (|pks| - 1 - j))
        && (outcome != Crashed ==>
              && pumpkins == KeptPumpkins(pks, speed, box)
              && pumpkinCount == old(pumpkinCount) + PickedCount(pks, speed, box)
              && (outcome == Ended <==> gameOver)
              && (outcome == Running <==> !gameOver))
        && crashed == (outcome == Crashed)
        && saved == (if outcome == Ended then SaveScore(store, playerName, pumpkinCount) else store)
    {
      saved := store;
      if gameOver || crashed {
        return Skipped, saved;
      }
      Advance(now, r1, r2, r3);
      outcome := Collide();
      if outcome == Crashed {
        crashed := true;
      }
      if outcome == Ended {
        saved := SaveScore(store, playerName, pumpkinCount);
      }
    }
  }
}

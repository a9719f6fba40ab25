/** The simulation core of game.js, the full-window variant: a Player
    object with a ground flag and a shared "double jump used" flag, pumpkin
    pickups collected inside a `forEach` that splices, obstacles that only
    ever move, an in-memory leaderboard that `endGame` pushes onto and sorts,
    and the 100-pumpkin win check. The canvas size comes in through the
    constructor; random draws are parameters. */
module GameRunner {
  import opened Geometry
  import opened Text
  import opened Leaderboard
  import opened Seqs

  const Gravity: real := 1.0
  const JumpPower: real := 15.0
  const StartSpeed: real := 5.0
  /** The ground strip at the bottom of the canvas is 50 high. */
  const FloorGap: real := 50.0
  /** A jump needs the player's top below this line. */
  const CeilingY: real := 50.0
  /** A pumpkin collides as a 30-pixel square at its (x, y). */
  const PickupSide: real := 30.0
  const WinScore: int := 100
  const DefaultName: string := "Anonymous"

  datatype Pickup = Pickup(x: real, y: real)

  /** `value || "Anonymous"`: an empty box falls back to the default; any
      other text, blanks included, is kept as typed. */
  function EnteredName(input: string): (r: string)
    ensures r != []
    ensures input != [] ==> r == input
    ensures input == [] ==> r == DefaultName
  {
    if input == [] then DefaultName else input
  }

  /** Unlike script.js, game.js does not trim: a name of one blank stays a
      blank here and becomes empty there. */
  lemma BlankNamesDiffer()
    ensures EnteredName(" ") == " "
    ensures StartName(" ") == ""
  {
    assert TrimStart(" ") == "";
  }

  // -----------------------------------------------------------------------
  // Spawning

  /** `spawnObstacle()`: a block standing on the floor line at the right edge. */
  function NewObstacle(canvasWidth: real, canvasHeight: real, r1: real, r2: real): (o: Rect)
    requires 0.0 <= r1 < 1.0 && 0.0 <= r2 < 1.0
    ensures o.x == canvasWidth && o.y + o.height == canvasHeight - FloorGap
    ensures 30.0 <= o.height < 80.0 && 30.0 <= o.width < 60.0
  {
    var height := r1 * 50.0 + 30.0;
    var width := r2 * 30.0 + 30.0;
    Rect(canvasWidth, canvasHeight - FloorGap - height, width, height)
  }

  /** `spawnPumpkin()`: a pumpkin at the right edge, its box spanning the
      band from 80 to 50 above the floor line. */
  function NewPickup(canvasWidth: real, canvasHeight: real): (p: Pickup)
    ensures p.x == canvasWidth
    ensures p.y == canvasHeight - FloorGap - 80.0
  {
    Pickup(canvasWidth, canvasHeight - 130.0)
  }

  function PickupBox(p: Pickup): Rect
  {
    Rect(p.x, p.y, PickupSide, PickupSide)
  }

  /** A player of the starting size standing on the floor reaches a fresh
      pumpkin once it has scrolled over them. */
  lemma StandingPlayerReachesPickups(canvasWidth: real, canvasHeight: real, px: real)
    requires canvasWidth - 80.0 < px < canvasWidth + PickupSide
    ensures Intersect(PickupBox(NewPickup(canvasWidth, canvasHeight)),
                      Rect(px, canvasHeight - FloorGap - 80.0, 80.0, 80.0))
  {
  }

  // -----------------------------------------------------------------------
  // The pickup loop: forEach((p, index) => { move p; on overlap splice(index, 1) })

  function Slid(p: Pickup, speed: real): Pickup
  {
    p.(x := p.x - speed)
  }

  predicate Collects(p: Pickup, speed: real, box: Rect)
  {
    Intersect(PickupBox(Slid(p, speed)), box)
  }

  datatype Swept = Swept(left: seq<Pickup>, collected: nat)

  /** The forEach visits index 0, 1, … of the live array. A splice shifts
      the rest down, so the pumpkin right after a collected one is never
      visited this frame: it is neither moved nor tested. Each collected
      pumpkin leaves the array, so the two parts add up to the input. */
  function SweepPickups(s: seq<Pickup>, speed: real, box: Rect): (r: Swept)
    ensures |r.left| + r.collected == |s|
    decreases |s|
  {
    if s == [] then Swept([], 0)
    else if Collects(s[0], speed, box) then
      if |s| == 1 then Swept([], 1)
      else
        var rest := SweepPickups(s[2..], speed, box);
        Swept([s[1]] + rest.left, rest.collected + 1)
    else
      var rest := SweepPickups(s[1..], speed, box);
      Swept([Slid(s[0], speed)] + rest.left, rest.collected)
  }

  /** Every pumpkin moved by speed, the reference for a frame without pickups. */
  function SlidAll(s: seq<Pickup>, speed: real): (r: seq<Pickup>)
    ensures |r| == |s|
  {
    if s == [] then [] else [Slid(s[0], speed)] + SlidAll(s[1..], speed)
  }

  lemma {:induction false} SlidAllEach(s: seq<Pickup>, speed: real)
    ensures forall i :: 0 <= i < |s| ==> SlidAll(s, speed)[i] == Slid(s[i], speed)
  {
    if s != [] {
      SlidAllEach(s[1..], speed);
      forall i | 1 <= i < |s| ensures SlidAll(s, speed)[i] == Slid(s[i], speed) {
        assert s[1..][i - 1] == s[i];
      }
    }
  }

  /** With nothing in reach every pumpkin moves and none is collected. */
  lemma {:induction false} SweepWithoutPickups(s: seq<Pickup>, speed: real, box: Rect)
    requires forall i :: 0 <= i < |s| ==> !Collects(s[i], speed, box)
    ensures SweepPickups(s, speed, box) == Swept(SlidAll(s, speed), 0)
  {
    if s != [] {
      forall i | 0 <= i < |s| - 1 ensures !Collects(s[1..][i], speed, box) {
        assert s[1..][i] == s[i + 1];
      }
      SweepWithoutPickups(s[1..], speed, box);
    }
  }

  /** Because every collection skips the next pumpkin, at most every other
      pumpkin can be collected in one frame. */
  lemma {:induction false} SweepCollectedBound(s: seq<Pickup>, speed: real, box: Rect)
    ensures 2 * SweepPickups(s, speed, box).collected <= |s| + 1
    decreases |s|
  {
    if |s| >= 2 {
      if Collects(s[0], speed, box) {
        SweepCollectedBound(s[2..], speed, box);
      } else {
        SweepCollectedBound(s[1..], speed, box);
      }
    }
  }

  /** Two pumpkins both over the player: the first is collected and the
      second, sliding into the visited slot's place, is skipped unmoved. */
  lemma SpliceSkipsNext(p: Pickup, q: Pickup, speed: real, box: Rect)
    requires Collects(p, speed, box) && Collects(q, speed, box)
    ensures SweepPickups([p, q], speed, box) == Swept([q], 1)
  {
    var s := [p, q];
    assert s[2..] == [];
  }

  /** One visit of the forEach on values. P is the finished front of the
      array and L[j..] the untouched rest; the visit moves L[j] in place
      and tests the moved pumpkin. */
  lemma PickupVisit(L: seq<Pickup>, j: int, speed: real, box: Rect, P: seq<Pickup>)
    requires 0 <= j < |L|
    ensures (P + L[j..])[|P|] == L[j]
    ensures (P + L[j..])[|P| := Slid(L[j], speed)] == P + [Slid(L[j], speed)] + L[j + 1..]
    ensures (P + [Slid(L[j], speed)] + L[j + 1..])[|P|] == Slid(L[j], speed)
  {
    assert L[j..] == [L[j]] + L[j + 1..];
    ReplaceAt(P, L[j], Slid(L[j], speed), L[j + 1..]);
  }

  /** A collected pumpkin is spliced out, and the one after it (if any)
      is finished unmoved. */
  lemma PickupCollected(L: seq<Pickup>, j: int, speed: real, box: Rect, P: seq<Pickup>)
    requires 0 <= j < |L| && Collects(L[j], speed, box)
    ensures var u := P + [Slid(L[j], speed)] + L[j + 1..];
      u[..|P|] + u[|P| + 1..] == P + L[j + 1..]
    ensures j + 1 < |L| ==>
      && P + L[j + 1..] == P + [L[j + 1]] + L[j + 2..]
      && P + SweepPickups(L[j..], speed, box).left ==
           P + [L[j + 1]] + SweepPickups(L[j + 2..], speed, box).left
      && SweepPickups(L[j..], speed, box).collected ==
           SweepPickups(L[j + 2..], speed, box).collected + 1
    ensures j + 1 == |L| ==>
      && P + L[j + 1..] == P + L[|L|..]
      && SweepPickups(L[j..], speed, box) == Swept([], 1)
      && SweepPickups(L[|L|..], speed, box) == Swept([], 0)
  {
    RemoveAt(P, Slid(L[j], speed), L[j + 1..]);
    assert L[j..][0] == L[j];
    if j + 1 < |L| {
      assert L[j + 1..] == [L[j + 1]] + L[j + 2..];
      assert L[j..][1] == L[j + 1] && L[j..][2..] == L[j + 2..];
      Assoc(P, [L[j + 1]], L[j + 2..]);
      Assoc(P, [L[j + 1]], SweepPickups(L[j + 2..], speed, box).left);
    } else {
      assert L[j..] == [L[j]];
    }
  }

  /** A pumpkin out of reach is finished moved. */
  lemma PickupPassed(L: seq<Pickup>, j: int, speed: real, box: Rect, P: seq<Pickup>)
    requires 0 <= j < |L| && !Collects(L[j], speed, box)
    ensures SweepPickups(L[j..], speed, box).collected ==
      SweepPickups(L[j + 1..], speed, box).collected
    ensures P + SweepPickups(L[j..], speed, box).left ==
      P + [Slid(L[j], speed)] + SweepPickups(L[j + 1..], speed, box).left
  {
    assert L[j..][0] == L[j] && L[j..][1..] == L[j + 1..];
    Assoc(P, [Slid(L[j], speed)], SweepPickups(L[j + 1..], speed, box).left);
  }

  /** The forEach callback on the live array s at index k: move the
      pumpkin and, when it overlaps the player, splice it out and count it.
      In terms of the original array L, with P the finished front and L[j..]
      the untouched rest, the visit finishes one more pumpkin (or the last
      one is collected) exactly as SweepPickups does. */
  method VisitPickup(s: seq<Pickup>, k: nat, score: int, speed: real, box: Rect,
                     ghost L: seq<Pickup>, ghost P: seq<Pickup>, ghost j: int)
    returns (s': seq<Pickup>, score': int, ghost P': seq<Pickup>, ghost j': int)
    requires 0 <= j < |L| && s == P + L[j..] && |P| == k
    ensures j < j' <= |L| && s' == P' + L[j'..]
    ensures |P'| <= k + 1 && (j' < |L| ==> |P'| == k + 1)
    ensures P + SweepPickups(L[j..], speed, box).left == P' + SweepPickups(L[j'..], speed, box).left
    ensures SweepPickups(L[j..], speed, box).collected ==
      (score' - score) + SweepPickups(L[j'..], speed, box).collected
  {
    PickupVisit(L, j, speed, box, P);
    s', score' := s[k := Slid(s[k], speed)], score;
    if Intersect(PickupBox(s'[k]), box) {
      PickupCollected(L, j, speed, box, P);
      s' := s'[..k] + s'[k + 1..];
      score' := score' + 1;
      if j + 1 < |L| {
        P', j' := P + [L[j + 1]], j + 2;
      } else {
        P', j' := P, |L|;
      }
    } else {
      PickupPassed(L, j, speed, box, P);
      P', j' := P + [Slid(L[j], speed)], j + 1;
    }
  }

  /** `drawPumpkins` without the drawing, on the array value L: a forEach
      over the indices present at the start, skipping those the splices have
      emptied. score0 is the score before the loop. */
  method CollectPickups(L: seq<Pickup>, speed: real, box: Rect, score0: int)
    returns (s: seq<Pickup>, score: int)
    ensures s == SweepPickups(L, speed, box).left
    ensures score == score0 + SweepPickups(L, speed, box).collected
  {
    s, score := L, score0;
    ghost var P: seq<Pickup> := [];
    ghost var j := 0;
    var n := |L|;
    var k := 0;
    while k < n
      invariant 0 <= k <= j <= n
      invariant s == P + L[j..]
      invariant |P| <= k && (j < n ==> |P| == k)
      invariant SweepPickups(L, speed, box).left == P + SweepPickups(L[j..], speed, box).left
      invariant SweepPickups(L, speed, box).collected ==
        (score - score0) + SweepPickups(L[j..], speed, box).collected
    {
      if k < |s| {
        s, score, P, j := VisitPickup(s, k, score, speed, box, L, P, j);
      }
      k := k + 1;
    }
    assert L[n..] == [];
  }

  // -----------------------------------------------------------------------
  // The obstacle loop: forEach((obs) => { move obs; on overlap endGame() })

  function Shifted(o: Rect, speed: real): Rect
  {
    o.(x := o.x - speed)
  }

  /** Every obstacle moved by speed; game.js never removes one. */
  function MoveAll(s: seq<Rect>, speed: real): (r: seq<Rect>)
    ensures |r| == |s|
  {
    if s == [] then [] else MoveAll(s[..|s| - 1], speed) + [Shifted(s[|s| - 1], speed)]
  }

  lemma {:induction false} MoveAllEach(s: seq<Rect>, speed: real)
    ensures forall i :: 0 <= i < |s| ==> MoveAll(s, speed)[i] == Shifted(s[i], speed)
  {
    if s != [] {
      var p := s[..|s| - 1];
      MoveAllEach(p, speed);
      forall i | 0 <= i < |s| - 1 ensures MoveAll(s, speed)[i] == Shifted(s[i], speed) {
        assert p[i] == s[i];
      }
    }
  }

  /** How many obstacles of s overlap the player's box. */
  function HitCount(box: Rect, s: seq<Rect>): (n: nat)
    ensures n <= |s|
  {
    if s == [] then 0
    else HitCount(box, s[..|s| - 1]) + (if Intersect(box, s[|s| - 1]) then 1 else 0)
  }

  lemma {:induction false} HitCountZeroIff(box: Rect, s: seq<Rect>)
    ensures HitCount(box, s) == 0 <==> forall i :: 0 <= i < |s| ==> !Intersect(box, s[i])
  {
    if s != [] {
      var p := s[..|s| - 1];
      HitCountZeroIff(box, p);
      forall i | 0 <= i < |s| - 1 ensures p[i] == s[i] { }
    }
  }

  /** What one `endGame()` does to the board: push the entry and re-sort.
      The board gains one element and comes out sorted; nothing is cut off
      (RecordedPermutes says the element gained is the entry). */
  function Recorded(board: seq<Entry>, e: Entry): (r: seq<Entry>)
    ensures SortedDesc(r) && |r| == |board| + 1
  {
    SortDesc(board + [e])
  }

  lemma RecordedPermutes(board: seq<Entry>, e: Entry)
    ensures multiset(Recorded(board, e)) == multiset(board) + multiset{e}
  {
    SortDescPermutes(board + [e]);
  }

  /** The board after n calls of `endGame()` with the same entry. */
  function RecordAll(board: seq<Entry>, e: Entry, n: nat): (r: seq<Entry>)
    ensures |r| == |board| + n
  {
    if n == 0 then board else Recorded(RecordAll(board, e, n - 1), e)
  }

  /** n copies of e. */
  function Repeat(e: Entry, n: nat): (r: seq<Entry>)
    ensures |r| == n
  {
    if n == 0 then [] else Repeat(e, n - 1) + [e]
  }

  lemma {:induction false} RepeatCount(e: Entry, n: nat)
    ensures multiset(Repeat(e, n))[e] == n
  {
    if n > 0 {
      RepeatCount(e, n - 1);
    }
  }

  /** On a sorted board, n calls of `endGame()` amount to one sort of the
      board with n copies of the entry appended. */
  lemma {:induction false} RecordAllSorted(board: seq<Entry>, e: Entry, n: nat)
    requires SortedDesc(board)
    ensures RecordAll(board, e, n) == SortDesc(board + Repeat(e, n))
  {
    if n == 0 {
      SortDescOfSorted(board);
      assert board + Repeat(e, 0) == board;
    } else {
      RecordAllSorted(board, e, n - 1);
      SortDescPush(board + Repeat(e, n - 1), e);
      Assoc(board, Repeat(e, n - 1), [e]);
    }
  }

  /** n calls add n copies of the entry and nothing else. */
  lemma RecordAllPermutes(board: seq<Entry>, e: Entry, n: nat)
    requires SortedDesc(board)
    ensures multiset(RecordAll(board, e, n)) == multiset(board) + multiset(Repeat(e, n))
  {
    RecordAllSorted(board, e, n);
    SortDescPermutes(board + Repeat(e, n));
  }

  /** k hits in one frame record k copies of the entry: the entry's
      multiplicity on the board grows by exactly k. */
  lemma HitsAppendEntries(board: seq<Entry>, e: Entry, k: nat)
    requires SortedDesc(board)
    ensures multiset(RecordAll(board, e, k))[e] == multiset(board)[e] + k
  {
    RecordAllPermutes(board, e, k);
    RepeatCount(e, k);
  }

  /** `drawObstacles()` without the drawing, on the array value L: move
      every obstacle in place and call `endGame()` once for each moved
      obstacle that overlaps the player's box. Nothing is removed. */
  method SweepObstacleArray(L: seq<Rect>, speed: real, box: Rect,
                            board0: seq<Entry>, over0: bool, e: Entry)
    returns (s: seq<Rect>, board: seq<Entry>, over: bool)
    ensures s == MoveAll(L, speed)
    ensures board == RecordAll(board0, e, HitCount(box, s))
    ensures over == (over0 || HitCount(box, s) > 0)
  {
    s, board, over := L, board0, over0;
    assert L[..0] == [];
    var k := 0;
    while k < |s|
      invariant |s| == |L| && 0 <= k <= |L|
      invariant s == MoveAll(L[..k], speed) + L[k..]
      invariant board == RecordAll(board0, e, HitCount(box, MoveAll(L[..k], speed)))
      invariant over == (over0 || HitCount(box, MoveAll(L[..k], speed)) > 0)
    {
      ObstacleStep(L, k, speed, box, MoveAll(L[..k], speed));
      s := s[k := Shifted(s[k], speed)];
      if Intersect(box, s[k]) {
        board, over := Recorded(board, e), true;
      }
      k := k + 1;
    }
    assert L[..|L|] == L;
  }

  // -----------------------------------------------------------------------
  // The objects

  /** The vertical part of the state `update()` and `jump()` change: the
      player's top edge, velocity and ground flag, and the game's
      "double jump used" flag. */
  datatype Vertical = Vertical(y: real, dy: real, onGround: bool, jumpUsed: bool)

  /** The flag is set whenever the player is in the air. */
  predicate Grounded(v: Vertical)
  {
    !v.onGround ==> v.jumpUsed
  }

  /** `update()` for a player of the given height above the floor line:
      position first with the old velocity, then gravity; reaching the
      floor snaps onto it, stops, lands and clears the flag. The player
      never ends below the floor, and lands exactly when the move would
      reach it. */
  function Fall(v: Vertical, height: real, floor: real): (r: Vertical)
    ensures r.y + height <= floor
    ensures r.y + height == floor <==> v.y + v.dy + height >= floor
    ensures r.y + height == floor ==> r.dy == 0.0 && r.onGround && !r.jumpUsed
    ensures r.y + height < floor ==>
      r == v.(y := v.y + v.dy, dy := v.dy + Gravity)
    ensures Grounded(v) ==> Grounded(r)
  {
    var ny := v.y + v.dy;
    if ny + height >= floor then Vertical(floor - height, 0.0, true, false)
    else Vertical(ny, v.dy + Gravity, v.onGround, v.jumpUsed)
  }

  /** `jump()`: allowed on the ground, or in the air before the flag is
      set, and only below the ceiling line; an allowed jump sets the
      upward velocity, leaves the ground and sets the flag. */
  function JumpFrom(v: Vertical): (r: Vertical)
    ensures r.y == v.y
    ensures r != v ==> r.dy == -JumpPower && !r.onGround && r.jumpUsed
    ensures r != v ==> v.y > CeilingY && (v.onGround || !v.jumpUsed)
    ensures Grounded(v) ==> Grounded(r)
  {
    if (v.onGround || !v.jumpUsed) && v.y > CeilingY then
      Vertical(v.y, -JumpPower, false, true)
    else v
  }

  /** A player in the air with the flag set is refused; in particular,
      while the flag keeps its meaning, no jump starts in mid-air. */
  lemma AirborneJumpRefused(v: Vertical)
    requires Grounded(v) && !v.onGround
    ensures JumpFrom(v) == v
  {
  }

  /** Pressing jump twice in a row is the same as pressing it once: one jump
      per airborne period, from any state. */
  lemma JumpTwiceIsOnce(v: Vertical)
    ensures JumpFrom(JumpFrom(v)) == JumpFrom(v)
  {
  }

  /** From the ground below the ceiling line a press always jumps. */
  lemma GroundJumpAccepted(v: Vertical)
    requires v.onGround && v.y > CeilingY
    ensures JumpFrom(v) == Vertical(v.y, -JumpPower, false, true)
  {
  }

  class Player {
    var x: real
    var y: real
    var width: real
    var height: real
    var dy: real
    var onGround: bool

    /** `new Player()` for a canvas canvasHeight high. */
    constructor (canvasHeight: real)
      ensures x == 100.0 && y == canvasHeight - 150.0 && width == 80.0 && height == 80.0
      ensures dy == 0.0 && onGround
    {
      x, y, width, height := 100.0, canvasHeight - 150.0, 80.0, 80.0;
      dy, onGround := 0.0, true;
    }

    function Box(): Rect
      reads this
    {
      Rect(x, y, width, height)
    }

    /** `update()`, on the player and the game's flag. */
    method Update(g: Game)
      requires g.player == this && g.Valid()
      modifies this, g`doubleJumpUsed
      ensures g.Valid()
      ensures Vertical(y, dy, onGround, g.doubleJumpUsed) ==
        Fall(Vertical(old(y), old(dy), old(onGround), old(g.doubleJumpUsed)), height, g.Floor())
      ensures x == old(x) && width == old(width) && height == old(height)
    {
      y := y + dy;
      dy := dy + Gravity;
      if y + height >= g.Floor() {
        y := g.Floor() - height;
        dy := 0.0;
        onGround := true;
        g.doubleJumpUsed := false;
      }
    }

    /** `jump()` (the sound left out), on the player and the game's flag. */
    method Jump(g: Game)
      requires g.player == this && g.Valid()
      modifies this, g`doubleJumpUsed
      ensures g.Valid()
      ensures Vertical(y, dy, onGround, g.doubleJumpUsed) ==
        JumpFrom(Vertical(old(y), old(dy), old(onGround), old(g.doubleJumpUsed)))
      ensures x == old(x) && width == old(width) && height == old(height)
    {
      if onGround || !g.doubleJumpUsed {
        if y > CeilingY {
          dy := -JumpPower;
          onGround := false;
          if !onGround {
            g.doubleJumpUsed := true;
          }
        }
      }
    }
  }

  class Game {
    const canvasWidth: real
    const canvasHeight: real
    const player: Player
    var playerName: string
    var score: int
    var pumpkins: seq<Pickup>
    var obstacles: seq<Rect>
    var speed: real
    var doubleJumpUsed: bool
    var gameOver: bool
    var leaderboard: seq<Entry>

    /** The floor line the player stands on. */
    function Floor(): real
    {
      canvasHeight - FloorGap
    }

    /** The player never sinks below the floor, is in the air only after a
        jump that set the flag, and the leaderboard stays sorted. */
    ghost predicate Valid()
      reads this, player
    {
      && player.width > 0.0 && player.height > 0.0
      && player.y + player.height <= Floor()
      && Grounded(Vertical(player.y, player.dy, player.onGround, doubleJumpUsed))
      && SortedDesc(leaderboard)
      && score >= 0 && speed > 0.0
    }

    /** The declarations at game.js:7-16 and `new Player()`. */
    constructor (canvasWidth: real, canvasHeight: real)
      ensures Valid() && fresh(player)
      ensures this.canvasWidth == canvasWidth && this.canvasHeight == canvasHeight
      ensures playerName == "" && score == 0 && pumpkins == [] && obstacles == []
      ensures speed == StartSpeed && !doubleJumpUsed && !gameOver && leaderboard == []
      ensures player.x == 100.0 && player.y == canvasHeight - 150.0
      ensures player.width == 80.0 && player.height == 80.0 && player.dy == 0.0 && player.onGround
    {
      this.canvasWidth, this.canvasHeight := canvasWidth, canvasHeight;
      player := new Player(canvasHeight);
      playerName, score, pumpkins, obstacles := "", 0, [], [];
      speed, doubleJumpUsed, gameOver, leaderboard := StartSpeed, false, false, [];
    }

    /** The start button: take the typed name. */
    method Start(input: string)
      modifies this`playerName
      ensures playerName == EnteredName(input)
    {
      playerName := EnteredName(input);
    }

    method SpawnObstacle(r1: real, r2: real)
      requires 0.0 <= r1 < 1.0 && 0.0 <= r2 < 1.0
      modifies this`obstacles
      ensures obstacles == old(obstacles) + [NewObstacle(canvasWidth, canvasHeight, r1, r2)]
    {
      obstacles := obstacles + [NewObstacle(canvasWidth, canvasHeight, r1, r2)];
    }

    method SpawnPumpkin()
      modifies this`pumpkins
      ensures pumpkins == old(pumpkins) + [NewPickup(canvasWidth, canvasHeight)]
    {
      pumpkins := pumpkins + [NewPickup(canvasWidth, canvasHeight)];
    }

    /** The 15-second interval: ten percent faster. */
    method BoostSpeed()
      requires Valid()
      modifies this`speed
      ensures Valid()
      ensures speed == old(speed) * 1.1 && speed > old(speed)
    {
      speed := speed * 1.1;
    }

    /** `endGame()` without the restart button: flag the end, record one
        entry and re-sort; nothing is cut off. */
    method EndGame()
      requires Valid()
      modifies this`gameOver, this`leaderboard
      ensures Valid()
      ensures gameOver
      ensures leaderboard == Recorded(old(leaderboard), Entry(playerName, score))
    {
      gameOver := true;
      leaderboard := Recorded(leaderboard, Entry(playerName, score));
    }

    /** The pickup loop applied to the game's array and score. */
    method DrawPumpkins()
      requires Valid()
      modifies this`pumpkins, this`score
      ensures Valid()
      ensures var r := SweepPickups(old(pumpkins), speed, player.Box());
        pumpkins == r.left && score == old(score) + r.collected
    {
      pumpkins, score := CollectPickups(pumpkins, speed, player.Box(), score);
    }

    /** `drawObstacles()` without the drawing: move every obstacle, and call
        `endGame` once for each one that overlaps the player. */
    method DrawObstacles()
      requires Valid()
      modifies this`obstacles, this`gameOver, this`leaderboard
      ensures Valid()
      ensures obstacles == MoveAll(old(obstacles), speed)
      ensures var hits := HitCount(player.Box(), obstacles);
        && leaderboard == SortDesc(old(leaderboard) + Repeat(Entry(playerName, score), hits))
        && gameOver == (old(gameOver) || hits > 0)
    {
      var e := Entry(playerName, score);
      var box := player.Box();
      ghost var board := leaderboard;
      var s, b, o := SweepObstacleArray(obstacles, speed, box, leaderboard, gameOver, e);
      RecordAllSorted(board, e, HitCount(box, s));
      assert SortedDesc(b);
      obstacles := s;
      leaderboard := b;
      gameOver := o;
      assert player.Box() == box && e == Entry(playerName, score);
    }

    /** The three state-changing calls of `gameLoop` in order: `update()`,
        `drawPumpkins()`, `drawObstacles()`. */
    method Step()
      requires Valid()
      modifies this`doubleJumpUsed, this`pumpkins, this`score, this`obstacles,
               this`gameOver, this`leaderboard, player
      ensures Valid()
      ensures var box := player.Box();
        var sw := SweepPickups(old(pumpkins), speed, box);
        var hits := HitCount(box, obstacles);
        && Vertical(player.y, player.dy, player.onGround, doubleJumpUsed) ==
             Fall(Vertical(old(player.y), old(player.dy), old(player.onGround), old(doubleJumpUsed)),
                  player.height, Floor())
        && player.x == old(player.x) && player.width == old(player.width)
        && player.height == old(player.height)
        && pumpkins == sw.left
        && score == old(score) + sw.collected
        && obstacles == MoveAll(old(obstacles), speed)
        && leaderboard == SortDesc(old(leaderboard) + Repeat(Entry(playerName, score), hits))
        && gameOver == (old(gameOver) || hits > 0)
    {
      player.Update(this);
      ghost var box := player.Box();
      ghost var v := Vertical(player.y, player.dy, player.onGround, doubleJumpUsed);
      DrawPumpkins();
      ghost var sw := SweepPickups(old(pumpkins), speed, box);
      assert pumpkins == sw.left && score == old(score) + sw.collected;
      DrawObstacles();
      assert player.Box() == box;
      assert v == Vertical(player.y, player.dy, player.onGround, doubleJumpUsed);
    }

    /** One call of `gameLoop` without the drawing. ran is false when the
        run had already ended; shown is what `drawLeaderboard` lists. The
        run ends on a hit or on reaching the winning score, and only a hit
        records an entry. */
    method Tick() returns (ran: bool, shown: seq<Entry>)
      requires Valid()
      modifies this`doubleJumpUsed, this`pumpkins, this`score, this`obstacles,
               this`gameOver, this`leaderboard, player
      ensures Valid()
      ensures ran <==> !old(gameOver)
      ensures !ran ==> unchanged(this) && unchanged(player) && shown == []
      ensures ran ==>
        var box := player.Box();
        var sw := SweepPickups(old(pumpkins), speed, box);
        var hits := HitCount(box, obstacles);
        && Vertical(player.y, player.dy, player.onGround, doubleJumpUsed) ==
             Fall(Vertical(old(player.y), old(player.dy), old(player.onGround), old(doubleJumpUsed)),
                  player.height, Floor())
        && player.x == old(player.x) && player.width == old(player.width)
        && player.height == old(player.height)
        && pumpkins == sw.left
        && score == old(score) + sw.collected
        && obstacles == MoveAll(old(obstacles), speed)
        && leaderboard == SortDesc(old(leaderboard) + Repeat(Entry(playerName, score), hits))
        && gameOver == (hits > 0 || score >= WinScore)
        && shown == TopFive(leaderboard)
    {
      if gameOver {
        return false, [];
      }
      Step();
      shown := TopFive(leaderboard);
      ghost var v := Vertical(player.y, player.dy, player.onGround, doubleJumpUsed);
      ghost var hits := HitCount(player.Box(), obstacles);
      if score >= WinScore {
        gameOver := true;
      }
      ran := true;
      assert v == Vertical(player.y, player.dy, player.onGround, doubleJumpUsed);
      assert hits == HitCount(player.Box(), obstacles);
    }
  }

  /** One visit of the obstacle forEach on values: moving slot k extends the
      moved front by one, and the hit count grows by one exactly when the
      moved obstacle overlaps the box. */
  lemma ObstacleStep(L: seq<Rect>, k: int, speed: real, box: Rect, done: seq<Rect>)
    requires 0 <= k < |L| && done == MoveAll(L[..k], speed)
    ensures var m := Shifted(L[k], speed);
      && (done + L[k..])[k] == L[k]
      && (done + L[k..])[k := m] == MoveAll(L[..k + 1], speed) + L[k + 1..]
      && MoveAll(L[..k + 1], speed)[k] == m
      && HitCount(box, MoveAll(L[..k + 1], speed)) ==
           HitCount(box, done) + (if Intersect(box, m) then 1 else 0)
  {
    var m := Shifted(L[k], speed);
    assert L[..k + 1][..k] == L[..k];
    assert L[k..] == [L[k]] + L[k + 1..];
    ReplaceAt(done, L[k], m, L[k + 1..]);
    var moved := MoveAll(L[..k + 1], speed);
    assert moved[..|moved| - 1] == done;
  }
}

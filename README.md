# Canton Halloween Run — a verified model of the runner cores

The repository ships two browser side-scrolling runner games:

- `script.js`, "Canton Halloween Run": a jump budget of two, pumpkins to pick up, and a top-ten leaderboard kept in local storage.
- `game.js`: a full-window variant with a `Player` class, a shared "double jump used" flag, an in-memory leaderboard and a win at 100 pumpkins.

This project models the simulation logic of both games in Dafny and proves properties of it. Drawing, audio and DOM wiring are not part of the model.

Modules:

- `Geometry` (`geometry.dfy`): the box type and `rectIntersect`, the overlap test both games use for every collision.
- `Text` (`text.dfy`):
  - `String.prototype.trim`
  - `escapeHtml`, plus a decoder used to show that escaping loses nothing
  - the decimal form `${n}` gives an integer
  - character counting
- `Leaderboard` (`leaderboard.dfy`):
  - entries, and the stable descending sort `sort((a, b) => b.score - a.score)`
  - `saveScore` (push, sort, keep ten)
  - the `<li>` list of `updateLeaderboardUI`
  - the five-entry view of game.js
- `ScriptRunner` (`script_runner.dfy`), the script.js globals:
  - a `Player` class (jump budget, physics, reset) and a `Runner` class (the script's state, start, spawning, the speed boost and one frame of `loop`).
  - The two backward removal loops are methods over the array value. They return a `crashed` flag for the TypeError the code raises when it reads a slot that a splice has just emptied.
- `GameRunner` (`game_runner.dfy`), the game.js closure:
  - a `Player` class and a `Game` class
  - the `forEach` passes over pumpkins (which skip the element after a spliced one) and obstacles (which never remove anything)
  - `endGame` once per overlapping obstacle, the top-five selection and the 100-pumpkin check
- `Seqs` (`seqs.dfy`): sequence identities the loop proofs share.

Positions, sizes and speeds are exact `real`s. Random draws are parameters in `[0, 1)`. The clock reading and the image size are parameters. The stored leaderboard is a sequence passed in and returned.

Notes on what the code does:

- **Removal.** Obstacles are never removed on a collision. game.js never removes obstacles at all, and it never removes off-screen pumpkins either: `drawPumpkins` splices only on a pick-up.
- **Spawn cadence.**
  - script.js spawns at most one obstacle per second, with a fixed gap.
  - game.js draws its spawn intervals once, when the game starts.
  - Neither file shortens the spawn cadence as the run goes on.
- **Whitespace names.** script.js trims the name at the start. A blank name is therefore stored as empty and saved as `Player`. game.js keeps the typed text untrimmed and only replaces an empty box with `Anonymous`.
- **Winning.** Only game.js has a win, at 100 pumpkins. Winning sets `gameOver` and records no entry.
- **TypeError.** script.js can stop with a TypeError in either removal loop: the loop reads `obstacles[i]` or `pumpkins[i]` after `splice(i, 1)` removed the last element.
- **Grounded flag.** The grounded flag is not "on the floor":
  - script.js starts with `grounded: false` while the player stands on the ground.
  - game.js keeps `onGround` true only until a jump.

## Model

| member | source | states |
|---|---|---|
| Geometry.IntersectIffSharedInterior | script.js:106 | for boxes of positive size, `rectIntersect` holds exactly when some point lies strictly inside both |
| Geometry.IntersectSymmetric | script.js:106 | the overlap test does not depend on argument order |
| Geometry.Intersect | script.js:106 | `rectIntersect` and the inline copies at game.js:95-100 and 114-119: four strict comparisons; no contract of its own, pinned by IntersectIffSharedInterior, IntersectSymmetric and TouchingEdgesDoNotIntersect |
| Geometry.TouchingEdgesDoNotIntersect | script.js:106 | boxes sharing only an edge (e.g. `a.x + a.width == b.x`) do not overlap: all four comparisons are strict |
| Text.TrimStart | script.js:72 | the result is a suffix of the input, everything removed is whitespace, and it does not start with whitespace |
| Text.IsWhitespace | script.js:72 | the code points `trim()` strips (ECMAScript WhiteSpace and LineTerminator); no contract of its own, used by the TrimStart, TrimEnd and Trim contracts |
| Text.TrimEnd | script.js:72 | the result is a prefix, everything removed is whitespace, and it does not end with whitespace |
| Text.Trim | script.js:72 | `trim()` yields a contiguous slice with only whitespace removed on either side and no whitespace left at either end |
| Text.TrimIdempotent | script.js:72 | trimming twice equals trimming once |
| Text.Entity | script.js:68 | the replacement for one character; no contract of its own, pinned by EscapeChar |
| Text.EscapeHtml | script.js:68 | the escaped text is at least as long as the input and holds no `<`, `>` or `"` |
| Text.EscapeChar | script.js:68 | `&`, `<`, `>`, `"` become `&amp;`, `&lt;`, `&gt;`, `&quot;`; a single character is changed exactly when it is one of those four |
| Text.EscapeConcat | script.js:68 | escaping works character by character: escaping a concatenation concatenates the escapes |
| Text.EscapeRoundTrip | script.js:68 | decoding the four entities recovers the original string, so escaping is lossless |
| Text.EscapeIdentityIff | script.js:68 | `escapeHtml(s) == s` exactly when s contains none of the four special characters |
| Text.UnescapeEntity | script.js:68 | decoding an escaped character followed by any text gives the character followed by the decoded text |
| Text.NatToString | script.js:59 | the printed score is a non-empty string of digits with no leading zero |
| Text.NatToStringRoundTrip | script.js:59 | reading the printed digits back gives the number printed |
| Text.IntToStringRoundTrip | script.js:59 | `${n}` is an optional minus sign followed by the digits of abs(n), and those digits read back as abs(n) |
| Text.IntToString | script.js:59 | `${n}` has a leading minus exactly for negative n and digits elsewhere; IntToStringRoundTrip gives the value |
| Text.CountCharConcat | script.js:59 | character counts add over concatenation |
| Text.CountCharAbsent | script.js:59 | a character that does not occur is counted zero times |
| Leaderboard.SortDesc | script.js:64 | the sort keeps the length and orders scores non-increasingly |
| Leaderboard.InsertDesc | script.js:64 | one insertion step grows the list by one and puts the larger of the head and the new entry first, the head on a tie |
| Leaderboard.InsertDescSorted | script.js:64 | inserting into a sorted list keeps it sorted |
| Leaderboard.InsertDescPermutes | script.js:64 | insertion adds exactly the new entry to the multiset of entries |
| Leaderboard.SortDescPermutes | script.js:64 | the sort is a permutation of its input |
| Leaderboard.SortDescStable | script.js:64 | the sort is stable: for every score, the entries with that score keep their relative order |
| Leaderboard.InsertDescWithScore | script.js:64 | inserting into a sorted list puts the new entry behind every older entry of the same score |
| Leaderboard.InsertDescPosition | script.js:64 | in a sorted list the entry goes in right after the entries scoring at least as much and ahead of all lower ones |
| Leaderboard.SortDescCount | script.js:64 | sorting does not change how many entries reach any score |
| Leaderboard.SortDescOfSorted | script.js:64 | sorting an already sorted list returns it unchanged |
| Leaderboard.SortDescPush | game.js:127-128 | push-then-sort onto a sorted list equals sorting the whole list with the entry appended |
| Leaderboard.StartName | script.js:72 | the typed input, or `Player` for an empty box, then trimmed; no contract of its own, pinned by SavedNameFromInput and GameRunner.BlankNamesDiffer |
| Leaderboard.SavedName | script.js:63 | the saved name is never empty and is the player name whenever that is non-empty |
| Leaderboard.SavedNameFromInput | script.js:63-72 | the name recorded for a typed input is its trimmed form, or `Player` when nothing but whitespace was typed |
| Leaderboard.Take | script.js:65 | `slice(0, n)` is a prefix: the whole list when it has at most n entries, exactly its first n otherwise |
| Leaderboard.SaveScore | script.js:61-66 | after `saveScore` the stored list holds at most 10 entries sorted by non-increasing score |
| Leaderboard.SaveScorePlacesNewEntry | script.js:62-65 | the new entry lands behind the p older entries scoring at least as much (all ties first) and ahead of the rest; it survives the cut exactly when p < 10 |
| Leaderboard.SaveScoreOnSorted | script.js:62-65 | on a sorted stored list, saving is inserting at that position and keeping ten |
| Leaderboard.Item | script.js:59 | one `<li>` with the escaped name, a dash, the score and a pumpkin; no contract of its own, pinned by ItemTags |
| Leaderboard.Items | script.js:59 | the items joined with no separator; no contract of its own, pinned by ItemsTags |
| Leaderboard.RenderLeaderboard | script.js:59 | the items, or `<li>None yet</li>` when they are empty; no contract of its own, pinned by RenderLeaderboardShape |
| Leaderboard.SaveScoreExample | script.js:61-66 | saving B with 10 over `[A: 5]` stores `[B: 10, A: 5]` |
| Leaderboard.RenderLeaderboardShape | script.js:59 | an empty board shows `<li>None yet</li>`; otherwise the list is one item per entry, holding exactly two `<` and two `>` per entry whatever the names contain |
| Leaderboard.ItemTags | script.js:59 | one list item contains exactly two `<` and two `>` |
| Leaderboard.ItemsTags | script.js:59 | the joined items contain exactly two `<` and two `>` per entry |
| Leaderboard.TopFive | game.js:135 | `slice(0, 5)` is the first at most five entries in order; on a sorted board no entry left out scores more than one shown |
| ScriptRunner.NewObstacle | script.js:104 | a new post stands on the ground at x 900, 100 to 170 high and 20 to 40 wide |
| ScriptRunner.NewPumpkin | script.js:105 | a new pumpkin sits at x 900 with size 32, between 80 and 160 above the ground |
| ScriptRunner.SpawnDue | script.js:133 | the obstacle spawn test, a second after the start and a second after the previous spawn; no contract of its own, used by Runner.Advance and Runner.Frame |
| ScriptRunner.ScaledWidth | script.js:86-88 | the player width is 50 without an image; with one it is the floor of 50·w/h when that floor exceeds 32, and 32 exactly when the floor is at most 32 |
| ScriptRunner.Survivors | script.js:144 | the obstacles kept by the loop are never more than before |
| ScriptRunner.SurvivorsOnScreen | script.js:144 | no obstacle kept by the loop is past the drop line |
| ScriptRunner.SurvivorsExactly | script.js:144 | an obstacle is kept exactly when it is some obstacle moved left by exactly speed and still on screen |
| ScriptRunner.ObstaclePassCrashes | script.js:144 | the obstacle loop fails exactly when the last obstacle scrolls off; no contract of its own, the condition of SweepObstacles' crash clause |
| ScriptRunner.AnyHitIff | script.js:144 | the hit test of the loop holds exactly when some kept obstacle overlaps the player |
| ScriptRunner.GoneObstacleMissesPlayer | script.js:144 | a dropped obstacle cannot overlap a player standing right of the drop line |
| ScriptRunner.ObstacleStep | script.js:144 | one iteration on values: move slot i, splice it when gone, and slot i then holds the moved obstacle or the next survivor |
| ScriptRunner.SweepObstacles | script.js:144 | the loop fails exactly when the last obstacle scrolls off; otherwise it leaves the moved, on-screen obstacles in order, and sets game over exactly on an overlap |
| ScriptRunner.FateOf | script.js:145 | a pumpkin is gone (x below -50 after moving), else picked (its box overlaps the player), else kept; no contract of its own, pinned by PumpkinStep and KeptOnScreen |
| ScriptRunner.PickupBox | script.js:145 | the 28-pixel square at `y - 24` the pick-up test uses; no contract of its own, used by FateOf and KeptOnScreen |
| ScriptRunner.KeptPumpkins | script.js:145 | the pumpkins left are never more than before |
| ScriptRunner.PickedCount | script.js:145 | at most one pick-up per pumpkin |
| ScriptRunner.LastUnpicked | script.js:145 | the index located is a pumpkin that is not picked up, or -1 |
| ScriptRunner.AfterLastUnpicked | script.js:145 | every pumpkin after that index is picked up |
| ScriptRunner.PumpkinPassCrashes | script.js:145 | the pumpkin loop fails exactly when the last pumpkin not picked up has scrolled off; no contract of its own, the condition of SweepPumpkins' crash clause, with LonePumpkinLeavingCrashes and KeptLastPumpkinIsSafe |
| ScriptRunner.KeptOnScreen | script.js:145 | no pumpkin left is off screen or overlapping the player |
| ScriptRunner.KeptEmptyIff | script.js:145 | nothing is left exactly when no pumpkin is kept |
| ScriptRunner.PumpkinTally | script.js:145 | every pumpkin is dropped, picked up or kept, exactly once |
| ScriptRunner.AllPickedCount | script.js:145 | when every pumpkin after i is picked up, each adds exactly one to the count |
| ScriptRunner.LonePumpkinLeavingCrashes | script.js:145 | a single pumpkin scrolling off makes the loop read past the end |
| ScriptRunner.KeptLastPumpkinIsSafe | script.js:145 | a kept pumpkin at the back makes the loop safe |
| ScriptRunner.PumpkinStep | script.js:145 | one iteration on values: the off-screen splice applies exactly to a dropped pumpkin, the pick-up fires exactly for a picked one, and a kept neighbour sliding into slot i fails the re-test |
| ScriptRunner.VisitPumpkin | script.js:145 | one pass of the loop body either crashes with what the loop promises for a crash, or re-establishes the loop invariant at i - 1 |
| ScriptRunner.PumpkinCrashAt | script.js:145 | a crash at slot i happens only at the last pumpkin not picked up, leaving the untouched front and one point per pumpkin after it |
| ScriptRunner.LastUnpickedStep | script.js:145 | the relation between the kept suffix and the last unpicked index carries one slot down |
| ScriptRunner.PumpkinUnfold | script.js:145 | kept pumpkins and the pick-up count extend one pumpkin at a time |
| ScriptRunner.PumpkinLoopStart | script.js:145 | the loop invariant holds before the first iteration |
| ScriptRunner.PumpkinLoopEnd | script.js:145 | a loop that runs to the end did not crash and leaves the kept pumpkins and the pick-up count |
| ScriptRunner.SweepPumpkins | script.js:145 | the loop fails exactly when the last pumpkin not picked up has scrolled off; otherwise it leaves the kept pumpkins in order, moved by exactly speed, and adds one per pick-up |
| ScriptRunner.Player.constructor | script.js:39 | the initial player literal, within the budget and above the ground |
| ScriptRunner.Player.DoJump | script.js:93-99 | no-op with no jumps left; otherwise one jump spent, airborne, and velocity `-jumpForce`, or 4 more on the jump taken with one left; the budget stays in 0..2 |
| ScriptRunner.Player.Fall | script.js:137-138 | velocity then position; past the ground the player is clamped onto it with dy 0, grounded and budget 2, otherwise nothing else changes; never below the ground |
| ScriptRunner.Player.Stand | script.js:86-89 | the player is 50 high, standing on the ground with dy 0, grounded, full budget |
| ScriptRunner.JumpThreeTimes | script.js:93-99 | from the ground, two jumps end at dy -18 with no budget left, and the third press changes nothing |
| ScriptRunner.Runner.constructor | script.js:37-50 | the initial globals |
| ScriptRunner.Runner.ResetGame | script.js:84-90 | empty lists, speed 6, frame and count 0, not over, and the player re-sized (width at least 32) and standing with full budget |
| ScriptRunner.Runner.Start | script.js:71-77 | the trimmed name (or `Player`), a reset game, `gameStartTime` from the first clock reading and `lastSpawn` 500 before the second, so the first obstacle comes about a second in; a new frame chain starts |
| ScriptRunner.Runner.BoostSpeed | script.js:79 | speed grows by ten percent, strictly |
| ScriptRunner.Runner.SpawnObstacle | script.js:104 | exactly one new obstacle appended |
| ScriptRunner.Runner.SpawnPumpkin | script.js:105 | exactly one new pumpkin appended |
| ScriptRunner.Runner.MoveObstacles | script.js:144 | the obstacle loop applied to the script's array and flag |
| ScriptRunner.Runner.MovePumpkins | script.js:145 | the pumpkin loop applied to the script's array and counter |
| ScriptRunner.Runner.Advance | script.js:131-138 | frame counted; an obstacle spawned exactly when both one-second gaps have passed; a pumpkin every 150 frames; physics step; nothing else changes |
| ScriptRunner.Runner.Collide | script.js:144-176 | obstacle loop, pumpkin loop unless the first crashed, and the outcome: crashed, ended on a hit, or running |
| ScriptRunner.Runner.Frame | script.js:129-180 | one frame of `loop`: no-op once over or after a crash; otherwise the effects above, with the score saved exactly when the frame ends the game, and a crash recorded so that no later frame runs (the TypeError skips the next `requestAnimationFrame`) |
| GameRunner.EnteredName | game.js:29 | the name is never empty: the typed text unchanged, or `Anonymous` for an empty box |
| GameRunner.BlankNamesDiffer | game.js:29 | a one-blank name survives in game.js but becomes empty in script.js |
| GameRunner.NewObstacle | game.js:79-83 | a new block sits at x = canvas width on the floor line, 30 to 80 high and 30 to 60 wide |
| GameRunner.NewPickup | game.js:85-88 | a new pumpkin sits at x = canvas width, 80 above the floor line |
| GameRunner.StandingPlayerReachesPickups | game.js:85-100 | a player of the starting size on the floor reaches a fresh pumpkin once it has scrolled over them |
| GameRunner.PickupBox | game.js:95-100 | the 30-pixel square at the pumpkin's (x, y); no contract of its own, used by Collects and StandingPlayerReachesPickups |
| GameRunner.Collects | game.js:95-100 | the moved pumpkin's box overlaps the player; no contract of its own, used by SweepPickups, SweepWithoutPickups and SpliceSkipsNext |
| GameRunner.SweepPickups | game.js:92-105 | the pumpkins left plus those collected account for every pumpkin |
| GameRunner.SlidAll | game.js:94 | moving every pumpkin keeps the count |
| GameRunner.SlidAllEach | game.js:94 | each pumpkin moves left by exactly speed |
| GameRunner.SweepWithoutPickups | game.js:92-105 | with nothing in reach every pumpkin moves and none is collected |
| GameRunner.SweepCollectedBound | game.js:92-105 | since a splice skips the next pumpkin, at most every other pumpkin is collected in one frame |
| GameRunner.SpliceSkipsNext | game.js:92-105 | of two pumpkins both over the player the first is collected and the second is skipped unmoved |
| GameRunner.PickupVisit | game.js:94 | moving the visited slot writes the moved pumpkin in place |
| GameRunner.PickupCollected | game.js:95-102 | a collected pumpkin is spliced out, and the next one is finished unmoved |
| GameRunner.PickupPassed | game.js:95-100 | a pumpkin out of reach is finished moved |
| GameRunner.VisitPickup | game.js:92-105 | one callback on the live array finishes one more pumpkin exactly as SweepPickups does, counting one per collection |
| GameRunner.CollectPickups | game.js:90-106 | `drawPumpkins` leaves SweepPickups' pumpkins and adds one point per collection |
| GameRunner.MoveAll | game.js:110-112 | moving every obstacle keeps the count |
| GameRunner.MoveAllEach | game.js:112 | each obstacle moves left by exactly speed |
| GameRunner.HitCount | game.js:114-119 | at most one hit per obstacle |
| GameRunner.HitCountZeroIff | game.js:114-119 | no hit exactly when no moved obstacle overlaps the player |
| GameRunner.Recorded | game.js:127-128 | one `endGame` leaves the board sorted and one entry longer, uncut |
| GameRunner.RecordedPermutes | game.js:127-128 | the entry gained is exactly the new entry |
| GameRunner.RecordAll | game.js:110-128 | n calls grow the board by n |
| GameRunner.Repeat | game.js:110-121 | n copies |
| GameRunner.RepeatCount | game.js:110-121 | n copies hold the entry n times |
| GameRunner.RecordAllSorted | game.js:110-128 | on a sorted board, n calls equal one sort with n copies appended |
| GameRunner.RecordAllPermutes | game.js:110-128 | n calls add exactly n copies of the entry |
| GameRunner.HitsAppendEntries | game.js:110-128 | k overlapping obstacles append k entries: the entry's multiplicity grows by exactly k |
| GameRunner.ObstacleStep | game.js:112-121 | one callback: the moved front grows by one, and the hit count by one exactly on an overlap |
| GameRunner.SweepObstacleArray | game.js:108-123 | every obstacle moved, none removed, one `endGame` per overlap, game over exactly when there was one |
| GameRunner.Fall | game.js:53-63 | never below the floor; landing exactly when the move reaches it, leaving `y + height` on the floor line, dy 0, on ground and the flag cleared; otherwise position first, then gravity, and the flags untouched |
| GameRunner.JumpFrom | game.js:65-74 | an accepted jump sets dy `-jumpPower`, leaves the ground and sets the flag; it is accepted only below the ceiling line and when on the ground or the flag is clear; otherwise nothing changes |
| GameRunner.AirborneJumpRefused | game.js:66 | in the air with the flag set a jump is refused |
| GameRunner.JumpTwiceIsOnce | game.js:65-74 | pressing jump twice equals pressing it once: at most one jump per airborne period |
| GameRunner.GroundJumpAccepted | game.js:65-70 | on the ground below the ceiling line a jump always takes |
| GameRunner.Player.constructor | game.js:40-47 | the starting player |
| GameRunner.Player.Update | game.js:53-63 | `update()` on the object is Fall on its vertical state, x and size unchanged |
| GameRunner.Player.Jump | game.js:65-74 | `jump()` on the object is JumpFrom on its vertical state, x and size unchanged |
| GameRunner.Game.constructor | game.js:7-16 | the initial closure variables and player |
| GameRunner.Game.Start | game.js:29 | the entered name |
| GameRunner.Game.SpawnObstacle | game.js:79-83 | exactly one new obstacle appended |
| GameRunner.Game.SpawnPumpkin | game.js:85-88 | exactly one new pumpkin appended |
| GameRunner.Game.BoostSpeed | game.js:164 | speed grows by ten percent, strictly |
| GameRunner.Game.EndGame | game.js:125-130 | sets game over and records exactly one entry, re-sorted, uncut |
| GameRunner.Game.DrawPumpkins | game.js:90-106 | the pickup pass on the game's array and score |
| GameRunner.Game.DrawObstacles | game.js:108-123 | obstacles all moved; the board is the old board sorted with one entry per overlap; game over exactly on an overlap |
| GameRunner.Game.Step | game.js:143-146 | `update`, `drawPumpkins` and `drawObstacles` in order, each with its effect |
| GameRunner.Game.Tick | game.js:140-158 | no-op once over; otherwise one step, the top five shown, and game over exactly on a hit or at 100 pumpkins, with only a hit recording an entry |

## Left out

- Canvas drawing is not modelled: the background, the HUD (including the on-screen time score), `Player.draw` and every `fillText`/`fillRect`. It is output only.
- DOM and event wiring is not modelled: listeners, `fixDPI`, the orientation hint, `alert`, `location.reload` and the restart button. It is UI glue.
- Local storage and JSON are replaced by a sequence passed in and returned. The path where corrupt stored JSON makes `JSON.parse` throw is not modelled.
- Timers and clocks are parameters. This covers `setInterval`, `setTimeout`, `requestAnimationFrame` and `performance.now`. Their scheduling is not modelled; the boost is a separate `BoostSpeed` method, and the game.js spawns are methods called by the environment.
- `Math.random` draws are parameters in `[0, 1)`.
- Floating-point arithmetic is modelled as exact real arithmetic. This covers gravity 0.8, the 1.1 speed factor and the aspect-ratio division. No claims are made about IEEE rounding.
- ScriptRunner.ScaledWidth: the image size is given as integer width and height. A loaded image of height 0 (an infinite ratio in JavaScript) is excluded by its precondition.
- Audio playback is not modelled (background music and the jump and collect sounds). It is a foreign API.
- Cosmetic bobbing (`bobOffset`/`bobDir`) is not modelled. It only offsets the drawing.
- The game.js key handler is not modelled: its body is truncated in the source.
- Text.IntToString: it produces decimal integers only. Non-integral JavaScript numbers are not modelled, because scores are pumpkin counts.
- Strings are sequences of Unicode scalar values, not UTF-16 code units.
- game.js writes leaderboard names into HTML without escaping. The `<div>` markup of `drawLeaderboard` is not modelled; only the five entries it selects are modelled.
- Array methods (`forEach`, the backward `for` loops with `splice`) run on the array value and write the result back into the field. Aliasing of the entity objects is not modelled; each moved entity is a new value in its slot.
- `Array.prototype.sort` is modelled as a stable insertion sort function (SortDesc). The comparison `b.score - a.score` there assumes integral scores.

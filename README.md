# Bevy Birds: a Dafny model of the game logic

This project models the game simulation of Bevy Birds, a Flappy Bird clone written in Rust on the Bevy engine. It covers the systems that decide what happens on each frame:

- **Lifecycle** (`lifecycle.dfy`, from `src/main.rs`):
  - the four game states;
  - `update_game_state`, which moves between states on a debounced press of space or the left mouse button;
  - `reset_score`;
  - the initial resources.
  The shared resources `GameState`, `Score` and `InputReady` are fields of one `Resources` object.
- **Player controller** (`player.dfy`, from `src/player.rs`):
  - `player_gravity`, the per-tick falling and jumping state machine;
  - `player_jump`;
  - `player_collide_with_objects`;
  - `player_respawn`;
  - the default player.
- **Pipe system** (`pipe.dfy`, from `src/pipe.rs`):
  - `Gap::default`;
  - `spawn_pipes`, which adds a Top/Bottom pair that shares one gap;
  - `move_pipes`, which scrolls the pipes, despawns them past the left edge, scores Top pipes on the centre line and clears the field in `PreGame`.
- **Simulation** (`simulation.dfy`): properties that involve several systems together.

Each system has two parts:

- A pure step function (`Advance`, `Gravity`, `Jump`, `Collide`, `Respawn`, `Move`, ...). Its contract states what the system promises. Lemmas about it state what holds over several frames.
- A class method that updates the fields in place the way the Rust system does (`Resources.UpdateGameState`, `PlayerEntity.ApplyGravity`, `PipeField.MovePipes`, ...). Each method is proved to leave exactly the state its step function gives.

Units:

- Time accumulators are counted in gravity-timer periods of 0.01 s (`fallTicks`, `jumpTicks`).
- Vertical positions and gap offsets are reals.
- Pipe x positions are integers. They start at 240 and move 2 units per frame, so they stay whole numbers.

Three places where the code behaves differently from what a quick reading suggests:

- **Jump length.** `seconds_jumping` is an `f32` that grows by 0.01 while it is below 0.05 (`src/player.rs:62-63`). In `f32`, five increments give 0.049999997, which is still below `0.05f32` (0.050000001). So the counter increments six times, and the seventh active tick turns the jump into a fall. The model therefore uses `JUMP_LIMIT_TICKS = 6`. `JumpArc` proves that a jump rises by `GRAVITY` on each of 7 ticks before the player starts falling.
- **Pin to origin.** `player_gravity` has a branch that puts the player back at the origin in `PreGame`. That branch sits inside the `GameActive` test (`src/player.rs:56`, `src/player.rs:69-72`), so it can never run. `Gravity` keeps the branch, and its contract proves that gravity never changes x. `PlayerEntity.ApplyGravity` marks the branch unreachable with `assert false`.
- **Third gap branch.** The third branch of `Gap::default` (top 120, bottom 0) can never be taken, because every draw is either `>= 0` or `< 0`. `GapFor` keeps it.

## Model

| member | source | states |
|---|---|---|
| Lifecycle.OnPress | src/main.rs:142-146 | A debounced press takes PreGame to GameActive and GameOver to Reset. It leaves GameActive and Reset as they are. |
| Lifecycle.Advance | src/main.rs:135-152 | The state changes only on a press while ready, and only PreGame to GameActive or GameOver to Reset. A press while ready always clears ready. A release always sets ready, even in the same frame as a press, because the release is checked after the press. |
| Lifecycle.HeldPressTransitionsAtMostOnce | src/main.rs:141-151 | Debounce: over any run of frames with no release, the state makes at most one transition. Once ready is false, nothing changes. |
| Lifecycle.ScoreAfterReset | src/main.rs:130-134 | The score changes exactly when the state is PreGame and the score is positive, and then it becomes 0. A non-negative score never grows. |
| Lifecycle.ResetScoreIdempotent | src/main.rs:130-134 | Running reset_score twice gives the same score as running it once. |
| Lifecycle.Resources.constructor | src/main.rs:47-49 | Initial resources: GameState PreGame (its Default), Score 0, InputReady true. |
| Lifecycle.Resources.UpdateGameState | src/main.rs:135-152 | update_game_state leaves exactly the state and readiness that Advance gives, and does not touch the score. |
| Lifecycle.Resources.ResetScore | src/main.rs:130-134 | reset_score leaves exactly the score that ScoreAfterReset gives. |
| PlayerController.Spawned | src/player.rs:9-17 | The default player is at the origin, neither falling nor jumping, with both accumulators at 0. |
| PlayerController.FallDrop | src/player.rs:57-58 | The drop of one falling tick is never negative. It is zero only on the first tick of a fall. |
| PlayerController.Gravity | src/player.rs:48-76 | Nothing moves unless the timer fired and the game is active. x never changes. A falling player drops by GRAVITY times the seconds fallen, keeps falling, and its next drop is no smaller. A rising player goes up by GRAVITY and counts the tick, and at the limit it switches to falling with the jump counter at 0. An idle player stays put. The flags never end up both set. |
| PlayerController.Jump | src/player.rs:77-92 | A press while ready, outside GameOver, starts a jump from the player's current position: jumping, not falling, both accumulators 0. Otherwise the player is unchanged. |
| PlayerController.Collide | src/player.rs:104-124 | Any overlap while GameActive gives GameOver and stops the fall, with seconds_falling at 0. Without an overlap, or outside GameActive, nothing changes. |
| PlayerController.Respawn | src/player.rs:93-103 | Reset is replaced by a freshly spawned player and PreGame. Any other state is left alone. Reset never survives this system. |
| PlayerController.FlagsStayExclusive | src/player.rs:48-124 | Gravity, jump, collision and respawn all keep "never both falling and jumping". |
| PlayerController.Rising | src/player.rs:60-64 | Below the limit, each active tick of a jump lifts the player by GRAVITY and counts one more jump tick. |
| PlayerController.JumpArc | src/player.rs:60-68 | After a jump starts, the player is still jumping after each of the first JUMP_LIMIT_TICKS ticks. One tick later it is falling with the jump counter at 0, having risen (JUMP_LIMIT_TICKS + 1) times GRAVITY. |
| PlayerController.Falling | src/player.rs:57-59 | A falling player stays falling. After n ticks, fallTicks has grown by n and y has dropped by the sum of the growing per-tick drops, so y never goes up. |
| PlayerController.PlayerEntity.constructor | src/player.rs:34-47 | spawn_player makes the default player at the origin. |
| PlayerController.PlayerEntity.ApplyGravity | src/player.rs:48-76 | player_gravity leaves exactly the player that Gravity gives. |
| PlayerController.PlayerEntity.StartJump | src/player.rs:77-92 | player_jump leaves exactly the player that Jump gives. |
| PlayerController.PlayerEntity.CollideWithObjects | src/player.rs:104-124 | The loop over colliders leaves exactly the player and state that Collide gives. |
| PlayerController.PlayerEntity.RespawnIfReset | src/player.rs:93-103 | player_respawn leaves exactly the player and state that Respawn gives. |
| Pipes.GapFor | src/pipe.rs:21-44 | For a draw r >= 0 the gap's top is r. For r < 0 its bottom is r. For every draw, top - bottom = 120 and bottom < 0 <= top. |
| Pipes.SpawnPair | src/pipe.rs:80-116 | spawn_pipes creates a Top pipe then a Bottom pipe, both at x = 240 with the same gap. The Top pipe's lower edge is at gap.top and the Bottom pipe's upper edge is at gap.bottom. |
| Pipes.SpawnedOpening | src/pipe.rs:83-116 | For every draw, the facing edges of a new pair are exactly 120 apart, and the centre line y = 0 runs between them. |
| Pipes.Scrolled | src/pipe.rs:52-56 | An active frame never adds pipes, and every pipe left on the field is at x >= -304. |
| Pipes.ScrolledMembers | src/pipe.rs:52-56 | After an active frame, the field holds p moved 2 to the left exactly when p was on the field and its new x is not below -304. |
| Pipes.Points | src/pipe.rs:57-62 | An active frame awards at most one point per pipe. |
| Pipes.OnlyTopsScore | src/pipe.rs:57-62 | Bottom pipes never score: the points of a frame are the points of its Top pipes alone, and there are at most as many as there are Top pipes. |
| Pipes.Move | src/pipe.rs:45-69 | move_pipes never lowers the score, and raises it only in GameActive, by at most the number of pipes. PreGame clears every pipe. GameOver and Reset leave pipes and score unchanged. |
| Pipes.ColumnStep | src/pipe.rs:52-62 | A pair that survives an active frame moves 2 to the left and scores exactly when it lands on x = 0. |
| Pipes.ColumnLeaves | src/pipe.rs:53-56 | A frame that moves a pair below x = -304 despawns both halves and scores nothing. |
| Pipes.PairScrolls | src/pipe.rs:52-62 | Over the first 272 active frames, a new pair stays together at x = 240 - 2n. Its Top half scores once, on frame 120. |
| Pipes.ScrolledAppend | src/pipe.rs:52-62 | Each pipe scrolls, despawns and scores on its own: one frame over a + b gives the survivors of a followed by those of b, and the points of a plus the points of b. |
| Pipes.FramesAppend | src/pipe.rs:51-62 | Over any number of active frames, the pipes of a + b evolve as those of a followed by those of b, and their points add up. |
| Pipes.FieldSplits | src/pipe.rs:51-62 | A field made of three runs of pipes evolves run by run, with the points of the three runs adding up. |
| Pipes.PairLifetime | src/pipe.rs:53-59 | A pair alone on the field is at x = -304 with one point after 272 active frames, and gone, still with one point, after 273. |
| Pipes.PairScrollsAmongOthers | src/pipe.rs:52-62 | Among any older and newer pipes, a new pair keeps its place in the field and stands at x = 240 - 2n for n < 273. It adds exactly its own point, on frame 120, to what the other pipes score. |
| Pipes.PairLeavesAmongOthers | src/pipe.rs:53-56 | Among any other pipes, after 273 active frames both halves of a pair are gone. The field and the score are what the other pipes alone give, plus the pair's one point. |
| Pipes.PairScoresExactlyOnce | src/pipe.rs:53-59 | Whatever other pipes share the field, a pair spawned at x = 240 for any draw is still on the field, in its place, after 272 active frames. After 273 it is gone, and it has added exactly one point to the score. |
| Pipes.PipeField.SpawnPipes | src/pipe.rs:71-119 | When the timer fired in GameActive, spawn_pipes appends exactly the pair for the draw. Otherwise it changes nothing. |
| Pipes.PipeField.MovePipes | src/pipe.rs:45-69 | move_pipes leaves exactly the pipes and score that Move gives for the current state. |
| Simulation.CrashFreezesTheRound | src/player.rs:117-121 | After a collision in an active game, gravity, jump and move_pipes change nothing until the lifecycle moves on. |
| Simulation.RestartClearsTheRound | src/player.rs:95-101 | From GameOver, a press while ready goes to Reset. Respawn then gives a fresh player and PreGame. The next move_pipes empties the field, and reset_score brings a non-negative score back to 0. |
| Simulation.ScoreStaysNonNegative | src/main.rs:130-134 | Over any run of frames of move_pipes and reset_score, the score stays non-negative. |

## Left out

- Rendering, sprites, materials, cameras, the window, fonts, `setup`, `update_scoreboard` and `exit_on_esc_system` are engine plumbing with no game logic.
- Bevy's `Timer`: the gravity and spawn timers are a boolean "just finished this frame" input to each step.
- The random draw of `Gap::default` is a parameter `r` in the range `gen_range` draws from, -64 to 64.
- `collide` from `bevy::sprite::collide_aabb` is not part of this model. Its result against each collider is an input, `hits`, in query order. So the ground and pipe geometry does not enter the proofs.
- `f32` rounding of positions and of `9.8 * seconds_falling`. Positions are exact reals, and `seconds_falling` is exactly `fallTicks * 0.01`. The one place where `f32` rounding changes a branch, the jump limit, is modelled through `JUMP_LIMIT_TICKS`.
- `Score` is an `i32`, but the model's score is an unbounded integer. Overflow after 2^31 points is not modelled.
- Entity identity, queries and deferred `Commands`. The player is one object whose fields respawn resets, and the pipes are a sequence that move_pipes replaces at the end of the frame. A query that finds no player is not modelled, because the player always exists.
- The order of systems within a frame is the engine's choice. Each system is modelled on its own. `Simulation` composes them in one order that the engine may pick.
- The pipes' z coordinate and sprite size, and the ground collider from `setup`.

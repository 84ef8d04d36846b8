/*
 * Properties that span several systems: a crash freezes the round, and the
 * restart press takes it back to an empty PreGame with a fresh player and,
 * once reset_score has run, a zero score.
 *
 * Each system is applied once per frame; the order used here (lifecycle,
 * respawn, pipes, score) is one order the engine may pick.
 */
module Simulation {
  import opened Lifecycle
  import opened PlayerController
  import opened Pipes

  /** After a collision in an active game, no system moves anything until a
      debounced press: gravity, jumping and the pipes all stand still. */
  lemma CrashFreezesTheRound(p: Player, f: Field, hits: seq<bool>, fired: bool, ready: bool, i: Input)
    requires true in hits
    ensures var (q, s) := Collide(p, GameActive, hits);
            s == GameOver && !q.isFalling &&
            Gravity(q, s, fired) == q &&
            Jump(q, s, ready, i) == q &&
            Move(s, f) == f
  {
  }

  /** From GameOver, a debounced press restarts: the lifecycle goes to Reset,
      respawn brings a fresh player and PreGame, the next move_pipes empties the
      field and reset_score returns a non-negative score to zero. */
  lemma RestartClearsTheRound(p: Player, f: Field, i: Input)
    requires i.Pressed() && f.score >= 0
    ensures var c := Advance(Control(GameOver, true), i);
            var (q, s) := Respawn(p, c.state);
            c.state == Reset && q == Spawned() && s == PreGame &&
            Move(s, f).pipes == [] &&
            ScoreAfterReset(s, Move(s, f).score) == 0
  {
  }

  /** The score never goes negative: it starts at zero, move_pipes only adds
      to it and reset_score only sets it back to zero. */
  lemma {:induction false} ScoreStaysNonNegative(states: seq<GameStates>, f: Field)
    requires f.score >= 0
    ensures Frames(states, f).score >= 0
    decreases |states|
  {
    if states != [] {
      ScoreStaysNonNegative(states[1..], Field(Move(states[0], f).pipes,
                                               ScoreAfterReset(states[0], Move(states[0], f).score)));
    }
  }

  /** move_pipes then reset_score, once per frame, over a run of lifecycle states. */
  function Frames(states: seq<GameStates>, f: Field): Field
    decreases |states|
  {
    if states == [] then f
    else
      var g := Move(states[0], f);
      Frames(states[1..], Field(g.pipes, ScoreAfterReset(states[0], g.score)))
  }
}

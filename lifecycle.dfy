/*
 * Game lifecycle, input debounce and score reset of the game (src/main.rs).
 *
 * The three process-wide resources GameState, Score and InputReady are the
 * fields of one Resources object that every system receives by reference.
 * Each system is a method proved against a pure step function; the lemmas
 * about the step functions state what the game promises over several frames.
 */
module Lifecycle {

  /** The four lifecycle states (src/main.rs:26-31). */
  datatype GameStates = PreGame | GameActive | GameOver | Reset

  /** What the jump controls report in one frame: the level of the space key
      and of the left mouse button, and whether either was released this frame. */
  datatype Input = Input(spacePressed: bool, mousePressed: bool,
                         spaceJustReleased: bool, mouseJustReleased: bool)
  {
    /** A jump control is held down. */
    predicate Pressed() { spacePressed || mousePressed }

    /** A jump control was released this frame. */
    predicate JustReleased() { spaceJustReleased || mouseJustReleased }
  }

  /** The part of the shared resources that update_game_state reads and writes. */
  datatype Control = Control(state: GameStates, ready: bool)

  /** The transition a debounced press makes. */
  function OnPress(s: GameStates): (t: GameStates)
    ensures t == GameActive <==> s == PreGame || s == GameActive
    ensures t == Reset <==> s == GameOver || s == Reset
  {
    match s
    case PreGame => GameActive
    case GameOver => Reset
    case _ => s
  }

  /** One frame of update_game_state: the press branch, then the release branch. */
  function Advance(c: Control, i: Input): (d: Control)
    // the state moves only on a debounced press, and only PreGame -> GameActive or GameOver -> Reset
    ensures d.state != c.state ==>
              c.ready && i.Pressed() &&
              ((c.state == PreGame && d.state == GameActive) || (c.state == GameOver && d.state == Reset))
    ensures c.ready && i.Pressed() ==> d.state == OnPress(c.state)
    // a press always consumes readiness, a release always restores it, and the release wins
    ensures i.JustReleased() ==> d.ready
    ensures !i.JustReleased() ==> (d.ready <==> c.ready && !i.Pressed())
  {
    var afterPress := if c.ready && i.Pressed() then Control(OnPress(c.state), false) else c;
    if i.JustReleased() then afterPress.(ready := true) else afterPress
  }

  /** A run of frames, one input per frame. */
  function Run(c: Control, inputs: seq<Input>): Control
    decreases |inputs|
  {
    if inputs == [] then c else Run(Advance(c, inputs[0]), inputs[1..])
  }

  /** Debounce: while no control is released, a held (or repeatedly pressed)
      control makes at most one lifecycle transition, and none at all once
      readiness has been consumed. */
  lemma {:induction false} HeldPressTransitionsAtMostOnce(c: Control, inputs: seq<Input>)
    requires forall k :: 0 <= k < |inputs| ==> !inputs[k].JustReleased()
    ensures !c.ready ==> Run(c, inputs) == c
    ensures Run(c, inputs).state == c.state || Run(c, inputs).state == OnPress(c.state)
    decreases |inputs|
  {
    if inputs != [] {
      var d := Advance(c, inputs[0]);
      HeldPressTransitionsAtMostOnce(d, inputs[1..]);
      if d != c {
        assert !d.ready;
      }
    }
  }

  /** reset_score: the score after one frame of that system. */
  function ScoreAfterReset(s: GameStates, score: int): (r: int)
    ensures r != score <==> s == PreGame && score > 0
    ensures r == score || r == 0
    ensures score >= 0 ==> 0 <= r <= score
  {
    if s == PreGame && score > 0 then 0 else score
  }

  /** Running reset_score twice in a frame is the same as running it once. */
  lemma ResetScoreIdempotent(s: GameStates, score: int)
    ensures ScoreAfterReset(s, ScoreAfterReset(s, score)) == ScoreAfterReset(s, score)
  {
  }

  /** The process-wide resources GameState, Score and InputReady. */
  class Resources {
    var state: GameStates
    var score: int
    var ready: bool

    /** The initial resources: the default GameState and Score(0), InputReady(true). */
    constructor ()
      ensures state == PreGame && score == 0 && ready
    {
      state := PreGame;
      score := 0;
      ready := true;
    }

    /** update_game_state: debounced lifecycle transition driven by the jump controls. */
    method UpdateGameState(i: Input)
      modifies this`state, this`ready
      ensures Control(state, ready) == Advance(old(Control(state, ready)), i)
    {
      if ready && i.Pressed() {
        match state {
          case PreGame => state := GameActive;
          case GameOver => state := Reset;
          case _ =>
        }
        ready := false;
      }
      if i.JustReleased() {
        ready := true;
      }
    }

    /** reset_score: zero a positive score once the game is back in PreGame. */
    method ResetScore()
      modifies this`score
      ensures score == ScoreAfterReset(state, old(score))
    {
      if state == PreGame && score > 0 {
        score := 0;
      }
    }
  }
}

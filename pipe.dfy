/*
 * Obstacle system (src/pipe.rs): the gap drawn for a pipe pair, spawning a
 * Top/Bottom pair, and the per-frame scroll that despawns pipes past the
 * left edge, scores Top pipes on the centre line and clears the field in
 * PreGame.
 *
 * Pipes scroll by whole units from a whole-unit column, so x is an int;
 * vertical positions and gap offsets are reals.
 */
module Pipes {
  import opened Lifecycle

  /** The column where pipes appear (src/pipe.rs:89, 106). */
  const SPAWN_X: int := 240
  /** Scroll distance per frame (src/pipe.rs:53). */
  const SPEED: int := 2
  /** A pipe whose x goes below this is despawned: -240 - 64 (src/pipe.rs:54). */
  const DESPAWN_X: int := -304
  /** Half the pipe's (and the field's) height, 640 / 2. */
  const HALF_HEIGHT: real := 320.0
  /** Height of the opening between the two halves of a pair. */
  const GAP_HEIGHT: real := 120.0

  datatype Kind = Top | Bottom

  /** The vertical offsets of a pair's opening. */
  datatype Gap = Gap(top: real, bottom: real)

  /** One pipe entity: its tag, its translation and the gap it was spawned with. */
  datatype Pipe = Pipe(kind: Kind, x: int, y: real, gap: Gap)

  /** The range gen_range draws from. */
  predicate InDrawRange(r: real) { -64.0 <= r <= 64.0 }

  /** Gap::default for the random draw r. */
  function GapFor(r: real): (g: Gap)
    requires InDrawRange(r)
    ensures g.top - g.bottom == GAP_HEIGHT
    ensures g.bottom < 0.0 <= g.top
    ensures r >= 0.0 ==> g.top == r
    ensures r < 0.0 ==> g.bottom == r
  {
    if r >= 0.0 then Gap(r, r - 120.0)
    else if r < 0.0 then Gap(r + 120.0, r)
    else Gap(120.0, 0.0)
  }

  /** The two pipes spawn_pipes creates for one gap. */
  function SpawnPair(g: Gap): (ps: seq<Pipe>)
    ensures |ps| == 2 && ps[0].kind == Top && ps[1].kind == Bottom
    // both halves start in the spawn column and carry the same gap
    ensures ps[0].x == SPAWN_X && ps[1].x == SPAWN_X
    ensures ps[0].gap == g && ps[1].gap == g
    // the Top pipe's lower edge is at the gap's top, the Bottom pipe's upper edge at its bottom
    ensures ps[0].y - HALF_HEIGHT == g.top && ps[1].y + HALF_HEIGHT == g.bottom
  {
    [Pipe(Top, SPAWN_X, g.top + 640.0 / 2.0, g),
     Pipe(Bottom, SPAWN_X, g.bottom - 640.0 / 2.0, g)]
  }

  /** For every draw, the facing edges of a spawned pair are GAP_HEIGHT apart
      and the field's centre line passes between them. */
  lemma SpawnedOpening(r: real)
    requires InDrawRange(r)
    ensures var ps := SpawnPair(GapFor(r));
            (ps[0].y - HALF_HEIGHT) - (ps[1].y + HALF_HEIGHT) == GAP_HEIGHT &&
            ps[1].y + HALF_HEIGHT < 0.0 <= ps[0].y - HALF_HEIGHT
  {
  }

  /** One scroll step of a single pipe. */
  function Shift(p: Pipe): Pipe { p.(x := p.x - SPEED) }

  /** The pipes still on the field after one active frame, in order: each
      moved left by SPEED, those now past DESPAWN_X removed. */
  function Scrolled(ps: seq<Pipe>): (r: seq<Pipe>)
    ensures |r| <= |ps|
    ensures forall p :: p in r ==> p.x >= DESPAWN_X
    decreases |ps|
  {
    if ps == [] then []
    else
      var q := Shift(ps[|ps| - 1]);
      Scrolled(ps[..|ps| - 1]) + (if q.x < DESPAWN_X then [] else [q])
  }

  /** The points one active frame awards: one per Top pipe that lands on x == 0. */
  function Points(ps: seq<Pipe>): (n: nat)
    ensures n <= |ps|
    decreases |ps|
  {
    if ps == [] then 0
    else
      var q := Shift(ps[|ps| - 1]);
      Points(ps[..|ps| - 1]) + (if q.x == 0 && q.kind == Top then 1 else 0)
  }

  /** Exactly the pipes that survive the step appear, moved, after it. */
  lemma {:induction false} ScrolledMembers(ps: seq<Pipe>, p: Pipe)
    ensures Shift(p) in Scrolled(ps) <==> p in ps && Shift(p).x >= DESPAWN_X
    decreases |ps|
  {
    if ps != [] {
      var init, last := ps[..|ps| - 1], ps[|ps| - 1];
      assert ps == init + [last];
      ScrolledMembers(init, p);
      if Shift(p) == Shift(last) {
        assert p == last;
      }
    }
  }

  /** The pipes that carry the Top tag. */
  function Tops(ps: seq<Pipe>): (r: seq<Pipe>)
    decreases |ps|
  {
    if ps == [] then []
    else Tops(ps[..|ps| - 1]) + (if ps[|ps| - 1].kind == Top then [ps[|ps| - 1]] else [])
  }

  /** Bottom pipes never score: the points come from the Top pipes alone,
      and each Top pipe scores at most once per frame. */
  lemma {:induction false} OnlyTopsScore(ps: seq<Pipe>)
    ensures Points(ps) == Points(Tops(ps))
    ensures Points(ps) <= |Tops(ps)|
    decreases |ps|
  {
    if ps != [] {
      var init, last := ps[..|ps| - 1], ps[|ps| - 1];
      OnlyTopsScore(init);
      var t := Tops(init);
      if last.kind == Top {
        assert Tops(ps) == t + [last];
        assert (t + [last])[..|t|] == t;
        assert Points(t + [last]) == Points(t) + (if Shift(last).x == 0 then 1 else 0);
      } else {
        assert Tops(ps) == t;
      }
    }
  }

  /** Each pipe scrolls and scores on its own: a frame over a + b is a frame
      over a followed by a frame over b. */
  lemma {:induction false} ScrolledAppend(a: seq<Pipe>, b: seq<Pipe>)
    ensures Scrolled(a + b) == Scrolled(a) + Scrolled(b)
    ensures Points(a + b) == Points(a) + Points(b)
    decreases |b|
  {
    if b == [] {
      assert a + b == a;
    } else {
      var init := b[..|b| - 1];
      ScrolledAppend(a, init);
      assert (a + b)[..|a + b| - 1] == a + init;
      assert (a + b)[|a + b| - 1] == b[|b| - 1];
    }
  }

  /** The pipes and the score that move_pipes reads and writes. */
  datatype Field = Field(pipes: seq<Pipe>, score: int)

  /** move_pipes for one frame in lifecycle state s. */
  function Move(s: GameStates, f: Field): (g: Field)
    // the score never goes down, and only an active frame raises it
    ensures g.score >= f.score
    ensures s != GameActive ==> g.score == f.score
    // PreGame clears the field; GameOver and Reset freeze it
    ensures s == PreGame ==> g.pipes == []
    ensures (s == GameOver || s == Reset) ==> g == f
    ensures s == GameActive ==> |g.pipes| <= |f.pipes| && g.score - f.score <= |f.pipes|
  {
    match s
    case GameActive => Field(Scrolled(f.pipes), f.score + Points(f.pipes))
    case PreGame => Field([], f.score)
    case _ => f
  }

  /** n active frames. */
  function ActiveFrames(f: Field, n: nat): Field
    decreases n
  {
    if n == 0 then f else Move(GameActive, ActiveFrames(f, n - 1))
  }

  /** Over any number of active frames, the pipes of a + b evolve as those of
      a followed by those of b, and their points add up. */
  lemma {:induction false} FramesAppend(a: seq<Pipe>, b: seq<Pipe>, score: int, n: nat)
    ensures var fa, fb := ActiveFrames(Field(a, score), n), ActiveFrames(Field(b, 0), n);
            ActiveFrames(Field(a + b, score), n) == Field(fa.pipes + fb.pipes, fa.score + fb.score)
    decreases n
  {
    if n > 0 {
      FramesAppend(a, b, score, n - 1);
      var fa, fb := ActiveFrames(Field(a, score), n - 1), ActiveFrames(Field(b, 0), n - 1);
      ScrolledAppend(fa.pipes, fb.pipes);
    }
  }

  /** The number of frames a pipe spawned at SPAWN_X stays on the field:
      its x after 272 frames is DESPAWN_X, after 273 it is below. */
  const LIFETIME: nat := 273

  /** A Top/Bottom pair with gap g standing in column x. */
  function Column(g: Gap, x: int): seq<Pipe>
  {
    [Pipe(Top, x, g.top + HALF_HEIGHT, g), Pipe(Bottom, x, g.bottom - HALF_HEIGHT, g)]
  }

  /** One active frame moves a pair that survives it one step left, and
      scores one point exactly when it lands on the centre line. */
  lemma ColumnStep(g: Gap, x: int, score: int)
    requires x - SPEED >= DESPAWN_X
    ensures Move(GameActive, Field(Column(g, x), score)) ==
              Field(Column(g, x - SPEED), score + (if x - SPEED == 0 then 1 else 0))
  {
    var ps := Column(g, x);
    assert ps[..1] == [ps[0]] && [ps[0]][..0] == [];
    assert Scrolled([ps[0]]) == [Shift(ps[0])];
    assert Scrolled(ps) == Column(g, x - SPEED);
    assert Points([ps[0]]) == (if x - SPEED == 0 then 1 else 0);
  }

  /** A freshly spawned pair scrolls together, SPEED = 2 units a frame, and
      its Top half scores once, on frame SPAWN_X / SPEED = 120, when it lands
      on the centre line. */
  lemma {:induction false} PairScrolls(g: Gap, score: int, n: nat)
    requires n < LIFETIME
    ensures ActiveFrames(Field(SpawnPair(g), score), n) ==
              Field(Column(g, 240 - 2 * n), score + (if n >= 120 then 1 else 0))
    decreases n
  {
    if n == 0 {
      assert SpawnPair(g) == Column(g, SPAWN_X);
    } else {
      PairScrolls(g, score, n - 1);
      ColumnStep(g, 240 - 2 * (n - 1), score + (if n - 1 >= 120 then 1 else 0));
    }
  }

  /** One active frame despawns both halves of a pair that it moves past
      DESPAWN_X; neither scores on that frame. */
  lemma ColumnLeaves(g: Gap, x: int, score: int)
    requires x - SPEED < DESPAWN_X
    ensures Move(GameActive, Field(Column(g, x), score)) == Field([], score)
  {
    var ps := Column(g, x);
    assert ps[..1] == [ps[0]] && [ps[0]][..0] == [];
    assert Scrolled([ps[0]]) == [];
    assert Points([ps[0]]) == 0;
  }

  /** A field made of three runs of pipes evolves run by run. */
  lemma FieldSplits(before: seq<Pipe>, mid: seq<Pipe>, after: seq<Pipe>, score: int, n: nat)
    ensures var fb, fm, fa := ActiveFrames(Field(before, score), n), ActiveFrames(Field(mid, 0), n),
                              ActiveFrames(Field(after, 0), n);
            ActiveFrames(Field(before + mid + after, score), n) ==
              Field(fb.pipes + fm.pipes + fa.pipes, fb.score + fm.score + fa.score)
  {
    FramesAppend(before + mid, after, score, n);
    FramesAppend(before, mid, score, n);
  }

  /** A pair alone on the field, counting its points from zero: on the field
      at DESPAWN_X with one point after LIFETIME - 1 frames, gone after LIFETIME. */
  lemma PairLifetime(g: Gap)
    ensures ActiveFrames(Field(SpawnPair(g), 0), LIFETIME - 1) == Field(Column(g, DESPAWN_X), 1)
    ensures ActiveFrames(Field(SpawnPair(g), 0), LIFETIME) == Field([], 1)
  {
    PairScrolls(g, 0, LIFETIME - 1);
    ColumnLeaves(g, DESPAWN_X, 1);
  }

  /** Among any other pipes, older ones before it and newer ones after it, a
      freshly spawned pair scrolls exactly as it does alone: it keeps its place
      in the field and adds its one point, on frame 120, to whatever the other
      pipes score. */
  lemma PairScrollsAmongOthers(before: seq<Pipe>, g: Gap, after: seq<Pipe>, score: int, n: nat)
    requires n < LIFETIME
    ensures var fb, fa := ActiveFrames(Field(before, score), n), ActiveFrames(Field(after, 0), n);
            ActiveFrames(Field(before + SpawnPair(g) + after, score), n) ==
              Field(fb.pipes + Column(g, 240 - 2 * n) + fa.pipes,
                    fb.score + fa.score + (if n >= 120 then 1 else 0))
  {
    FieldSplits(before, SpawnPair(g), after, score, n);
    PairScrolls(g, 0, n);
  }

  /** An emptied run leaves its neighbours joined. */
  lemma DropEmptyRun(a: seq<Pipe>, b: seq<Pipe>)
    ensures a + [] + b == a + b
  {
  }

  /** Among other pipes, the frame that takes a pair past DESPAWN_X removes
      both halves and leaves the others' pipes and points as they would be. */
  lemma PairLeavesAmongOthers(before: seq<Pipe>, g: Gap, after: seq<Pipe>, score: int, n: nat)
    requires n == LIFETIME
    ensures var fb, fa := ActiveFrames(Field(before, score), n), ActiveFrames(Field(after, 0), n);
            ActiveFrames(Field(before + SpawnPair(g) + after, score), n) ==
              Field(fb.pipes + fa.pipes, fb.score + fa.score + 1)
  {
    FieldSplits(before, SpawnPair(g), after, score, n);
    PairLifetime(g);
    DropEmptyRun(ActiveFrames(Field(before, score), n).pipes, ActiveFrames(Field(after, 0), n).pipes);
  }

  /** A pipe pair contributes exactly one point over its life, whatever other
      pipes share the field: after LIFETIME frames it is gone and the score is
      what the other pipes alone would give, plus one; one frame earlier it is
      still on the field, in its place. */
  lemma PairScoresExactlyOnce(before: seq<Pipe>, r: real, after: seq<Pipe>, score: int)
    requires InDrawRange(r)
    ensures var g := GapFor(r);
            var f := Field(before + SpawnPair(g) + after, score);
            var fb, fa := ActiveFrames(Field(before, score), LIFETIME), ActiveFrames(Field(after, 0), LIFETIME);
            var fb', fa' := ActiveFrames(Field(before, score), LIFETIME - 1), ActiveFrames(Field(after, 0), LIFETIME - 1);
            ActiveFrames(f, LIFETIME) == Field(fb.pipes + fa.pipes, fb.score + fa.score + 1) &&
            ActiveFrames(f, LIFETIME - 1).pipes == fb'.pipes + Column(g, DESPAWN_X) + fa'.pipes
  {
    var g := GapFor(r);
    PairLeavesAmongOthers(before, g, after, score, LIFETIME);
    PairScrollsAmongOthers(before, g, after, score, LIFETIME - 1);
  }

  /** The pipe entities on the field. */
  class PipeField {
    var pipes: seq<Pipe>

    /** No pipes at start-up. */
    constructor ()
      ensures pipes == []
    {
      pipes := [];
    }

    /** spawn_pipes, given whether the spawn timer just finished and the draw r. */
    method SpawnPipes(res: Resources, fired: bool, r: real)
      requires InDrawRange(r)
      modifies this
      ensures pipes == old(pipes) + (if fired && res.state == GameActive then SpawnPair(GapFor(r)) else [])
    {
      if fired {
        if res.state == GameActive {
          var gap := GapFor(r);
          pipes := pipes + [Pipe(Top, SPAWN_X, gap.top + 640.0 / 2.0, gap)];
          pipes := pipes + [Pipe(Bottom, SPAWN_X, gap.bottom - 640.0 / 2.0, gap)];
        }
      }
    }

    /** move_pipes: scroll, despawn and score while active, clear in PreGame. */
    method MovePipes(res: Resources)
      modifies this, res`score
      ensures Field(pipes, res.score) == Move(res.state, old(Field(pipes, res.score)))
    {
      if res.state == GameActive {
        var kept: seq<Pipe> := [];
        var k := 0;
        while k < |pipes|
          invariant 0 <= k <= |pipes|
          invariant pipes == old(pipes)
          invariant kept == Scrolled(pipes[..k])
          invariant res.score == old(res.score) + Points(pipes[..k])
        {
          assert pipes[..k + 1][..k] == pipes[..k];
          var p := pipes[k];
          p := p.(x := p.x - 2);
          if !(p.x < -240 - 64) {
            kept := kept + [p];
          }
          if p.x == 0 {
            match p.kind {
              case Top => res.score := res.score + 1;
              case Bottom =>
            }
          }
          k := k + 1;
        }
        assert pipes[..k] == pipes;
        pipes := kept;
      } else if res.state == PreGame {
        while pipes != []
          invariant res.score == old(res.score)
          decreases |pipes|
        {
          pipes := pipes[1..];
        }
      }
    }
  }
}

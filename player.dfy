/*
 * Player controller (src/player.rs): gravity and the jump-to-fall state
 * machine, jump activation, collision with colliders, and respawn.
 *
 * The two time accumulators advance in whole gravity-timer periods of
 * 0.01 s, so they are kept as tick counts; vertical positions are reals.
 */
module PlayerController {
  import opened Lifecycle

  /** GRAVITY (src/main.rs:12). */
  const GRAVITY: real := 9.8
  /** The gravity timer's period in seconds (src/player.rs:30). */
  const TICK: real := 0.01
  /** seconds_jumping grows by 0.01 in f32 while it is below 0.05 in f32.
      The f32 sums after 1..6 increments are 0.0099999998, 0.0199999996,
      0.0299999993, 0.0399999991, 0.0499999970 and 0.0599999949, and 0.05 is
      0.0500000007 in f32, so the accumulator is below the limit exactly while
      fewer than six ticks have been added. */
  const JUMP_LIMIT_TICKS: nat := 6

  /** The Player component and the player's translation. */
  datatype Player = Player(x: real, y: real,
                           fallTicks: nat, isFalling: bool,
                           isJumping: bool, jumpTicks: nat)

  /** The controller never falls and jumps at once. */
  predicate Exclusive(p: Player) { !(p.isFalling && p.isJumping) }

  /** A freshly spawned player: Player::default at the origin. */
  function Spawned(): (p: Player)
    ensures Exclusive(p) && !p.isFalling && !p.isJumping
    ensures p.x == 0.0 && p.y == 0.0 && p.fallTicks == 0 && p.jumpTicks == 0
  {
    Player(0.0, 0.0, 0, false, false, 0)
  }

  /** How far one falling tick moves the player down: GRAVITY times the
      seconds spent falling so far. */
  function FallDrop(fallTicks: nat): (d: real)
    ensures d >= 0.0
    ensures fallTicks == 0 <==> d == 0.0
  {
    GRAVITY * ((fallTicks as real) * TICK)
  }

  /** player_gravity for one frame, given whether the gravity timer fired. */
  function Gravity(p: Player, s: GameStates, fired: bool): (q: Player)
    // nothing moves unless the timer fired while the game is active
    ensures !(fired && s == GameActive) ==> q == p
    // gravity never moves the player sideways and never ends in both flags
    ensures q.x == p.x
    ensures Exclusive(p) ==> Exclusive(q)
    // a falling player goes down by the current drop and keeps falling
    ensures fired && s == GameActive && p.isFalling ==>
              q.isFalling && q.y == p.y - FallDrop(p.fallTicks) && q.y <= p.y &&
              q.fallTicks == p.fallTicks + 1 && FallDrop(q.fallTicks) >= FallDrop(p.fallTicks)
    // a rising player goes up by GRAVITY every tick, until the limit turns it into a fall
    ensures fired && s == GameActive && !p.isFalling && p.isJumping ==>
              q.y == p.y + GRAVITY && q.fallTicks == p.fallTicks &&
              (if p.jumpTicks < JUMP_LIMIT_TICKS
               then q.isJumping && !q.isFalling && q.jumpTicks == p.jumpTicks + 1
               else !q.isJumping && q.isFalling && q.jumpTicks == 0)
    // an idle player stays where it is
    ensures !p.isFalling && !p.isJumping ==> q == p
  {
    if fired && s == GameActive then
      if p.isFalling then
        p.(y := p.y - FallDrop(p.fallTicks), fallTicks := p.fallTicks + 1)
      else if p.isJumping then
        if p.jumpTicks < JUMP_LIMIT_TICKS then
          p.(y := p.y + GRAVITY, jumpTicks := p.jumpTicks + 1)
        else
          p.(y := p.y + GRAVITY, jumpTicks := 0, isJumping := false, isFalling := true)
      else if s == PreGame then
        p.(x := 0.0, y := 0.0)
      else
        p
    else
      p
  }

  /** player_jump for one frame. */
  function Jump(p: Player, s: GameStates, ready: bool, i: Input): (q: Player)
    ensures s != GameOver && ready && i.Pressed() ==>
              q.isJumping && !q.isFalling && q.jumpTicks == 0 && q.fallTicks == 0 &&
              q.x == p.x && q.y == p.y
    ensures !(s != GameOver && ready && i.Pressed()) ==> q == p
    ensures Exclusive(p) ==> Exclusive(q)
  {
    if s != GameOver && ready && i.Pressed() then
      p.(isJumping := true, jumpTicks := 0, fallTicks := 0, isFalling := false)
    else
      p
  }

  /** player_collide_with_objects over the colliders in query order; hits[k]
      says whether the player's box overlaps the k-th collider's box. */
  function Collide(p: Player, s: GameStates, hits: seq<bool>): (r: (Player, GameStates))
    // some overlap while active ends the game and stops the fall; otherwise nothing changes
    ensures s == GameActive && true in hits ==>
              r == (p.(isFalling := false, fallTicks := 0), GameOver)
    ensures !(s == GameActive && true in hits) ==> r == (p, s)
    decreases |hits|
  {
    if hits == [] then (p, s)
    else
      var (q, t) := Collide(p, s, hits[..|hits| - 1]);
      if hits[|hits| - 1] && t == GameActive then
        (q.(isFalling := false, fallTicks := 0), GameOver)
      else
        (q, t)
  }

  /** player_respawn: a Reset is consumed by a fresh player and PreGame. */
  function Respawn(p: Player, s: GameStates): (r: (Player, GameStates))
    ensures s == Reset ==> r.0 == Spawned() && r.1 == PreGame
    ensures s != Reset ==> r == (p, s)
    ensures r.1 != Reset
  {
    if s == Reset then (Spawned(), PreGame) else (p, s)
  }

  /** Every system keeps the flags exclusive. */
  lemma FlagsStayExclusive(p: Player, s: GameStates, fired: bool, ready: bool, i: Input, hits: seq<bool>)
    requires Exclusive(p)
    ensures Exclusive(Gravity(p, s, fired))
    ensures Exclusive(Jump(p, s, ready, i))
    ensures Exclusive(Collide(p, s, hits).0)
    ensures Exclusive(Respawn(p, s).0)
  {
  }

  /** n gravity ticks of an active game. */
  function ActiveTicks(p: Player, n: nat): Player
    decreases n
  {
    if n == 0 then p else ActiveTicks(Gravity(p, GameActive, true), n - 1)
  }

  /** The rising part of a jump: each tick below the limit lifts the player by GRAVITY. */
  lemma {:induction false} Rising(p: Player, n: nat)
    requires p.isJumping && !p.isFalling
    requires p.jumpTicks + n <= JUMP_LIMIT_TICKS
    ensures ActiveTicks(p, n) == p.(y := p.y + (n as real) * GRAVITY, jumpTicks := p.jumpTicks + n)
    decreases n
  {
    if n > 0 {
      var q := Gravity(p, GameActive, true);
      assert q == p.(y := p.y + GRAVITY, jumpTicks := p.jumpTicks + 1);
      Rising(q, n - 1);
    }
  }

  /** A jump rises for JUMP_LIMIT_TICKS + 1 ticks, still jumping on each of
      the first JUMP_LIMIT_TICKS, and on the last one turns into a fall with
      both accumulators at zero. */
  lemma JumpArc(p: Player, s: GameStates, ready: bool, i: Input)
    requires s != GameOver && ready && i.Pressed()
    ensures var j := Jump(p, s, ready, i);
            ActiveTicks(j, JUMP_LIMIT_TICKS + 1) ==
              j.(y := p.y + ((JUMP_LIMIT_TICKS + 1) as real) * GRAVITY,
                 isJumping := false, isFalling := true, jumpTicks := 0)
    ensures forall n :: 0 <= n <= JUMP_LIMIT_TICKS ==>
              ActiveTicks(Jump(p, s, ready, i), n).isJumping &&
              !ActiveTicks(Jump(p, s, ready, i), n).isFalling
  {
  }

  /** Running m + k ticks is running m ticks, then k more. */
  lemma {:induction false} ActiveTicksSplit(p: Player, m: nat, k: nat)
    ensures ActiveTicks(p, m + k) == ActiveTicks(ActiveTicks(p, m), k)
    decreases m
  {
    if m > 0 {
      ActiveTicksSplit(Gravity(p, GameActive, true), m - 1, k);
    }
  }

  /** The total fall over n ticks starting with f ticks already fallen:
      the sum of the drops f, f + 1, ..., f + n - 1. */
  function FallDistance(f: nat, n: nat): (d: real)
    decreases n
  {
    if n == 0 then 0.0 else FallDistance(f, n - 1) + FallDrop(f + n - 1)
  }

  /** A falling player keeps falling, and after n ticks has dropped by the
      sum of the growing per-tick drops, so it never goes up. */
  lemma {:induction false} Falling(p: Player, n: nat)
    requires p.isFalling
    ensures ActiveTicks(p, n).isFalling
    ensures ActiveTicks(p, n).fallTicks == p.fallTicks + n
    ensures ActiveTicks(p, n).y == p.y - FallDistance(p.fallTicks, n)
    ensures ActiveTicks(p, n).y <= p.y
    decreases n
  {
    if n > 0 {
      ActiveTicksSplit(p, n - 1, 1);
      Falling(p, n - 1);
    }
  }

  /** The player entity, whose fields the systems update in place. */
  class PlayerEntity {
    var x: real
    var y: real
    var fallTicks: nat
    var isFalling: bool
    var isJumping: bool
    var jumpTicks: nat

    /** The entity's current value. */
    function Value(): Player
      reads this
    {
      Player(x, y, fallTicks, isFalling, isJumping, jumpTicks)
    }

    /** spawn_player: a default player at the origin. */
    constructor ()
      ensures Value() == Spawned()
    {
      x, y := 0.0, 0.0;
      fallTicks, isFalling, isJumping, jumpTicks := 0, false, false, 0;
    }

    /** player_gravity, given whether the gravity timer just finished. */
    method ApplyGravity(res: Resources, fired: bool)
      modifies this
      ensures Value() == Gravity(old(Value()), res.state, fired)
    {
      if fired {
        if res.state == GameActive {
          if isFalling {
            y := y + -GRAVITY * ((fallTicks as real) * TICK);
            fallTicks := fallTicks + 1;
          } else if isJumping {
            y := y + GRAVITY;
            if jumpTicks < JUMP_LIMIT_TICKS {
              jumpTicks := jumpTicks + 1;
            } else {
              jumpTicks := 0;
              isJumping := false;
              isFalling := true;
            }
          } else if res.state == PreGame {
            // The pin to the origin sits under the GameActive test, so this
            // branch is never taken (Gravity keeps it and proves x unchanged).
            assert false;
          }
        }
      }
    }

    /** player_jump. */
    method StartJump(res: Resources, i: Input)
      modifies this
      ensures Value() == Jump(old(Value()), res.state, res.ready, i)
    {
      if res.state != GameOver && res.ready && i.Pressed() {
        isJumping := true;
        jumpTicks := 0;
        fallTicks := 0;
        isFalling := false;
      }
    }

    /** player_collide_with_objects; hits holds the overlap test against each collider. */
    method CollideWithObjects(res: Resources, hits: seq<bool>)
      modifies this, res`state
      ensures (Value(), res.state) == Collide(old(Value()), old(res.state), hits)
    {
      var k := 0;
      while k < |hits|
        invariant 0 <= k <= |hits|
        invariant (Value(), res.state) == Collide(old(Value()), old(res.state), hits[..k])
      {
        assert hits[..k + 1][..k] == hits[..k];
        if hits[k] && res.state == GameActive {
          isFalling := false;
          fallTicks := 0;
          res.state := GameOver;
        }
        k := k + 1;
      }
      assert hits[..k] == hits;
    }

    /** player_respawn: replace the player and return to PreGame. */
    method RespawnIfReset(res: Resources)
      modifies this, res`state
      ensures (Value(), res.state) == Respawn(old(Value()), old(res.state))
    {
      if res.state == Reset {
        x, y := 0.0, 0.0;
        fallTicks, isFalling, isJumping, jumpTicks := 0, false, false, 0;
        res.state := PreGame;
      }
    }
  }
}

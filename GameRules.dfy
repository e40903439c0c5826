/** The gameplay rules of the Cat Catcher main scene, as values.

    One State holds everything the handlers of script.js read or write: the
    module-level `score` and `gameOver`, whether the arcade physics world is
    paused, the live cats of the `cats` group, and the player's horizontal
    velocity and animation. Each handler of the source is one function from
    the old state to the new one; the engine's random draws are parameters
    whose ranges the `requires` clauses fix.
 */
module GameRules {

  /** Canvas width of the game (the `width` of the game configuration). */
  const Width: int := 800
  /** Horizontal margin kept free on either side when a cat is placed. */
  const SpawnMargin: int := 50
  /** Slowest and fastest initial fall speed of a new cat. */
  const MinFallSpeed: int := 100
  const MaxFallSpeed: int := 200
  /** Each tick draws an integer in [0, DrawMax]; a cat spawns when the draw is below SpawnBelow. */
  const DrawMax: int := 100
  const SpawnBelow: int := 2
  /** Speed of the player when an arrow key is held. */
  const PlayerSpeed: int := 300
  /** Score at which the session is won. */
  const WinScore: nat := 10

  /** The two scenes of the game: the title menu and the playing field. */
  datatype Scene = BootScene | MainScene

  /** The animation last requested for the player; NotPlayed before the first tick. */
  datatype Anim = NotPlayed | Left | Turn | Right

  /** A falling cat: the position and vertical velocity it was created with. */
  datatype Cat = Cat(x: int, y: int, vy: int)

  /** A body reported by the world-bounds event: the player, or the cat at an index of `cats`. */
  datatype Body = PlayerBody | CatBody(index: nat)

  datatype State = State(
    scene: Scene,
    score: nat,
    gameOver: bool,
    paused: bool,
    cats: seq<Cat>,
    vx: int,
    anim: Anim)

  predicate SpawnX(x: int) { SpawnMargin <= x <= Width - SpawnMargin }
  predicate FallSpeed(vy: int) { MinFallSpeed <= vy <= MaxFallSpeed }
  predicate TickDraw(draw: int) { 0 <= draw <= DrawMax }

  /** A cat as the spawn policy creates it. */
  predicate Spawned(c: Cat) { SpawnX(c.x) && c.y == 0 && FallSpeed(c.vy) }

  /** The animation that goes with a horizontal velocity. */
  function AnimFor(vx: int): Anim {
    if vx < 0 then Left else if vx > 0 then Right else Turn
  }

  /** True when a step from `s` to `t` is the win transition. */
  predicate Won(s: State, t: State) { !s.gameOver && t.gameOver }

  /** The invariant of every reachable state. In the main scene the score
      never passes the threshold, the session is over exactly at the
      threshold, and the physics is paused exactly when it is over. */
  predicate Inv(s: State) {
    (s.scene == BootScene ==> s.score == 0 && !s.gameOver && !s.paused && s.cats == [])
    && (s.scene == MainScene ==>
          s.score <= WinScore && (s.gameOver <==> s.score == WinScore) && s.paused == s.gameOver)
    && s.vx in {-PlayerSpeed, 0, PlayerSpeed}
    && (s.anim == NotPlayed || s.anim == AnimFor(s.vx))
    && forall j :: 0 <= j < |s.cats| ==> Spawned(s.cats[j])
  }

  /** The state at page load: the menu is shown, the globals hold their initial values. */
  function Initial(): (s: State)
    ensures Inv(s) && s.scene == BootScene && s.score == 0 && !s.gameOver
  {
    State(BootScene, 0, false, false, [], 0, NotPlayed)
  }

  /** The list `cs` with the element at index `i` destroyed. */
  function RemoveAt(cs: seq<Cat>, i: nat): (r: seq<Cat>)
    requires i < |cs|
    ensures |r| == |cs| - 1
    ensures forall j :: 0 <= j < i ==> r[j] == cs[j]
    ensures forall j :: i <= j < |r| ==> r[j] == cs[j + 1]
    ensures multiset(r) + multiset{cs[i]} == multiset(cs)
  {
    assert cs == cs[..i] + [cs[i]] + cs[i + 1..];
    cs[..i] + cs[i + 1..]
  }

  /** The velocity rule of the per-tick step: left wins over right. */
  function Steer(left: bool, right: bool): (r: (int, Anim))
    ensures r.0 in {-PlayerSpeed, 0, PlayerSpeed}
    ensures r.1 == AnimFor(r.0)
    ensures r.0 < 0 <==> left
    ensures r.0 > 0 <==> !left && right
  {
    if left then (-PlayerSpeed, Left)
    else if right then (PlayerSpeed, Right)
    else (0, Turn)
  }

  /** spawnCat: one new cat at (x, 0) falling at vy, appended to the group. */
  function SpawnCat(s: State, x: int, vy: int): (r: State)
    requires SpawnX(x) && FallSpeed(vy)
    ensures |r.cats| == |s.cats| + 1 && r.cats[..|s.cats|] == s.cats
    ensures Spawned(r.cats[|s.cats|])
    ensures r.cats[|s.cats|].x == x && r.cats[|s.cats|].vy == vy
    ensures r.(cats := s.cats) == s
  {
    s.(cats := s.cats + [Cat(x, 0, vy)])
  }

  /** update: nothing once the session is won; otherwise set the player's
      velocity from the arrow keys and spawn a cat when the draw is 0 or 1. */
  function Update(s: State, left: bool, right: bool, draw: int, x: int, vy: int): (r: State)
    requires TickDraw(draw) && SpawnX(x) && FallSpeed(vy)
    ensures s.gameOver ==> r == s
    ensures !s.gameOver ==> r.vx == Steer(left, right).0 && r.anim == AnimFor(r.vx)
    ensures |r.cats| == |s.cats| + 1 <==> !s.gameOver && (draw == 0 || draw == 1)
    ensures |r.cats| != |s.cats| + 1 ==> r.cats == s.cats
    ensures |r.cats| == |s.cats| + 1 ==>
              r.cats[..|s.cats|] == s.cats && r.cats[|s.cats|] == Cat(x, 0, vy)
    ensures r.scene == s.scene && r.score == s.score && r.gameOver == s.gameOver && r.paused == s.paused
  {
    if s.gameOver then s
    else
      var (v, a) := Steer(left, right);
      var t := s.(vx := v, anim := a);
      if draw < SpawnBelow then SpawnCat(t, x, vy) else t
  }

  /** catchCat: destroy the caught cat, add one to the score, and make the
      win transition (game over, physics paused) the first time the score
      reaches the threshold. There is no check of `gameOver` before the
      increment. */
  function CatchCat(s: State, i: nat): (r: State)
    requires i < |s.cats|
    ensures r.score == s.score + 1
    ensures |r.cats| == |s.cats| - 1
    ensures forall j :: 0 <= j < i ==> r.cats[j] == s.cats[j]
    ensures forall j :: i <= j < |r.cats| ==> r.cats[j] == s.cats[j + 1]
    ensures multiset(r.cats) + multiset{s.cats[i]} == multiset(s.cats)
    ensures Won(s, r) <==> !s.gameOver && s.score + 1 >= WinScore
    ensures r.gameOver == (s.gameOver || s.score + 1 >= WinScore)
    ensures r.paused == (s.paused || Won(s, r))
    ensures r.scene == s.scene && r.vx == s.vx && r.anim == s.anim
  {
    var t := s.(cats := RemoveAt(s.cats, i), score := s.score + 1);
    if t.score >= WinScore && !t.gameOver then t.(gameOver := true, paused := true) else t
  }

  /** The world-bounds handler: destroy the body when it is a cat and it hit
      the bottom edge; every other body and edge changes nothing. */
  function OnWorldBounds(s: State, body: Body, up: bool, down: bool, left: bool, right: bool): (r: State)
    requires body.CatBody? ==> body.index < |s.cats|
    ensures !(body.CatBody? && down) ==> r == s
    ensures body.CatBody? && down ==> r.cats == RemoveAt(s.cats, body.index)
    ensures body.CatBody? && down ==>
              |r.cats| == |s.cats| - 1 && multiset(r.cats) + multiset{s.cats[body.index]} == multiset(s.cats)
    ensures r.(cats := s.cats) == s
  {
    if body.CatBody? && down then s.(cats := RemoveAt(s.cats, body.index)) else s
  }

  /** create: a fresh playing field holding the one cat it spawns, with the
      physics running and the player at rest. The session globals are not touched. */
  function Create(s: State, x: int, vy: int): (r: State)
    requires SpawnX(x) && FallSpeed(vy)
    ensures r.scene == MainScene && !r.paused && r.vx == 0 && r.anim == NotPlayed
    ensures r.cats == [Cat(x, 0, vy)] && Spawned(r.cats[0])
    ensures r.score == s.score && r.gameOver == s.gameOver
  {
    State(MainScene, s.score, s.gameOver, false, [Cat(x, 0, vy)], 0, NotPlayed)
  }

  /** The Restart button: reset the session, then restart the main scene. */
  function Restart(s: State, x: int, vy: int): (r: State)
    requires SpawnX(x) && FallSpeed(vy)
    ensures r.score == 0 && !r.gameOver && !r.paused
    ensures r.scene == MainScene && r.cats == [Cat(x, 0, vy)]
    ensures Inv(r)
  {
    Create(s.(score := 0, gameOver := false), x, vy)
  }

  /** The Main Menu button: reset the session and go back to the menu,
      which discards the bodies of the main scene. */
  function MainMenu(s: State): (r: State)
    ensures r.score == 0 && !r.gameOver && !r.paused
    ensures r.scene == BootScene && r.cats == []
    ensures r == Initial()
  {
    Initial()
  }
}

/** The main scene's handlers as the source writes them: in-place updates of
    the session globals, the `cats` group and the player.

    Each method is proved against the function of GameRules that gives its
    new state, so every property proved there about the functions and in
    GameEvents about traces holds of the object. The handlers that the engine
    calls back (update, the overlap and world-bounds callbacks, the buttons)
    require what the engine guarantees when it calls them and keep the
    invariant.
 */
module CatCatcher {
  import opened GameRules
  import GameEvents

  class Game {
    var scene: Scene
    var score: nat
    var gameOver: bool
    var paused: bool
    var cats: seq<Cat>
    var vx: int
    var anim: Anim

    /** The abstract value of the object. */
    function Snapshot(): State
      reads this
    {
      State(scene, score, gameOver, paused, cats, vx, anim)
    }

    predicate Valid()
      reads this
    {
      Inv(Snapshot())
    }

    /** Page load: the menu scene is showing, score 0, not over. */
    constructor ()
      ensures Snapshot() == Initial() && Valid()
    {
      scene := BootScene;
      score := 0;
      gameOver := false;
      paused := false;
      cats := [];
      vx := 0;
      anim := NotPlayed;
    }

    /** spawnCat: x and vy are the engine's draws. It runs only from create
        and update, in the main scene. */
    method SpawnCat(x: int, vy: int)
      requires Valid() && scene == MainScene
      requires SpawnX(x) && FallSpeed(vy)
      modifies this
      ensures Snapshot() == GameRules.SpawnCat(old(Snapshot()), x, vy)
      ensures Valid()
      ensures cats == old(cats) + [Cat(x, 0, vy)]
    {
      cats := cats + [Cat(x, 0, vy)];
    }

    /** create: a fresh group holding one spawned cat, the player at rest,
        the physics running. Runs when the main scene starts or restarts,
        and each time the session has just been reset to score 0, not over. */
    method Create(x: int, vy: int)
      requires score == 0 && !gameOver
      requires SpawnX(x) && FallSpeed(vy)
      modifies this
      ensures Snapshot() == GameRules.Create(old(Snapshot()), x, vy)
      ensures Valid()
    {
      scene := MainScene;
      paused := false;
      vx := 0;
      anim := NotPlayed;
      cats := [];
      SpawnCat(x, vy);
    }

    /** update, once per tick. */
    method Update(left: bool, right: bool, draw: int, x: int, vy: int)
      requires Valid() && scene == MainScene
      requires TickDraw(draw) && SpawnX(x) && FallSpeed(vy)
      modifies this
      ensures Snapshot() == GameRules.Update(old(Snapshot()), left, right, draw, x, vy)
      ensures Valid()
      ensures old(gameOver) ==> unchanged(this)
    {
      ghost var was := Snapshot();
      GameEvents.StepPreservesInv(was, GameEvents.Tick(left, right, draw, x, vy));
      if gameOver {
        return;
      }
      if left {
        vx := -PlayerSpeed;
        anim := Left;
      } else if right {
        vx := PlayerSpeed;
        anim := Right;
      } else {
        vx := 0;
        anim := Turn;
      }
      if draw < SpawnBelow {
        SpawnCat(x, vy);
      }
    }

    /** catchCat, the overlap callback for the cat at index i. The engine
        calls it only while the physics runs. */
    method CatchCat(i: nat)
      requires Valid() && scene == MainScene && !paused && i < |cats|
      modifies this
      ensures Snapshot() == GameRules.CatchCat(old(Snapshot()), i)
      ensures Valid()
      ensures score == old(score) + 1 && cats == RemoveAt(old(cats), i)
      ensures gameOver == (score == WinScore) && paused == gameOver
    {
      ghost var was := Snapshot();
      GameEvents.StepPreservesInv(was, GameEvents.Overlap(i));
      cats := RemoveAt(cats, i);
      score := score + 1;
      if score >= WinScore && !gameOver {
        gameOver := true;
        paused := true;
      }
    }

    /** The world-bounds callback for a body touching the edges given by the four flags. */
    method OnWorldBounds(body: Body, up: bool, down: bool, toLeft: bool, toRight: bool)
      requires Valid() && scene == MainScene && !paused
      requires body.CatBody? ==> body.index < |cats|
      modifies this
      ensures Snapshot() == GameRules.OnWorldBounds(old(Snapshot()), body, up, down, toLeft, toRight)
      ensures Valid()
      ensures !(body.CatBody? && down) ==> unchanged(this)
    {
      ghost var was := Snapshot();
      GameEvents.StepPreservesInv(was, GameEvents.BoundsHit(body, up, down, toLeft, toRight));
      if body.CatBody? && down {
        cats := RemoveAt(cats, body.index);
      }
    }

    /** The Restart button of the win screen; x and vy are the draws of the cat create spawns. */
    method Restart(x: int, vy: int)
      requires Valid() && scene == MainScene && gameOver
      requires SpawnX(x) && FallSpeed(vy)
      modifies this
      ensures Snapshot() == GameRules.Restart(old(Snapshot()), x, vy)
      ensures Valid() && score == 0 && !gameOver && !paused
    {
      score := 0;
      gameOver := false;
      Create(x, vy);
    }

    /** The Main Menu button of the win screen. */
    method MainMenu()
      requires Valid() && scene == MainScene && gameOver
      modifies this
      ensures Snapshot() == GameRules.MainMenu(old(Snapshot()))
      ensures Valid() && score == 0 && !gameOver && scene == BootScene
    {
      score := 0;
      gameOver := false;
      scene := BootScene;
      paused := false;
      cats := [];
      vx := 0;
      anim := NotPlayed;
    }

    /** Entering the main scene from the menu; x and vy are the draws of the cat create spawns. */
    method Play(x: int, vy: int)
      requires Valid() && scene == BootScene
      requires SpawnX(x) && FallSpeed(vy)
      modifies this
      ensures Snapshot() == GameRules.Create(old(Snapshot()), x, vy)
      ensures Valid() && scene == MainScene && score == 0 && !gameOver
    {
      Create(x, vy);
    }
  }

  /** A client of the object: the tenth catch wins and pauses the session,
      ticks then change nothing, and Restart starts a new one. */
  method WinThenRestart(g: Game, left: bool, right: bool, x: int, vy: int)
    requires g.Valid() && g.scene == MainScene && g.score == WinScore - 1 && |g.cats| > 0
    requires SpawnX(x) && FallSpeed(vy)
    modifies g
    ensures g.Valid() && g.score == 0 && !g.gameOver && g.cats == [Cat(x, 0, vy)]
  {
    assert !g.gameOver && !g.paused;
    g.CatchCat(0);
    assert g.score == WinScore && g.gameOver && g.paused;
    var frozen := g.Snapshot();
    g.Update(left, right, 0, x, vy);
    assert g.Snapshot() == frozen;
    g.Restart(x, vy);
  }
}

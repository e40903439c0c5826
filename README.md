# Cat Catcher: the gameplay rules of the main scene

Cat Catcher is a browser arcade game. The player moves a sprite left and
right with the arrow keys and catches cats that fall from the top of an
800-pixel-wide field. Each catch adds one to the score. At 10 the session is
won: the physics is paused and two buttons appear. Restart starts a new
session. Main Menu goes back to the title scene. Cats that fall past the
bottom edge are destroyed. The game engine does everything else (physics,
rendering, input, collision, animation, scenes).

This project models the rules the game itself adds on top of the engine, in
three modules:

- `GameRules` (GameRules.dfy) holds the session as a value. The state holds
  the scene, `score`, `gameOver`, the `paused` flag of the physics world, the
  live cats as a sequence of `(x, y, vy)` records, and the player's velocity
  and animation tag. Each handler of the source is one function of the old
  state. `Inv` is the invariant of every reachable state.
- `GameEvents` (GameEvents.dfy) makes the engine's callbacks into events. They
  are the tick, an overlap with the cat at an index, a world-bounds hit, and
  the Restart, Main Menu and Play buttons. The module defines when the engine
  can deliver each one, and proves trace lemmas: the invariant is kept, the
  score counts the catches, the win happens at most once, and a won session
  freezes.
- `CatCatcher` (CatCatcher.dfy) is the imperative form. Class `Game` has the
  globals and the group as fields, and one method per handler. Each method
  has a `modifies` clause and is proved to compute exactly the function of
  `GameRules` for that handler.

The engine's random draws (`Phaser.Math.Between`, which includes both ends)
are parameters. Their ranges are fixed by `requires`: the tick draw is in
[0, 100], a cat's x is in [50, 750], and its fall speed is in [100, 200].
Keyboard state is the `left`/`right` pair. `this.physics.pause()` sets the
`paused` flag. Overlap and world-bounds callbacks come from the physics step,
and the model delivers them only while the physics is not paused (see Left
out for the step in which the pause happens). `update` is
called on every tick, paused or not. A scene restart or scene start is
modelled by its effect on the state: `create` runs again, and leaving the
main scene discards its bodies.

`catchCat` does not check `gameOver` before `score += 1` (script.js:183), so
it is the pause (script.js:189) that stops further catches. The pure
`CatchCat` is unguarded, like the source. The at-most-once win
(`WinAtMostOnce`) and the score count (`ScoreCountsCatches`) are proved
without relying on the pause. The freeze (`WonSessionFreezes`) and the bound
`score <= 10` (`Inv`) rely on catches being gated by `!paused`.

## Model

| member | source | states |
|---|---|---|
| GameRules.Initial | script.js:85-87 | At page load, score is 0 and the game is not over. The menu scene is showing and the invariant holds. |
| GameRules.RemoveAt | script.js:182 | Destroying the cat at index i leaves one fewer cat. The cats before i and after i are unchanged and in order. The multiset of cats loses exactly that one cat. |
| GameRules.Steer | script.js:156-165 | The velocity is always -300, 0 or 300. It is negative iff left is pressed, and positive iff right is pressed without left, so left takes precedence. The animation tag is the one for that velocity (left/right/turn). |
| GameRules.SpawnCat | script.js:172-179 | Adds exactly one cat at the end of the group, within [50, width-50] × {0} and falling at a speed in [100, 200]. The existing cats and everything else stay the same. |
| GameRules.Update | script.js:151-170 | When the game is over the state is unchanged. Otherwise the velocity follows the velocity rule. A cat is spawned iff the game is not over and the draw is 0 or 1, and only then do the cats change. Score, gameOver, pause and scene are never touched. |
| GameRules.CatchCat | script.js:181-189 | The score goes up by exactly 1. Exactly the caught cat is removed and the others keep their order. The win transition happens iff the game was not over and the new score is at least 10. It sets gameOver and paused. An already-won game stays won. |
| GameRules.OnWorldBounds | script.js:144-148 | Only a body that is a cat and hit the bottom edge is removed. Every other body and every other edge leaves the state unchanged. |
| GameRules.Create | script.js:106-113 | Entering the main scene gives a fresh group holding one spawned cat, with the player at rest and the physics running. The score and gameOver are carried over. |
| GameRules.Restart | script.js:205-209 | Restart resets the session to score 0 and not over, unpaused, with a new group of one cat. The result satisfies the invariant. |
| GameRules.MainMenu | script.js:218-222 | Main Menu resets the session to score 0 and not over, with no cats, back in the menu scene. This is exactly the page-load state. |
| GameEvents.StepPreservesInv | script.js:151-189 | Every event the engine can deliver keeps the invariant. Score is at most 10. gameOver holds exactly when the score is 10, and paused exactly when gameOver holds. The velocity is in {-300, 0, 300} and every cat is within its spawn bounds. |
| GameEvents.RunPreservesInv | script.js:144-224 | Every state reached by a deliverable sequence of events satisfies the invariant. |
| GameEvents.ReachableInv | script.js:85-87 | Every state reachable from page load satisfies the invariant. |
| GameEvents.ScoreCountsCatches | script.js:183 | Between resets the score equals its starting value plus the number of catches, so it never decreases. This holds even without the pause. |
| GameEvents.WinAtMostOnce | script.js:187-189 | Between resets the win transition fires at most once. It never fires if the session was already won, and it fires exactly once iff the session goes from not over to over. This holds even for catches delivered after the pause. |
| GameEvents.WonSessionFreezes | script.js:152-154 | Once won, every sequence of deliverable events without a button press leaves the whole state unchanged. That covers score, cats, velocity and animation. |
| GameEvents.StaysInMainScene | script.js:218-222 | Only the Main Menu button leaves the main scene, so between resets the game stays there. |
| GameEvents.SessionScore | script.js:183-189 | In a session that starts at score 0, the score is the number of catches and never exceeds 10. The game is over iff there were 10 catches, and then it is paused and has won exactly once. With fewer than 10 catches it is not over. |
| CatCatcher.Game.constructor | script.js:85-87 | The object starts in the page-load state. |
| CatCatcher.Game.SpawnCat | script.js:172-179 | In the main scene, appends exactly one cat (x, 0, vy), as GameRules.SpawnCat, and keeps the invariant. |
| CatCatcher.Game.Create | script.js:106-113 | Run on a session at score 0 and not over, updates the fields to GameRules.Create of the old state and establishes the invariant. |
| CatCatcher.Game.Update | script.js:151-170 | Updates the fields to GameRules.Update of the old state and keeps the invariant. When the game is over, no field changes. |
| CatCatcher.Game.CatchCat | script.js:181-189 | Updates the fields to GameRules.CatchCat of the old state. The score goes up by 1 and exactly the caught cat is removed. gameOver and paused become true exactly at score 10. |
| CatCatcher.Game.OnWorldBounds | script.js:144-148 | Updates the fields to GameRules.OnWorldBounds of the old state. Unless a cat hit the bottom edge, nothing changes. |
| CatCatcher.Game.Restart | script.js:205-209 | Updates the fields to GameRules.Restart of the old state: score 0, not over, unpaused, invariant kept. |
| CatCatcher.Game.MainMenu | script.js:218-222 | Updates the fields to GameRules.MainMenu of the old state: score 0, not over, menu scene. |
| CatCatcher.Game.Play | script.js:27-29 | The Play button of the menu runs create, which gives GameRules.Create of the old state. It starts a session at score 0 that is not over. |
| CatCatcher.WinThenRestart | script.js:181-222 | Scenario for a client: from score 9, one catch wins and pauses the session, and a tick then changes nothing. Restart then gives score 0, not over, with one cat. |

## Left out

- Physics integration (gravity, velocity integration, collide-with-bounds): a cat's record keeps the position and fall speed it was created with, and the engine's motion of the player and the cats is not modelled.
- Overlap geometry and the world-bounds rectangles: which cat the player touches, and which edges a body hits, are event parameters.
- Catches in the same physics step as the win: the engine may still report overlaps with other cats in the step where `physics.pause()` is called. The model delivers overlaps only while unpaused, so the bound `score <= 10` in `Inv` and `WonSessionFreezes` do not cover that case. The unguarded `CatchCat`, `ScoreCountsCatches` and `WinAtMostOnce` do.
- Rendering: the background, the score text, the win banner, the button labels and layout, and `console.log`. None of them affect the state.
- Asset loading and the animation definitions: the animation is kept only as the tag last requested (`NotPlayed` before the first tick).
- The title scene apart from its Play button: Credits (`alert`) and Close (`confirm`, `window.close`) have no state.
- Probabilities: the 2% spawn rate and uniform placement are not verifiable. Only the bounds of each draw are kept.
- Canvas size: the width is the fixed 800 of the game configuration. Resizing and responsive canvases are not modelled.

/** The main scene as an event-driven state machine.

    The engine drives the rules of GameRules through six kinds of event: the
    per-tick update, an overlap of the player with a cat, a body touching the
    world bounds, and the three buttons (Restart and Main Menu on the win
    screen, Play on the menu). An event is admissible when its parameters
    are what the handler can receive (random draws in range, a live cat),
    and gated when the model lets the engine deliver it in the current
    state: overlap and world-bounds callbacks come from the physics step, and
    the model delivers them only while the physics is not paused (the engine
    may still report overlaps within the step that calls the pause, which
    this model does not capture); the win-screen buttons exist only once the
    session is won.
 */
module GameEvents {
  import opened GameRules

  datatype Event =
    | Tick(left: bool, right: bool, draw: int, x: int, vy: int)
    | Overlap(index: nat)
    | BoundsHit(body: Body, up: bool, down: bool, toLeft: bool, toRight: bool)
    | RestartPressed(x: int, vy: int)
    | MenuPressed
    | PlayPressed(x: int, vy: int)

  /** The two buttons that end a session. */
  predicate IsReset(e: Event) { e.RestartPressed? || e.MenuPressed? }

  predicate NoReset(es: seq<Event>) { forall k :: 0 <= k < |es| ==> !IsReset(es[k]) }

  lemma NoResetTail(es: seq<Event>)
    requires es != [] && NoReset(es)
    ensures !IsReset(es[0]) && NoReset(es[1..])
  {
  }

  /** What the handler of `e` requires of its arguments. */
  predicate Admissible(s: State, e: Event) {
    match e
    case Tick(_, _, draw, x, vy) => TickDraw(draw) && SpawnX(x) && FallSpeed(vy)
    case Overlap(i) => i < |s.cats|
    case BoundsHit(body, _, _, _, _) => body.CatBody? ==> body.index < |s.cats|
    case RestartPressed(x, vy) => SpawnX(x) && FallSpeed(vy)
    case MenuPressed => true
    case PlayPressed(x, vy) => SpawnX(x) && FallSpeed(vy)
  }

  /** Whether the model lets the engine deliver `e` in state `s`: physics
      callbacks only while the physics is not paused. */
  predicate Gated(s: State, e: Event) {
    match e
    case Tick(_, _, _, _, _) => s.scene == MainScene
    case Overlap(_) => s.scene == MainScene && !s.paused
    case BoundsHit(_, _, _, _, _) => s.scene == MainScene && !s.paused
    case RestartPressed(_, _) => s.scene == MainScene && s.gameOver
    case MenuPressed => s.scene == MainScene && s.gameOver
    case PlayPressed(_, _) => s.scene == BootScene
  }

  predicate Enabled(s: State, e: Event) { Admissible(s, e) && Gated(s, e) }

  /** The handler the engine calls for `e`. */
  function Step(s: State, e: Event): State
    requires Admissible(s, e)
  {
    match e
    case Tick(left, right, draw, x, vy) => Update(s, left, right, draw, x, vy)
    case Overlap(i) => CatchCat(s, i)
    case BoundsHit(body, up, down, toLeft, toRight) => OnWorldBounds(s, body, up, down, toLeft, toRight)
    case RestartPressed(x, vy) => Restart(s, x, vy)
    case MenuPressed => MainMenu(s)
    case PlayPressed(x, vy) => Create(s, x, vy)
  }

  /** Every event of `es` is admissible in the state it reaches. */
  predicate AdmissibleTrace(s: State, es: seq<Event>)
    decreases |es|
  {
    es == [] || (Admissible(s, es[0]) && AdmissibleTrace(Step(s, es[0]), es[1..]))
  }

  function Run(s: State, es: seq<Event>): State
    requires AdmissibleTrace(s, es)
    decreases |es|
  {
    if es == [] then s else Run(Step(s, es[0]), es[1..])
  }

  /** Every event of an admissible trace is gated in the state it reaches. */
  predicate GatedAlong(s: State, es: seq<Event>)
    requires AdmissibleTrace(s, es)
    decreases |es|
  {
    es == [] || (Gated(s, es[0]) && GatedAlong(Step(s, es[0]), es[1..]))
  }

  /** A sequence of events the engine can deliver, one after another, from `s`. */
  predicate ValidTrace(s: State, es: seq<Event>) {
    AdmissibleTrace(s, es) && GatedAlong(s, es)
  }

  /** The number of overlap (catch) events in `es`. */
  function Catches(es: seq<Event>): nat
    decreases |es|
  {
    if es == [] then 0 else (if es[0].Overlap? then 1 else 0) + Catches(es[1..])
  }

  /** The number of win transitions along `es`. */
  function Wins(s: State, es: seq<Event>): nat
    requires AdmissibleTrace(s, es)
    decreases |es|
  {
    if es == [] then 0
    else (if Won(s, Step(s, es[0])) then 1 else 0) + Wins(Step(s, es[0]), es[1..])
  }

  /** Every event the engine can deliver keeps the invariant. */
  lemma StepPreservesInv(s: State, e: Event)
    requires Inv(s) && Enabled(s, e)
    ensures Inv(Step(s, e))
  {
    match e
    case Overlap(i) =>
      var t := CatchCat(s, i);
      forall j | 0 <= j < |t.cats| ensures Spawned(t.cats[j]) {
        if j < i { assert t.cats[j] == s.cats[j]; } else { assert t.cats[j] == s.cats[j + 1]; }
      }
    case BoundsHit(body, up, down, toLeft, toRight) =>
      var t := OnWorldBounds(s, body, up, down, toLeft, toRight);
      if body.CatBody? && down {
        forall j | 0 <= j < |t.cats| ensures Spawned(t.cats[j]) {
          if j < body.index { assert t.cats[j] == s.cats[j]; } else { assert t.cats[j] == s.cats[j + 1]; }
        }
      }
    case Tick(left, right, draw, x, vy) =>
      var t := Update(s, left, right, draw, x, vy);
      forall j | 0 <= j < |t.cats| ensures Spawned(t.cats[j]) {
        if j < |s.cats| { assert t.cats[..|s.cats|][j] == s.cats[j]; }
      }
    case RestartPressed(x, vy) =>
    case MenuPressed =>
    case PlayPressed(x, vy) =>
  }

  /** Every reachable state satisfies the invariant. */
  lemma {:induction false} RunPreservesInv(s: State, es: seq<Event>)
    requires Inv(s) && ValidTrace(s, es)
    ensures Inv(Run(s, es))
    decreases |es|
  {
    if es != [] {
      StepPreservesInv(s, es[0]);
      RunPreservesInv(Step(s, es[0]), es[1..]);
    }
  }

  /** Page load is the start of every trace the game can produce. */
  lemma {:induction false} ReachableInv(es: seq<Event>)
    requires ValidTrace(Initial(), es)
    ensures Inv(Run(Initial(), es))
  {
    RunPreservesInv(Initial(), es);
  }

  /** Between resets the score goes up by exactly one per catch and never
      goes down, whatever the pause does: catchCat adds one unconditionally
      and no other handler but the buttons writes the score. */
  lemma {:induction false} ScoreCountsCatches(s: State, es: seq<Event>)
    requires AdmissibleTrace(s, es) && NoReset(es)
    ensures Run(s, es).score == s.score + Catches(es)
    ensures Run(s, es).score >= s.score
    decreases |es|
  {
    if es != [] {
      NoResetTail(es);
      ScoreCountsCatches(Step(s, es[0]), es[1..]);
    }
  }

  /** Between resets the win transition happens at most once, and never
      again once the session is over, even were catchCat called after the
      pause: gameOver is only ever set, and the win branch tests it. */
  lemma {:induction false} WinAtMostOnce(s: State, es: seq<Event>)
    requires AdmissibleTrace(s, es) && NoReset(es)
    ensures Wins(s, es) <= 1
    ensures s.gameOver ==> Wins(s, es) == 0 && Run(s, es).gameOver
    ensures Wins(s, es) == 1 <==> !s.gameOver && Run(s, es).gameOver
    decreases |es|
  {
    if es != [] {
      NoResetTail(es);
      var t := Step(s, es[0]);
      assert s.gameOver ==> t.gameOver;
      WinAtMostOnce(t, es[1..]);
    }
  }

  /** A won session is frozen: until a button is pressed, nothing the engine
      can deliver changes any part of the state. */
  lemma {:induction false} WonSessionFreezes(s: State, es: seq<Event>)
    requires Inv(s) && s.scene == MainScene && s.gameOver
    requires ValidTrace(s, es) && NoReset(es)
    ensures Run(s, es) == s
    decreases |es|
  {
    if es != [] {
      NoResetTail(es);
      assert es[0].Tick?;
      assert Step(s, es[0]) == s;
      WonSessionFreezes(s, es[1..]);
    }
  }

  /** Between resets the game stays in the main scene. */
  lemma {:induction false} StaysInMainScene(s: State, es: seq<Event>)
    requires s.scene == MainScene && ValidTrace(s, es) && NoReset(es)
    ensures Run(s, es).scene == MainScene
    decreases |es|
  {
    if es != [] {
      NoResetTail(es);
      StaysInMainScene(Step(s, es[0]), es[1..]);
    }
  }

  /** The session from the point of view of its score: in a session that
      starts at zero, the score is the number of catches, it stops at the
      threshold, and the session is won exactly when the tenth cat is caught. */
  lemma SessionScore(s: State, es: seq<Event>)
    requires Inv(s) && s.scene == MainScene && s.score == 0
    requires ValidTrace(s, es) && NoReset(es)
    ensures Run(s, es).score == Catches(es) <= WinScore
    ensures Run(s, es).gameOver <==> Catches(es) == WinScore
    ensures Run(s, es).gameOver ==> Run(s, es).paused && Wins(s, es) == 1
    ensures Catches(es) < WinScore ==> !Run(s, es).gameOver && Wins(s, es) == 0
  {
    RunPreservesInv(s, es);
    ScoreCountsCatches(s, es);
    StaysInMainScene(s, es);
    WinAtMostOnce(s, es);
  }
}

/**
 * The game component: one game-loop tick, the actions it defers with
 * timeouts, the high-score store, the reset, and the component object that
 * ties them to the start button and the keyboard.
 */
module PacmanGame {
  import opened PacmanMaze
  import opened PacmanState
  import opened PacmanGhosts
  import opened PacmanPlayer
  import opened PacmanCollisions
  import opened PacmanTimers

  // ---------------------------------------------------------------------
  // The game-loop tick
  // ---------------------------------------------------------------------

  /** The first three updaters of a tick: ghost targets, the player's step, the ghosts' steps. */
  function MovePhase(s: GameState): GameState {
    GhostsMoved(AdvancePacman(UpdateGhostTargets(s)))
  }

  /** One game-loop tick: the moves, `checkCollisions`, then the clocks. */
  function Tick(s: GameState): Outcome {
    var hit := Collide(MovePhase(s));
    Outcome(TimersStep(hit.state), hit.scheduled)
  }

  /** The interval callback, its updaters applied in turn to the latest state. */
  method GameLoopTick(s: GameState) returns (o: Outcome)
    ensures o == Tick(s)
  {
    var st := UpdateGhostTargets(s);
    st := AdvancePacman(st);
    st := MoveGhosts(st);
    var hit := CheckCollisions(st);
    st := UpdateTimers(hit.state);
    o := Outcome(st, hit.scheduled);
  }

  lemma TargetsValid(s: GameState)
    requires Inv(s)
    ensures Inv(UpdateGhostTargets(s))
  {
    var r := UpdateGhostTargets(s);
    assert forall i :: 0 <= i < |r.ghosts| ==> r.ghosts[i].pos == s.ghosts[i].pos;
  }

  lemma GhostsMovedValid(s: GameState)
    requires Inv(s)
    ensures Inv(GhostsMoved(s))
  {
    var r := GhostsMoved(s);
    forall i | 0 <= i < |r.ghosts|
      ensures GhostCellOk(r.ghosts[i].pos)
    {
      GhostStepKeepsCell(s.ghosts[i], s.powerMode, s.ghostMode);
    }
  }

  lemma MovePhaseValid(s: GameState)
    requires Inv(s)
    ensures Inv(MovePhase(s))
  {
    TargetsValid(s);
    AdvancePacmanValid(UpdateGhostTargets(s));
    GhostsMovedValid(AdvancePacman(UpdateGhostTargets(s)));
  }

  /** A tick keeps the invariant: in particular no one ends up inside a wall. */
  lemma TickValid(s: GameState)
    requires Inv(s)
    ensures Inv(Tick(s).state)
  {
    MovePhaseValid(s);
    CollideValid(MovePhase(s));
    TimersValid(Collide(MovePhase(s)).state);
  }

  /** A tick never lowers the score. */
  lemma TickScoreGrows(s: GameState)
    requires Inv(s)
    ensures Tick(s).state.score >= s.score
  {
    MovePhaseValid(s);
    CollideScoreGrows(MovePhase(s));
    TimersFrame(Collide(MovePhase(s)).state);
  }

  /**
   * Inside a tick no ghost is ever in the eaten mode when collisions are
   * checked, since `moveGhosts` has just reset every ghost's mode; so each
   * capture is worth exactly 200 and the doubling sequence never starts.
   */
  lemma CaptureWorth200(s: GameState)
    requires Inv(s)
    ensures var p := EatFruit(EatPellet(EatDot(MovePhase(s)).state));
            forall i :: 0 <= i < |p.ghosts| ==> Captured(p, i).score == p.score + 200
  {
    var m := MovePhase(s);
    MovedNoneEaten(s);
    PickupsKeepGhosts(m);
    CaptureAtNoneEaten(EatFruit(EatPellet(EatDot(m).state)));
  }

  /** After the moves of a tick no ghost is in the eaten mode. */
  lemma MovedNoneEaten(s: GameState)
    requires Inv(s)
    ensures EatenCount(MovePhase(s).ghosts) == 0
  {
    assert forall i :: 0 <= i < |s.ghosts| ==> HasLegalMove(s.ghosts[i].pos);
    var pre := AdvancePacman(UpdateGhostTargets(s));
    PrePhaseKeepsCells(s);
    MovedGhostModes(pre);
    var m := GhostsMoved(pre);
    assert forall j :: 0 <= j < |m.ghosts| ==> m.ghosts[j].mode != Eaten;
  }

  /** Aiming the ghosts and moving the player leave every ghost on its cell. */
  lemma PrePhaseKeepsCells(s: GameState)
    ensures var pre := AdvancePacman(UpdateGhostTargets(s));
      |pre.ghosts| == |s.ghosts| && forall i :: 0 <= i < |s.ghosts| ==> pre.ghosts[i].pos == s.ghosts[i].pos
  {
    var r := UpdateGhostTargets(s);
    assert AdvancePacman(r).ghosts == r.ghosts;
  }

  /** The dot, pellet and fruit stages leave the ghosts alone. */
  lemma PickupsKeepGhosts(m: GameState)
    ensures EatFruit(EatPellet(EatDot(m).state)).ghosts == m.ghosts
  {
  }

  /** With no ghost eaten yet, any capture is worth 200. */
  lemma CaptureAtNoneEaten(p: GameState)
    requires EatenCount(p.ghosts) == 0
    ensures forall i :: 0 <= i < |p.ghosts| ==> Captured(p, i).score == p.score + 200
  {
  }

  /** What the game loop does in one period: a tick while running, not over and not won; else nothing. */
  function Interval(s: GameState, running: bool): Outcome {
    if running && !s.gameOver && !s.won then Tick(s) else Outcome(s, [])
  }

  lemma IntervalValid(s: GameState, running: bool)
    requires Inv(s)
    ensures Inv(Interval(s, running).state)
  {
    if running && !s.gameOver && !s.won {
      TickValid(s);
    }
  }

  // ---------------------------------------------------------------------
  // Deferred actions and the high score
  // ---------------------------------------------------------------------

  /**
   * The level reset that fires 3000 ms after the last dot: fresh
   * collectibles, everyone back to spawn, scatter for 7000 ms, and one
   * bonus life up to five. Score, level and the flags other than `won` are
   * those of the state at the moment it fires.
   */
  function LevelReset(s: GameState): (r: GameState)
    ensures !r.won && r.dots == DotCells() && r.powerPellets == PelletCells()
    ensures r.lives == if s.lives + 1 < 5 then s.lives + 1 else 5
    ensures r.score == s.score && r.level == s.level && r.gameOver == s.gameOver
    ensures r.ghostMode == Scatter && r.ghostModeTimer == 7000 && !r.powerMode && r.powerModeTimer == 0
    ensures r.pacmanPos == Spawn && r.ghosts == InitialGhosts()
    ensures r.direction == Still && r.nextDirection == Still
    ensures r.fruitsEaten == s.fruitsEaten && r.highScore == s.highScore
  {
    s.(won := false, dots := DotCells(), powerPellets := PelletCells(), pacmanPos := Spawn,
       ghosts := InitialGhosts(), direction := Still, nextDirection := Still, powerMode := false,
       powerModeTimer := 0, ghostMode := Scatter, ghostModeTimer := 7000,
       lives := if s.lives + 1 < 5 then s.lives + 1 else 5)
  }

  /**
   * After the level reset the player stands on a dot of the fresh maze,
   * every ghost is back on its spawn cell, and no ghost shares the
   * player's cell.
   */
  lemma LevelResetRespawns(s: GameState)
    ensures var r := LevelReset(s);
      r.pacmanPos in r.dots && IsOpen(r.pacmanPos) &&
      |r.ghosts| == 4 &&
      forall i :: 0 <= i < |r.ghosts| ==> r.ghosts[i].pos == Pos(9 + i, 9) && r.ghosts[i].pos != r.pacmanPos
  {
    CollectiblesWellFormed();
  }

  /** 3000 ms after a capture ghost `i` takes the global mode of that moment. */
  function RestoreMode(s: GameState, i: nat): (r: GameState)
    ensures |r.ghosts| == |s.ghosts| && r == s.(ghosts := r.ghosts)
    ensures forall j :: 0 <= j < |s.ghosts| ==>
      r.ghosts[j] == if j == i then s.ghosts[j].(mode := s.ghostMode) else s.ghosts[j]
  {
    s.(ghosts := seq(|s.ghosts|, j requires 0 <= j < |s.ghosts| =>
                       if j == i then s.ghosts[j].(mode := s.ghostMode) else s.ghosts[j]))
  }

  /** A state together with the persisted high score. */
  datatype Saved = Saved(state: GameState, store: Option<int>)

  /**
   * `updateHighScore`: a score above the high score becomes the high score
   * and is written to the store; otherwise nothing changes.
   */
  function UpdateHighScore(s: GameState, store: Option<int>): (r: Saved)
    ensures r.state == s.(highScore := r.state.highScore)
    ensures r.state.highScore >= s.score && r.state.highScore >= s.highScore
    ensures r.state.highScore == s.score || r.state.highScore == s.highScore
    ensures r.store == if s.score > s.highScore then Some(s.score) else store
  {
    var best := if s.score > s.highScore then s.score else s.highScore;
    if best > s.highScore then Saved(s.(highScore := best), Some(best)) else Saved(s, store)
  }

  /** What a fired timeout does. */
  function Fired(s: GameState, store: Option<int>, e: Deferred): Saved {
    match e
    case AdvanceLevel => Saved(LevelReset(s), store)
    case RestoreGhost(i) => Saved(RestoreMode(s, i), store)
    case FlushHighScore => UpdateHighScore(s, store)
  }

  /**
   * `resetGame`: a fresh game at level 1 that keeps the better of the high
   * score and the final score, writing it to the store when it grew.
   */
  function ResetGame(s: GameState, store: Option<int>): (r: Saved)
    ensures var best := if s.score > s.highScore then s.score else s.highScore;
            && r.state == InitialState(Some(best))
            && r.store == if s.score > s.highScore then Some(s.score) else store
  {
    var best := if s.score > s.highScore then s.score else s.highScore;
    Saved(InitialState(Some(best)), if best > s.highScore then Some(best) else store)
  }

  lemma LevelResetValid(s: GameState)
    requires Inv(s)
    ensures Inv(LevelReset(s))
  {
    SpawnCell();
    InitialGhostsOk();
  }

  lemma FiredValid(s: GameState, store: Option<int>, e: Deferred)
    requires Inv(s)
    ensures Inv(Fired(s, store, e).state)
  {
    match e
    case AdvanceLevel => LevelResetValid(s);
    case RestoreGhost(i) =>
      var r := RestoreMode(s, i);
      assert forall j :: 0 <= j < |r.ghosts| ==> r.ghosts[j].pos == s.ghosts[j].pos;
    case FlushHighScore =>
  }

  lemma ResetValid(s: GameState, store: Option<int>)
    ensures Inv(ResetGame(s, store).state)
  {
    InitialStateValid(Some(if s.score > s.highScore then s.score else s.highScore));
  }

  /**
   * A restart does not cancel a pending level reset: restarting during the
   * victory pause and letting the old timeout fire gives the new game a
   * fourth life and a scatter phase.
   */
  lemma StaleLevelReset(s: GameState, store: Option<int>)
    ensures LevelReset(ResetGame(s, store).state).lives == 4
    ensures LevelReset(ResetGame(s, store).state).level == 1
  {
  }

  /** Flushing the high score twice changes nothing the second time. */
  lemma FlushIdempotent(s: GameState, store: Option<int>)
    ensures var once := UpdateHighScore(s, store);
            UpdateHighScore(once.state, once.store) == once
  {
  }

  // ---------------------------------------------------------------------
  // The component
  // ---------------------------------------------------------------------

  /**
   * The component's state: the game state, whether the loop runs, the
   * persisted high score and the timeouts set but not yet fired.
   */
  class Game {
    var state: GameState
    var running: bool
    var store: Option<int>
    var pending: seq<Deferred>

    predicate Valid()
      reads this
    {
      Inv(state)
    }

    /** The component mounts with the stored high score, if any, and does not run. */
    constructor(stored: Option<int>)
      ensures Valid()
      ensures state == InitialState(stored) && !running && store == stored && pending == []
    {
      state := InitialState(stored);
      running := false;
      store := stored;
      pending := [];
      InitialStateValid(stored);
    }

    /** The start button, shown only before a game has started. */
    method Start()
      requires Valid()
      modifies this
      ensures Valid()
      ensures state == old(state) && store == old(store) && pending == old(pending)
      ensures running == (old(running) || (!state.gameOver && !state.won))
    {
      if !running && !state.gameOver && !state.won {
        running := true;
      }
    }

    /** One interval callback; the interval exists only while running, not over and not won. */
    method Step()
      requires Valid()
      modifies this
      ensures Valid()
      ensures running == old(running) && store == old(store)
      ensures state == Interval(old(state), running).state
      ensures pending == old(pending) + Interval(old(state), running).scheduled
    {
      var o := Outcome(state, []);
      if running && !state.gameOver && !state.won {
        o := GameLoopTick(state);
      }
      IntervalValid(state, running);
      state := o.state;
      pending := pending + o.scheduled;
    }

    /** The timeout `pending[j]` fires. */
    method Fire(j: nat)
      requires Valid() && j < |pending|
      modifies this
      ensures Valid()
      ensures pending == old(pending[..j] + pending[j + 1..]) && running == old(running)
      ensures Saved(state, store) == Fired(old(state), old(store), old(pending[j]))
    {
      var e := pending[j];
      pending := pending[..j] + pending[j + 1..];
      FiredValid(state, store, e);
      var r := Fired(state, store, e);
      state, store := r.state, r.store;
    }

    /** `resetGame`: a fresh game that waits for the start button; pending timeouts stay. */
    method Reset()
      requires Valid()
      modifies this
      ensures Valid()
      ensures Saved(state, store) == ResetGame(old(state), old(store))
      ensures !running && pending == old(pending)
    {
      ResetValid(state, store);
      var r := ResetGame(state, store);
      state, store := r.state, r.store;
      running := false;
    }

    /**
     * A key press: ignored before the first start; a bound step moves the
     * player at once; the space bar restarts a game that is over or won.
     */
    method KeyDown(key: string)
      requires Valid()
      modifies this
      ensures Valid()
      ensures pending == old(pending)
      ensures !old(running) && !old(state.gameOver) && !old(state.won) ==>
        state == old(state) && running == old(running) && store == old(store)
      ensures KeyCommand(key).Ignore? || (KeyCommand(key).Restart? && !old(state.gameOver) && !old(state.won)) ==>
        state == old(state) && running == old(running) && store == old(store)
      ensures (old(running) || old(state.gameOver) || old(state.won)) && KeyCommand(key).Step? ==>
        state == MovePacman(old(state), KeyCommand(key).d) && running == old(running) && store == old(store)
      ensures (old(state.gameOver) || old(state.won)) && KeyCommand(key).Restart? ==>
        Saved(state, store) == ResetGame(old(state), old(store)) && !running
    {
      if !running && !state.gameOver && !state.won {
        return;
      }
      match KeyCommand(key)
      case Step(d) =>
        MovePacmanValid(state, d);
        state := MovePacman(state, d);
      case Restart =>
        if state.gameOver || state.won {
          Reset();
        }
      case Ignore =>
    }
  }
}

/**
 * The game state of the maze-chase game: ghosts, the round state, and the
 * invariant every reachable state keeps.
 */
module PacmanState {
  import opened PacmanMaze

  datatype GhostMode = Chase | Scatter | Frightened | Eaten

  /** The global phase `ghostMode` is only ever chase or scatter. */
  type GlobalMode = m: GhostMode | m == Chase || m == Scatter witness Chase

  /** A ghost; its display colour belongs to the renderer and is not kept. */
  datatype Ghost = Ghost(pos: Pos, mode: GhostMode, targetPos: Pos, scatterPos: Pos)

  datatype GameState = GameState(
    pacmanPos: Pos,
    direction: Delta,
    nextDirection: Delta,
    dots: set<Pos>,
    powerPellets: set<Pos>,
    ghosts: seq<Ghost>,
    score: int,
    gameOver: bool,
    won: bool,
    lives: int,
    powerMode: bool,
    powerModeTimer: int,
    level: int,
    fruitsEaten: int,
    highScore: int,
    ghostModeTimer: int,
    ghostMode: GlobalMode)

  /** An action the game schedules with a timeout instead of doing it at once. */
  datatype Deferred =
    | AdvanceLevel            // the level reset 3000 ms after the last dot
    | RestoreGhost(index: nat) // an eaten ghost takes the global mode again after 3000 ms
    | FlushHighScore          // `handleGameOver` right after the last life is lost

  /** A new state together with the actions it scheduled. */
  datatype Outcome = Outcome(state: GameState, scheduled: seq<Deferred>)

  /** The scatter corners of the four ghosts. */
  const Corners: seq<Pos> := [Pos(1, 1), Pos(20, 1), Pos(1, 19), Pos(20, 19)]

  /** `initializeGhosts`: four chasing ghosts at (9..12, 9), each aiming at its own corner. */
  function InitialGhosts(): (gs: seq<Ghost>)
    ensures |gs| == 4
    ensures forall i :: 0 <= i < 4 ==> gs[i].scatterPos == Corners[i] && gs[i].targetPos == Corners[i]
    ensures forall i :: 0 <= i < 4 ==> gs[i].pos == Pos(9 + i, 9) && gs[i].mode == Chase
  {
    seq(4, i requires 0 <= i < 4 => Ghost(Pos(9 + i, 9), Chase, Corners[i], Corners[i]))
  }

  /** The state the component starts in; `stored` is the persisted high score, if any. */
  function InitialState(stored: Option<int>): GameState {
    GameState(
      pacmanPos := Spawn,
      direction := Still,
      nextDirection := Still,
      dots := DotCells(),
      powerPellets := PelletCells(),
      ghosts := InitialGhosts(),
      score := 0,
      gameOver := false,
      won := false,
      lives := 3,
      powerMode := false,
      powerModeTimer := 0,
      level := 1,
      fruitsEaten := 0,
      highScore := if stored.Some? then stored.value else 0,
      ghostModeTimer := 7000,
      ghostMode := Chase)
  }

  /** A ghost may stand on an open cell or on its wall spawn (9, 9), and can always move. */
  predicate GhostCellOk(p: Pos) {
    (IsOpen(p) || p == Pos(9, 9)) && HasLegalMove(p)
  }

  /** What every reachable state satisfies. */
  predicate Inv(s: GameState) {
    && IsOpen(s.pacmanPos)
    && |s.ghosts| == 4
    && (forall i :: 0 <= i < |s.ghosts| ==> GhostCellOk(s.ghosts[i].pos))
    && s.dots <= DotCells()
    && s.powerPellets <= PelletCells()
    && (s.powerMode ==> s.powerModeTimer > 0)
    && s.ghostModeTimer > 0
    && s.score >= 0
    && s.level >= 1
    && s.lives <= 5
    && (!s.gameOver ==> s.lives >= 1)
    && (s.won ==> s.dots == {})
  }

  lemma {:induction false} InitialGhostsOk()
    ensures forall i :: 0 <= i < |InitialGhosts()| ==> GhostCellOk(InitialGhosts()[i].pos)
  {
    forall i | 0 <= i < |InitialGhosts()| ensures GhostCellOk(InitialGhosts()[i].pos) {
      SpawnCellOk(i);
    }
  }

  lemma SpawnCellOk(i: int)
    requires 0 <= i < 4
    ensures GhostCellOk(Pos(9 + i, 9))
  {
    if i == 0 {
      WallSpawn();
    } else {
      HomeCellOpen(i - 1);
      assert Pos(9 + i, 9) == HomeCell(i - 1);
    }
  }

  /** The game starts in a state satisfying the invariant. */
  lemma InitialStateValid(stored: Option<int>)
    ensures Inv(InitialState(stored))
  {
    SpawnCell();
    InitialGhostsOk();
  }
}

/**
 * The player of the maze-chase game: the key map, the immediate step of a
 * key press (`movePacman`) and the buffered step of every game-loop tick.
 */
module PacmanPlayer {
  import opened PacmanMaze
  import opened PacmanState

  /** What a key press asks for: a step, a restart, or nothing. */
  datatype Command = Step(d: Delta) | Restart | Ignore

  /** The key bindings: arrows and WASD in either case, and the space bar. */
  function KeyCommand(key: string): (c: Command)
    ensures c.Step? ==> c.d in Directions
    ensures c.Step? && c.d == Delta(0, -1) <==> key in {"ArrowUp", "w", "W"}
    ensures c.Step? && c.d == Delta(0, 1) <==> key in {"ArrowDown", "s", "S"}
    ensures c.Step? && c.d == Delta(-1, 0) <==> key in {"ArrowLeft", "a", "A"}
    ensures c.Step? && c.d == Delta(1, 0) <==> key in {"ArrowRight", "d", "D"}
    ensures c.Restart? <==> key == " "
  {
    if key in {"ArrowUp", "w", "W"} then Step(Delta(0, -1))
    else if key in {"ArrowDown", "s", "S"} then Step(Delta(0, 1))
    else if key in {"ArrowLeft", "a", "A"} then Step(Delta(-1, 0))
    else if key in {"ArrowRight", "d", "D"} then Step(Delta(1, 0))
    else if key == " " then Restart
    else Ignore
  }

  /** Every one of the four steps is bound to some key. */
  lemma EveryDirectionBound(d: Delta)
    requires d in Directions
    ensures exists key :: KeyCommand(key) == Step(d)
  {
    if d == Delta(0, -1) {
      assert KeyCommand("w") == Step(d);
    } else if d == Delta(0, 1) {
      assert KeyCommand("s") == Step(d);
    } else if d == Delta(-1, 0) {
      assert KeyCommand("a") == Step(d);
    } else {
      assert KeyCommand("d") == Step(d);
    }
  }

  /**
   * `movePacman(dx, dy)`: the player steps by `d` at once when the cell
   * there is open, and `d` becomes the buffered direction either way.
   */
  function MovePacman(s: GameState, d: Delta): (r: GameState)
    // only the player's cell and directions can change
    ensures r == s.(pacmanPos := r.pacmanPos, direction := r.direction, nextDirection := d)
    // the player moves exactly when the target cell is open
    ensures IsOpen(Add(s.pacmanPos, d)) ==> r.pacmanPos == Add(s.pacmanPos, d) && r.direction == d
    ensures !IsOpen(Add(s.pacmanPos, d)) ==> r.pacmanPos == s.pacmanPos && r.direction == s.direction
    // so the player never stands on a wall
    ensures IsOpen(s.pacmanPos) ==> IsOpen(r.pacmanPos)
  {
    var next := Add(s.pacmanPos, d);
    if IsValidMove(next.x, next.y) then
      s.(pacmanPos := next, direction := d, nextDirection := d)
    else
      s.(nextDirection := d)
  }

  /**
   * The player's part of a game-loop tick: step along the buffered
   * direction when it is set and open; otherwise stand still. There is no
   * fallback to the current direction.
   */
  function AdvancePacman(s: GameState): (r: GameState)
    ensures r == s.(pacmanPos := r.pacmanPos, direction := r.direction)
    ensures s.nextDirection != Still && IsOpen(Add(s.pacmanPos, s.nextDirection)) ==>
      r.pacmanPos == Add(s.pacmanPos, s.nextDirection) && r.direction == s.nextDirection
    ensures s.nextDirection == Still || !IsOpen(Add(s.pacmanPos, s.nextDirection)) ==> r == s
    ensures IsOpen(s.pacmanPos) ==> IsOpen(r.pacmanPos)
  {
    if s.nextDirection != Still then
      var next := Add(s.pacmanPos, s.nextDirection);
      if IsValidMove(next.x, next.y) then s.(pacmanPos := next, direction := s.nextDirection) else s
    else s
  }

  /** A key press keeps the invariant. */
  lemma MovePacmanValid(s: GameState, d: Delta)
    requires Inv(s)
    ensures Inv(MovePacman(s, d))
  {
  }

  /** The player's tick keeps the invariant. */
  lemma AdvancePacmanValid(s: GameState)
    requires Inv(s)
    ensures Inv(AdvancePacman(s))
  {
  }

  /** A key press towards an open cell followed by a tick moves the player two cells. */
  lemma KeyThenTick(s: GameState, d: Delta)
    requires d != Still
    requires IsOpen(Add(s.pacmanPos, d)) && IsOpen(Add(Add(s.pacmanPos, d), d))
    ensures AdvancePacman(MovePacman(s, d)).pacmanPos == Add(Add(s.pacmanPos, d), d)
  {
  }
}

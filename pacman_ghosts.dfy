/**
 * Ghost behaviour of the maze-chase game: the per-archetype targets of
 * `updateGhostTargets` and the greedy stepping of `moveGhosts`.
 */
module PacmanGhosts {
  import opened PacmanMaze
  import opened PacmanState

  /**
   * Squared Euclidean distance. The source compares `Math.sqrt` of this
   * sum; the square root is monotone, so every comparison comes out the same.
   */
  function SqDist(a: Pos, b: Pos): (r: int)
    ensures r >= 0
  {
    (a.x - b.x) * (a.x - b.x) + (a.y - b.y) * (a.y - b.y)
  }

  // ---------------------------------------------------------------------
  // Targeting (updateGhostTargets)
  // ---------------------------------------------------------------------

  /** Chase targeting is in force: global chase phase and no power pellet active. */
  predicate Chasing(s: GameState) {
    s.ghostMode == Chase && !s.powerMode
  }

  /** The target cell `updateGhostTargets` gives ghost `i`. */
  function GhostTarget(s: GameState, i: nat): (t: Pos)
    requires i < |s.ghosts|
    // outside chase targeting every ghost heads for its scatter corner
    ensures !Chasing(s) ==> t == s.ghosts[i].scatterPos
    // ghost 0 aims at the player
    ensures Chasing(s) && i == 0 ==> t == s.pacmanPos
    // ghost 1 aims four steps ahead of the player
    ensures Chasing(s) && i == 1 ==>
      t.x - s.pacmanPos.x == 4 * s.direction.dx && t.y - s.pacmanPos.y == 4 * s.direction.dy
    // ghost 2: the cell two steps ahead of the player is the midpoint of ghost 0 and the target
    ensures Chasing(s) && i == 2 ==>
      && t.x + s.ghosts[0].pos.x == 2 * (s.pacmanPos.x + 2 * s.direction.dx)
      && t.y + s.ghosts[0].pos.y == 2 * (s.pacmanPos.y + 2 * s.direction.dy)
    // ghost 3 chases only while more than 8 cells away
    ensures Chasing(s) && i == 3 ==>
      && (SqDist(s.ghosts[3].pos, s.pacmanPos) > 64 ==> t == s.pacmanPos)
      && (SqDist(s.ghosts[3].pos, s.pacmanPos) <= 64 ==> t == s.ghosts[3].scatterPos)
    ensures i > 3 ==> t == s.ghosts[i].scatterPos
  {
    var g := s.ghosts[i];
    var pac := s.pacmanPos;
    if !Chasing(s) then g.scatterPos
    else if i == 0 then pac
    else if i == 1 then Pos(pac.x + s.direction.dx * 4, pac.y + s.direction.dy * 4)
    else if i == 2 then
      var red := s.ghosts[0];
      var ahead := Pos(pac.x + s.direction.dx * 2, pac.y + s.direction.dy * 2);
      Pos(ahead.x + (ahead.x - red.pos.x), ahead.y + (ahead.y - red.pos.y))
    else if i == 3 then
      if SqDist(g.pos, pac) > 64 then pac else g.scatterPos
    else g.scatterPos
  }

  /** `updateGhostTargets`: every ghost gets its new target and nothing else changes. */
  function UpdateGhostTargets(s: GameState): (r: GameState)
    ensures r == s.(ghosts := r.ghosts) && |r.ghosts| == |s.ghosts|
    ensures forall i :: 0 <= i < |s.ghosts| ==> r.ghosts[i] == s.ghosts[i].(targetPos := GhostTarget(s, i))
  {
    s.(ghosts := seq(|s.ghosts|, i requires 0 <= i < |s.ghosts| => s.ghosts[i].(targetPos := GhostTarget(s, i))))
  }

  // ---------------------------------------------------------------------
  // Stepping (moveGhosts)
  // ---------------------------------------------------------------------

  /** The open steps among the first `n` entries of `Directions`, in that order. */
  function LegalPrefix(p: Pos, n: nat): seq<Delta>
    requires n <= |Directions|
  {
    if n == 0 then []
    else
      var r := LegalPrefix(p, n - 1);
      var d := Directions[n - 1];
      if IsOpen(Add(p, d)) then r + [d] else r
  }

  /**
   * `r` is what a scan of the first `n` directions keeps: exactly the open
   * ones among them, each a direction, in direction order.
   */
  predicate Scanned(p: Pos, n: nat, r: seq<Delta>) {
    && (forall a :: 0 <= a < |r| ==>
          DirIndex(r[a]) < n && Directions[DirIndex(r[a])] == r[a] && IsOpen(Add(p, r[a])))
    && (forall j :: 0 <= j < n && j < |Directions| && IsOpen(Add(p, Directions[j])) ==> Directions[j] in r)
    && (forall a, b :: 0 <= a < b < |r| ==> DirIndex(r[a]) < DirIndex(r[b]))
  }

  /** The scan function keeps what a scan keeps. */
  lemma {:induction false} PrefixFacts(p: Pos, n: nat)
    requires n <= |Directions|
    ensures Scanned(p, n, LegalPrefix(p, n))
    decreases n
  {
    if n > 0 {
      PrefixFacts(p, n - 1);
      var r := LegalPrefix(p, n - 1);
      if IsOpen(Add(p, Directions[n - 1])) {
        PrefixTakesOpen(p, n, r);
      } else {
        PrefixSkipsBlocked(p, n, r);
      }
    }
  }

  /** Appending the open step `Directions[n - 1]` extends a scan of the first `n - 1` steps to `n`. */
  lemma PrefixTakesOpen(p: Pos, n: nat, r: seq<Delta>)
    requires 1 <= n <= |Directions| && IsOpen(Add(p, Directions[n - 1]))
    requires Scanned(p, n - 1, r)
    ensures Scanned(p, n, r + [Directions[n - 1]])
  {
    var d := Directions[n - 1];
    var q := r + [d];
    assert DirIndex(d) == n - 1;
    assert forall a :: 0 <= a < |r| ==> q[a] == r[a];
  }

  /** Skipping the blocked step `Directions[n - 1]` extends a scan of the first `n - 1` steps to `n`. */
  lemma PrefixSkipsBlocked(p: Pos, n: nat, r: seq<Delta>)
    requires 1 <= n <= |Directions| && !IsOpen(Add(p, Directions[n - 1]))
    requires Scanned(p, n - 1, r)
    ensures Scanned(p, n, r)
  {
  }

  /** `validMoves`: the open neighbours of `p`, Up, Down, Left, Right. */
  function LegalMoves(p: Pos): (r: seq<Delta>)
    ensures r == [] <==> !HasLegalMove(p)
  {
    var r := LegalPrefix(p, |Directions|);
    PrefixFacts(p, |Directions|);
    assert HasLegalMove(p) ==> r != [] by {
      if HasLegalMove(p) {
        var d :| d in Directions && IsOpen(Add(p, d));
        assert Directions[DirIndex(d)] == d;
      }
    }
    assert r != [] ==> r[0] in Directions && IsOpen(Add(p, r[0]));
    r
  }

  /** The legal moves are open steps in direction order, and every open step is among them. */
  lemma LegalMovesFacts(p: Pos)
    ensures var r := LegalMoves(p);
      && (forall a :: 0 <= a < |r| ==> r[a] in Directions && IsOpen(Add(p, r[a])))
      && (forall a, b :: 0 <= a < b < |r| ==> DirIndex(r[a]) < DirIndex(r[b]))
      && (forall e :: e in Directions && IsOpen(Add(p, e)) ==> e in r)
  {
    PrefixFacts(p, |Directions|);
    var r := LegalMoves(p);
    forall e | e in Directions && IsOpen(Add(p, e))
      ensures e in r
    {
      assert Directions[DirIndex(e)] == e;
    }
  }

  function MoveDist(from: Pos, d: Delta, target: Pos): int {
    SqDist(Add(from, d), target)
  }

  /**
   * The index `bestMove` ends on when `moves` are scanned in order, keeping
   * a move only when it is strictly closer than the best so far.
   */
  function ClosestIndex(moves: seq<Delta>, from: Pos, target: Pos): (k: nat)
    requires |moves| > 0
    ensures k < |moves|
    decreases |moves|
  {
    if |moves| == 1 then 0
    else
      var n := |moves| - 1;
      var k := ClosestIndex(moves[..n], from, target);
      if MoveDist(from, moves[n], target) < MoveDist(from, moves[k], target) then n else k
  }

  /** The kept move is a nearest one, and every move before it is strictly farther. */
  lemma {:induction false} ClosestIndexNearest(moves: seq<Delta>, from: Pos, target: Pos)
    requires |moves| > 0
    ensures var k := ClosestIndex(moves, from, target);
      && (forall j :: 0 <= j < |moves| ==> MoveDist(from, moves[k], target) <= MoveDist(from, moves[j], target))
      && (forall j :: 0 <= j < k ==> MoveDist(from, moves[j], target) > MoveDist(from, moves[k], target))
    decreases |moves|
  {
    if |moves| > 1 {
      var n := |moves| - 1;
      ClosestIndexNearest(moves[..n], from, target);
      assert forall j :: 0 <= j < n ==> moves[..n][j] == moves[j];
    }
  }

  /** One ghost's step in `moveGhosts`. */
  function GhostStep(g: Ghost, powerMode: bool, ghostMode: GlobalMode): Ghost {
    var moves := LegalMoves(g.pos);
    if moves == [] then g
    else
      var best := if powerMode then moves[0] else moves[ClosestIndex(moves, g.pos, g.targetPos)];
      g.(pos := Add(g.pos, best), mode := if powerMode then Frightened else ghostMode)
  }

  /** `d` is an open step from `from`, and every step tried before it is blocked. */
  ghost predicate FirstOpenStep(from: Pos, d: Delta) {
    && d in Directions && IsOpen(Add(from, d))
    && forall e :: e in Directions && DirIndex(e) < DirIndex(d) ==> !IsOpen(Add(from, e))
  }

  /**
   * `d` is an open step from `from` ending nearest to `target`; among
   * equally near steps it is the first in Up, Down, Left, Right order.
   */
  ghost predicate NearestStep(from: Pos, target: Pos, d: Delta) {
    && d in Directions && IsOpen(Add(from, d))
    && (forall e :: e in Directions && IsOpen(Add(from, e)) ==>
          MoveDist(from, d, target) <= MoveDist(from, e, target))
    && (forall e :: e in Directions && IsOpen(Add(from, e)) && DirIndex(e) < DirIndex(d) ==>
          MoveDist(from, e, target) > MoveDist(from, d, target))
  }

  /** The step a ghost took. */
  function Taken(g: Ghost, r: Ghost): Delta {
    Delta(r.pos.x - g.pos.x, r.pos.y - g.pos.y)
  }

  /** Every open step occurs in the list of legal moves. */
  lemma IndexInLegalMoves(p: Pos, e: Delta) returns (a: nat)
    requires e in Directions && IsOpen(Add(p, e))
    ensures a < |LegalMoves(p)| && LegalMoves(p)[a] == e
  {
    LegalMovesFacts(p);
    a :| 0 <= a < |LegalMoves(p)| && LegalMoves(p)[a] == e;
  }

  /** The first legal move is the first open step in Up, Down, Left, Right order. */
  lemma FirstLegalMove(p: Pos)
    requires HasLegalMove(p)
    ensures FirstOpenStep(p, LegalMoves(p)[0])
  {
    var moves := LegalMoves(p);
    LegalMovesFacts(p);
    forall e | e in Directions && DirIndex(e) < DirIndex(moves[0])
      ensures !IsOpen(Add(p, e))
    {
      if IsOpen(Add(p, e)) {
        var a := IndexInLegalMoves(p, e);
        assert false;
      }
    }
  }

  /** The move the greedy scan keeps is at least as near as the open step `e`, and strictly nearer than `e` if `e` comes later. */
  lemma ClosestBeats(p: Pos, target: Pos, e: Delta)
    requires HasLegalMove(p) && e in Directions && IsOpen(Add(p, e))
    ensures var d := LegalMoves(p)[ClosestIndex(LegalMoves(p), p, target)];
      && MoveDist(p, d, target) <= MoveDist(p, e, target)
      && (DirIndex(e) < DirIndex(d) ==> MoveDist(p, e, target) > MoveDist(p, d, target))
  {
    var a := IndexInLegalMoves(p, e);
    LegalMovesFacts(p);
    ClosestBeatsIn(LegalMoves(p), p, target, a);
  }

  /** The same, for any list of moves in direction order and any move `moves[a]` of it. */
  lemma ClosestBeatsIn(moves: seq<Delta>, from: Pos, target: Pos, a: nat)
    requires a < |moves|
    requires forall x, y :: 0 <= x < y < |moves| ==> DirIndex(moves[x]) < DirIndex(moves[y])
    ensures var d := moves[ClosestIndex(moves, from, target)];
      && MoveDist(from, d, target) <= MoveDist(from, moves[a], target)
      && (DirIndex(moves[a]) < DirIndex(d) ==> MoveDist(from, moves[a], target) > MoveDist(from, d, target))
  {
    var k := ClosestIndex(moves, from, target);
    ClosestIndexNearest(moves, from, target);
    if k < a {
      assert DirIndex(moves[k]) < DirIndex(moves[a]);
    }
  }

  /** The greedy scan over the legal moves picks the nearest open step. */
  lemma ClosestLegalMove(p: Pos, target: Pos)
    requires HasLegalMove(p)
    ensures NearestStep(p, target, LegalMoves(p)[ClosestIndex(LegalMoves(p), p, target)])
  {
    LegalMovesFacts(p);
    forall e | e in Directions && IsOpen(Add(p, e))
      ensures var d := LegalMoves(p)[ClosestIndex(LegalMoves(p), p, target)];
        && MoveDist(p, d, target) <= MoveDist(p, e, target)
        && (DirIndex(e) < DirIndex(d) ==> MoveDist(p, e, target) > MoveDist(p, d, target))
    {
      ClosestBeats(p, target, e);
    }
  }

  /**
   * A blocked ghost keeps its cell and its mode. Any other ghost takes one
   * open step: outside power mode the nearest to its target (first in order
   * on ties); in power mode simply the first open one, since no distance is
   * above the initial `Infinity`. Its mode becomes frightened under power,
   * else the global mode; its target and corner are kept.
   */
  lemma GhostStepSpec(g: Ghost, powerMode: bool, ghostMode: GlobalMode)
    ensures !HasLegalMove(g.pos) ==> GhostStep(g, powerMode, ghostMode) == g
    ensures HasLegalMove(g.pos) ==>
      var r := GhostStep(g, powerMode, ghostMode);
      && r == g.(pos := Add(g.pos, Taken(g, r)), mode := if powerMode then Frightened else ghostMode)
      && (powerMode ==> FirstOpenStep(g.pos, Taken(g, r)))
      && (!powerMode ==> NearestStep(g.pos, g.targetPos, Taken(g, r)))
  {
    if HasLegalMove(g.pos) {
      if powerMode {
        FrightenedStep(g, ghostMode);
      } else {
        ChasingStep(g, ghostMode);
      }
    }
  }

  /** Under power a ghost that can move takes the first open step and turns frightened. */
  lemma FrightenedStep(g: Ghost, ghostMode: GlobalMode)
    requires HasLegalMove(g.pos)
    ensures var r := GhostStep(g, true, ghostMode);
      && r == g.(pos := Add(g.pos, Taken(g, r)), mode := Frightened)
      && FirstOpenStep(g.pos, Taken(g, r))
  {
    var d := LegalMoves(g.pos)[0];
    assert GhostStep(g, true, ghostMode) == g.(pos := Add(g.pos, d), mode := Frightened);
    StepTaken(g, d, Frightened);
    FirstLegalMove(g.pos);
  }

  /** Without power a ghost that can move takes the nearest open step and the global mode. */
  lemma ChasingStep(g: Ghost, ghostMode: GlobalMode)
    requires HasLegalMove(g.pos)
    ensures var r := GhostStep(g, false, ghostMode);
      && r == g.(pos := Add(g.pos, Taken(g, r)), mode := ghostMode)
      && NearestStep(g.pos, g.targetPos, Taken(g, r))
  {
    var moves := LegalMoves(g.pos);
    var d := moves[ClosestIndex(moves, g.pos, g.targetPos)];
    assert GhostStep(g, false, ghostMode) == g.(pos := Add(g.pos, d), mode := ghostMode);
    StepTaken(g, d, ghostMode);
    ClosestLegalMove(g.pos, g.targetPos);
  }

  /** The step read back from a ghost moved by `d` is `d`. */
  lemma StepTaken(g: Ghost, d: Delta, m: GhostMode)
    ensures Taken(g, g.(pos := Add(g.pos, d), mode := m)) == d
  {
  }

  /** At most one step satisfies `NearestStep`: the greedy rule determines the move. */
  lemma NearestStepUnique(from: Pos, target: Pos, d1: Delta, d2: Delta)
    requires NearestStep(from, target, d1) && NearestStep(from, target, d2)
    ensures d1 == d2
  {
    assert Directions[DirIndex(d1)] == d1 && Directions[DirIndex(d2)] == d2;
  }

  /** `moveGhosts` as a function of the state: every ghost takes its step. */
  function GhostsMoved(s: GameState): (r: GameState)
    ensures r == s.(ghosts := r.ghosts) && |r.ghosts| == |s.ghosts|
    ensures forall i :: 0 <= i < |s.ghosts| ==> r.ghosts[i] == GhostStep(s.ghosts[i], s.powerMode, s.ghostMode)
  {
    s.(ghosts := seq(|s.ghosts|, i requires 0 <= i < |s.ghosts| => GhostStep(s.ghosts[i], s.powerMode, s.ghostMode)))
  }

  /** A distance that may still be the initial `Infinity`. */
  datatype Distance = Finite(value: int) | Infinity

  predicate Below(a: Distance, b: Distance) {
    match (a, b)
    case (Finite(x), Finite(y)) => x < y
    case (Finite(_), Infinity) => true
    case (Infinity, _) => false
  }

  predicate Above(a: Distance, b: Distance) {
    Below(b, a)
  }

  /** The filter of `moveGhosts`: try the four steps in order, keep the open ones. */
  method ValidMoves(p: Pos) returns (validMoves: seq<Delta>)
    ensures validMoves == LegalMoves(p)
  {
    validMoves := [];
    var n := 0;
    while n < |Directions|
      invariant 0 <= n <= |Directions|
      invariant validMoves == LegalPrefix(p, n)
    {
      var dir := Directions[n];
      var next := Add(p, dir);
      PrefixStep(p, n);
      if IsValidMove(next.x, next.y) {
        validMoves := validMoves + [dir];
      }
      n := n + 1;
    }
    MovesArePrefix(p);
  }

  /** One more direction in the scan. */
  lemma PrefixStep(p: Pos, n: nat)
    requires n < |Directions|
    ensures LegalPrefix(p, n + 1) ==
      if IsOpen(Add(p, Directions[n])) then LegalPrefix(p, n) + [Directions[n]] else LegalPrefix(p, n)
  {
  }

  /** The legal moves are the scan of all four directions. */
  lemma MovesArePrefix(p: Pos)
    ensures LegalMoves(p) == LegalPrefix(p, |Directions|)
  {
  }

  /**
   * The choice of `moveGhosts` among non-empty `validMoves`: in power mode
   * the distance to the player is measured but never beats `Infinity`, so
   * the first move stays; otherwise the strictly nearest to `target` wins.
   */
  method BestMove(validMoves: seq<Delta>, from: Pos, target: Pos, powerMode: bool, pacmanPos: Pos)
    returns (bestMove: Delta)
    requires |validMoves| > 0
    ensures bestMove == if powerMode then validMoves[0] else validMoves[ClosestIndex(validMoves, from, target)]
  {
    bestMove := validMoves[0];
    var bestDistance := Infinity;
    if powerMode {
      for j := 0 to |validMoves|
        invariant bestMove == validMoves[0] && bestDistance == Infinity
      {
        var move := validMoves[j];
        var distance := Finite(SqDist(Add(from, move), pacmanPos));
        if Above(distance, bestDistance) {
          bestDistance := distance;
          bestMove := move;
        }
      }
    } else {
      ghost var best := 0;
      for j := 0 to |validMoves|
        invariant j == 0 ==> bestDistance == Infinity && bestMove == validMoves[0]
        invariant j > 0 ==> && best == ClosestIndex(validMoves[..j], from, target)
                            && bestMove == validMoves[best]
                            && bestDistance == Finite(MoveDist(from, bestMove, target))
      {
        var distance := Finite(SqDist(Add(from, validMoves[j]), target));
        assert validMoves[..j + 1][..j] == validMoves[..j];
        if Below(distance, bestDistance) {
          bestDistance := distance;
          bestMove := validMoves[j];
          best := j;
        }
      }
      assert validMoves[..|validMoves|] == validMoves;
    }
  }

  /** One ghost of `moveGhosts`: filter the open steps, then keep the best. */
  method StepGhost(g: Ghost, powerMode: bool, ghostMode: GlobalMode, pacmanPos: Pos) returns (r: Ghost)
    ensures r == GhostStep(g, powerMode, ghostMode)
  {
    var validMoves := ValidMoves(g.pos);
    if |validMoves| == 0 {
      return g;
    }
    var bestMove := BestMove(validMoves, g.pos, g.targetPos, powerMode, pacmanPos);
    r := g.(pos := Add(g.pos, bestMove), mode := if powerMode then Frightened else ghostMode);
  }

  /** `moveGhosts`: step every ghost of the state. */
  method MoveGhosts(s: GameState) returns (r: GameState)
    ensures r == GhostsMoved(s)
  {
    ghost var target := GhostsMoved(s).ghosts;
    var ghosts: seq<Ghost> := [];
    for i := 0 to |s.ghosts|
      invariant ghosts == target[..i]
    {
      var moved := StepGhost(s.ghosts[i], s.powerMode, s.ghostMode, s.pacmanPos);
      assert target[..i + 1] == target[..i] + [target[i]];
      ghosts := ghosts + [moved];
    }
    assert ghosts == target;
    r := s.(ghosts := ghosts);
  }

  /** After `moveGhosts` no ghost that can move is left eaten or in a stale mode. */
  lemma {:induction false} MovedGhostModes(s: GameState)
    requires forall i :: 0 <= i < |s.ghosts| ==> HasLegalMove(s.ghosts[i].pos)
    ensures forall i :: 0 <= i < |s.ghosts| ==>
      GhostsMoved(s).ghosts[i].mode == (if s.powerMode then Frightened else s.ghostMode)
  {
    forall i | 0 <= i < |s.ghosts|
      ensures GhostsMoved(s).ghosts[i].mode == (if s.powerMode then Frightened else s.ghostMode)
    {
      GhostStepSpec(s.ghosts[i], s.powerMode, s.ghostMode);
    }
  }

  /** A ghost that may stand where it is keeps a legal cell after its step. */
  lemma GhostStepKeepsCell(g: Ghost, powerMode: bool, ghostMode: GlobalMode)
    requires GhostCellOk(g.pos)
    ensures GhostCellOk(GhostStep(g, powerMode, ghostMode).pos)
  {
    GhostStepSpec(g, powerMode, ghostMode);
    var r := GhostStep(g, powerMode, ghostMode);
    var d := Taken(g, r);
    if IsOpen(g.pos) {
      StepBack(g.pos, d);
    } else {
      WallSpawn();
    }
  }
}

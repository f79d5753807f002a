/**
 * The collision and scoring stage of a game-loop tick (`checkCollisions`):
 * dots, power pellets, the fruit cell and the first ghost on the player's
 * cell, applied in that order to one state.
 */
module PacmanCollisions {
  import opened PacmanMaze
  import opened PacmanState

  /** The dot stage: +10 for a dot; eating the last one wins the level. */
  function EatDot(s: GameState): (o: Outcome)
    ensures o.state == s.(dots := o.state.dots, score := o.state.score, won := o.state.won, level := o.state.level)
    ensures o.state.dots == s.dots - {s.pacmanPos}
    // the level is won exactly when this call eats the last dot
    ensures o.scheduled == (if s.dots == {s.pacmanPos} then [AdvanceLevel] else [])
    ensures o.state.won == (s.won || s.dots == {s.pacmanPos})
    ensures o.state.level == s.level + (if s.dots == {s.pacmanPos} then 1 else 0)
    ensures o.state.score == s.score + (if s.pacmanPos in s.dots then 10 else 0)
                                     + (if s.dots == {s.pacmanPos} then 100 * (s.level + 1) else 0)
  {
    var p := s.pacmanPos;
    if p in s.dots then
      var ate := s.(dots := s.dots - {p}, score := s.score + 10);
      if ate.dots == {} then
        assert s.dots == {p};
        Outcome(ate.(won := true, level := ate.level + 1, score := ate.score + (ate.level + 1) * 100), [AdvanceLevel])
      else
        assert s.dots != {p};
        Outcome(ate, [])
    else
      Outcome(s, [])
  }

  /** The pellet stage: +50 and eight seconds of power mode. */
  function EatPellet(s: GameState): (r: GameState)
    ensures s.pacmanPos !in s.powerPellets ==> r == s
    ensures s.pacmanPos in s.powerPellets ==>
      && r == s.(powerPellets := r.powerPellets, score := r.score, powerMode := true, powerModeTimer := 8000)
      && r.powerPellets == s.powerPellets - {s.pacmanPos}
      && r.score == s.score + 50
  {
    var p := s.pacmanPos;
    if p in s.powerPellets then
      s.(powerPellets := s.powerPellets - {p}, score := s.score + 50, powerMode := true, powerModeTimer := 8000)
    else s
  }

  /**
   * The fruit stage: standing on the 'F' cell scores 100 per level. The
   * fruit is never removed, so it pays again on every tick spent there.
   */
  function EatFruit(s: GameState): (r: GameState)
    ensures CellAt(s.pacmanPos) != Some('F') ==> r == s
    ensures CellAt(s.pacmanPos) == Some('F') ==>
      r == s.(fruitsEaten := s.fruitsEaten + 1, score := s.score + 100 * s.level)
  {
    if CellAt(s.pacmanPos) == Some('F') then
      s.(fruitsEaten := s.fruitsEaten + 1, score := s.score + 100 * s.level)
    else s
  }

  /** The index of the first ghost standing on `p` (`ghosts.find`, then `indexOf`). */
  function FirstGhostAt(gs: seq<Ghost>, p: Pos): (r: Option<nat>)
    ensures r.None? <==> forall j :: 0 <= j < |gs| ==> gs[j].pos != p
    ensures r.Some? ==> r.value < |gs| && gs[r.value].pos == p
    ensures r.Some? ==> forall j :: 0 <= j < r.value ==> gs[j].pos != p
  {
    if gs == [] then None
    else if gs[0].pos == p then Some(0)
    else
      match FirstGhostAt(gs[1..], p)
      case None => None
      case Some(k) => Some(k + 1)
  }

  /** How many ghosts are in the eaten mode. */
  function EatenCount(gs: seq<Ghost>): (n: nat)
    ensures n <= |gs|
    ensures n == 0 <==> forall j :: 0 <= j < |gs| ==> gs[j].mode != Eaten
  {
    if gs == [] then 0
    else (if gs[0].mode == Eaten then 1 else 0) + EatenCount(gs[1..])
  }

  lemma {:induction false} EatenCountAppend(gs: seq<Ghost>, g: Ghost)
    ensures EatenCount(gs + [g]) == EatenCount(gs) + (if g.mode == Eaten then 1 else 0)
  {
    if gs != [] {
      assert (gs + [g])[1..] == gs[1..] + [g];
      EatenCountAppend(gs[1..], g);
    }
  }

  function Pow2(n: nat): (r: nat)
    ensures r >= 1
  {
    if n == 0 then 1 else 2 * Pow2(n - 1)
  }

  /** The bonus for a captured ghost when `eaten` ghosts are already eaten. */
  function CaptureBonus(eaten: nat): (b: nat)
    ensures b >= 200 && b % 200 == 0
    ensures eaten == 0 ==> b == 200
  {
    200 * Pow2(eaten)
  }

  /** A captured ghost goes home to (10 + i, 9) in the eaten mode. */
  function Captured(s: GameState, i: nat): (r: GameState)
    requires i < |s.ghosts|
    ensures |r.ghosts| == |s.ghosts|
    ensures r == s.(ghosts := r.ghosts, score := s.score + CaptureBonus(EatenCount(s.ghosts)))
    ensures r.ghosts[i] == s.ghosts[i].(pos := HomeCell(i), mode := Eaten)
    ensures forall j :: 0 <= j < |s.ghosts| && j != i ==> r.ghosts[j] == s.ghosts[j]
  {
    s.(score := s.score + CaptureBonus(EatenCount(s.ghosts)),
       ghosts := s.ghosts[i := s.ghosts[i].(pos := HomeCell(i), mode := Eaten)])
  }

  /** A lost life: the game ends at zero lives, else the player and the ghosts respawn. */
  function LifeLost(s: GameState): (o: Outcome)
    ensures o.state.lives == s.lives - 1
    ensures o.state.gameOver == (s.gameOver || s.lives <= 1)
    ensures s.lives <= 1 ==> o == Outcome(s.(lives := s.lives - 1, gameOver := true), [FlushHighScore])
    ensures s.lives > 1 ==> o.scheduled == [] && o.state == s.(
      lives := s.lives - 1, pacmanPos := Spawn, direction := Still, nextDirection := Still,
      ghosts := InitialGhosts(), powerMode := false, powerModeTimer := 0)
  {
    var lives := s.lives - 1;
    if lives <= 0 then
      Outcome(s.(lives := lives, gameOver := true), [FlushHighScore])
    else
      Outcome(s.(lives := lives, pacmanPos := Spawn, direction := Still, nextDirection := Still,
                 ghosts := InitialGhosts(), powerMode := false, powerModeTimer := 0), [])
  }

  /**
   * The ghost stage: only the first ghost on the player's cell counts. In
   * power mode a frightened ghost is captured; a ghost neither frightened
   * nor eaten costs a life; otherwise nothing happens.
   */
  function GhostCollision(s: GameState): (o: Outcome)
    ensures FirstGhostAt(s.ghosts, s.pacmanPos).None? ==> o == Outcome(s, [])
    ensures FirstGhostAt(s.ghosts, s.pacmanPos).Some? ==>
      var i := FirstGhostAt(s.ghosts, s.pacmanPos).value;
      var mode := s.ghosts[i].mode;
      && (s.powerMode && mode == Frightened ==> o == Outcome(Captured(s, i), [RestoreGhost(i)]))
      && (mode != Frightened && mode != Eaten ==> o == LifeLost(s))
      && (mode == Eaten || (!s.powerMode && mode == Frightened) ==> o == Outcome(s, []))
  {
    match FirstGhostAt(s.ghosts, s.pacmanPos)
    case None => Outcome(s, [])
    case Some(i) =>
      var g := s.ghosts[i];
      if s.powerMode && g.mode == Frightened then
        Outcome(Captured(s, i), [RestoreGhost(i)])
      else if g.mode != Frightened && g.mode != Eaten then
        LifeLost(s)
      else
        Outcome(s, [])
  }

  /** `checkCollisions`: the four stages in the source's order. */
  function Collide(s: GameState): Outcome {
    var dot := EatDot(s);
    var fruit := EatFruit(EatPellet(dot.state));
    var hit := GhostCollision(fruit);
    Outcome(hit.state, dot.scheduled + hit.scheduled)
  }

  /** `ghosts.find` over the ghost list, then its index. */
  method FindGhost(gs: seq<Ghost>, p: Pos) returns (r: Option<nat>)
    ensures r == FirstGhostAt(gs, p)
  {
    var i := 0;
    while i < |gs|
      invariant 0 <= i <= |gs|
      invariant forall j :: 0 <= j < i ==> gs[j].pos != p
    {
      if gs[i].pos == p {
        FirstGhostAtUnique(gs, p, i);
        return Some(i);
      }
      i := i + 1;
    }
    return None;
  }

  /** The first ghost on `p` is determined by the list. */
  lemma FirstGhostAtUnique(gs: seq<Ghost>, p: Pos, i: nat)
    requires i < |gs| && gs[i].pos == p
    requires forall j :: 0 <= j < i ==> gs[j].pos != p
    ensures FirstGhostAt(gs, p) == Some(i)
  {
    var r := FirstGhostAt(gs, p);
    assert r.Some?;
    if r.value < i {
    } else if r.value > i {
    }
  }

  /** `ghosts.filter(g => g.mode === 'eaten').length`. */
  method CountEaten(gs: seq<Ghost>) returns (n: nat)
    ensures n == EatenCount(gs)
  {
    n := 0;
    for i := 0 to |gs|
      invariant n == EatenCount(gs[..i])
    {
      assert gs[..i + 1] == gs[..i] + [gs[i]];
      EatenCountAppend(gs[..i], gs[i]);
      if gs[i].mode == Eaten {
        n := n + 1;
      }
    }
    assert gs[..|gs|] == gs;
  }

  /** The ghost stage of `checkCollisions`, with its `find`, `indexOf` and `filter` scans. */
  method CheckGhostCollision(s: GameState) returns (o: Outcome)
    ensures o == GhostCollision(s)
  {
    var hit := FindGhost(s.ghosts, s.pacmanPos);
    if hit.None? {
      return Outcome(s, []);
    }
    var i := hit.value;
    var g := s.ghosts[i];
    if s.powerMode && g.mode == Frightened {
      var eaten := CountEaten(s.ghosts);
      var st := s.(score := s.score + 200 * Pow2(eaten));
      st := st.(ghosts := st.ghosts[i := g.(pos := Pos(10 + i, 9), mode := Eaten)]);
      o := Outcome(st, [RestoreGhost(i)]);
    } else if g.mode != Frightened && g.mode != Eaten {
      var st := s.(lives := s.lives - 1);
      if st.lives <= 0 {
        o := Outcome(st.(gameOver := true), [FlushHighScore]);
      } else {
        var spawn := FindPos('S');
        SpawnCell();
        o := Outcome(st.(pacmanPos := spawn, direction := Still, nextDirection := Still, ghosts := InitialGhosts(),
                         powerMode := false, powerModeTimer := 0), []);
      }
    } else {
      o := Outcome(s, []);
    }
  }

  /** `checkCollisions`: the pickup stages, then the ghost stage; the timeouts they set are collected. */
  method CheckCollisions(s: GameState) returns (o: Outcome)
    ensures o == Collide(s)
  {
    var dot := EatDot(s);
    var st := EatFruit(EatPellet(dot.state));
    var hit := CheckGhostCollision(st);
    o := Outcome(hit.state, dot.scheduled + hit.scheduled);
  }

  // ---------------------------------------------------------------------
  // Properties of a collision step
  // ---------------------------------------------------------------------

  /** The ghost stage leaves the collectibles alone and never lowers the score. */
  lemma GhostCollisionKeepsPickups(s: GameState)
    ensures GhostCollision(s).state.dots == s.dots
    ensures GhostCollision(s).state.powerPellets == s.powerPellets
    ensures GhostCollision(s).state.score >= s.score
    ensures GhostCollision(s).state.level == s.level
  {
  }

  /** Whatever else happens, the player's cell loses its dot and its pellet. */
  lemma CollideClearsCell(s: GameState)
    ensures Collide(s).state.dots == s.dots - {s.pacmanPos}
    ensures Collide(s).state.powerPellets == s.powerPellets - {s.pacmanPos}
  {
    var dot := EatDot(s);
    var fruit := EatFruit(EatPellet(dot.state));
    GhostCollisionKeepsPickups(fruit);
  }

  /** Collisions never lower the score (while the level is positive). */
  lemma CollideScoreGrows(s: GameState)
    requires s.level >= 1
    ensures Collide(s).state.score >= s.score
  {
    var dot := EatDot(s);
    var fruit := EatFruit(EatPellet(dot.state));
    GhostCollisionKeepsPickups(fruit);
  }

  /** The level reset is scheduled exactly when the player eats the last dot. */
  lemma LevelEndScheduled(s: GameState)
    ensures AdvanceLevel in Collide(s).scheduled <==> s.dots == {s.pacmanPos}
  {
    var dot := EatDot(s);
    var hit := GhostCollision(EatFruit(EatPellet(dot.state)));
    assert AdvanceLevel !in hit.scheduled;
  }

  lemma EatDotValid(s: GameState)
    requires Inv(s)
    ensures Inv(EatDot(s).state)
  {
  }

  lemma PickupsValid(s: GameState)
    requires Inv(s)
    ensures Inv(EatFruit(EatPellet(s)))
  {
  }

  lemma CapturedValid(s: GameState, i: nat)
    requires Inv(s) && i < |s.ghosts|
    ensures Inv(Captured(s, i))
  {
    HomeCellOpen(i);
    var r := Captured(s, i);
    forall j | 0 <= j < |r.ghosts|
      ensures GhostCellOk(r.ghosts[j].pos)
    {
      if j != i {
        assert r.ghosts[j] == s.ghosts[j];
      }
    }
  }

  lemma LifeLostValid(s: GameState)
    requires Inv(s)
    ensures Inv(LifeLost(s).state)
  {
    SpawnCell();
    InitialGhostsOk();
  }

  lemma GhostCollisionValid(s: GameState)
    requires Inv(s)
    ensures Inv(GhostCollision(s).state)
  {
    match FirstGhostAt(s.ghosts, s.pacmanPos)
    case None =>
    case Some(i) =>
      if s.powerMode && s.ghosts[i].mode == Frightened {
        CapturedValid(s, i);
      } else if s.ghosts[i].mode != Frightened && s.ghosts[i].mode != Eaten {
        LifeLostValid(s);
      }
  }

  /** Collisions keep the invariant. */
  lemma CollideValid(s: GameState)
    requires Inv(s)
    ensures Inv(Collide(s).state)
  {
    var dot := EatDot(s);
    EatDotValid(s);
    var fruit := EatFruit(EatPellet(dot.state));
    PickupsValid(dot.state);
    GhostCollisionValid(fruit);
  }
}

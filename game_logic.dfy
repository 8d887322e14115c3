/** The peer-to-peer copy of the simulation (utils/gameLogic.ts): the state
    a host creates for a new match, the movement gate, and the step the
    host runs every frame. Every method works on values and is proved
    against the functions of modules Arena and PeerRules. */
module GameLogic {
  import opened Types
  import opened Arena
  import opened Invariants
  import opened PeerRules

  // ---------------------------------------------------------------------
  // The initial state
  // ---------------------------------------------------------------------

  /** The grid part of `createInitialState`: the wall lattice, then a roll
      for a block on every other tile outside the spawn zones. */
  method GenerateGrid(rolls: (int, int) -> real) returns (grid: Grid)
    ensures grid == GeneratedGrid(rolls)
  {
    var rows: seq<seq<Tile>> := [];
    var y := 0;
    while y < ROWS
      invariant 0 <= y <= ROWS && |rows| == y
      invariant forall yy :: 0 <= yy < y ==> rows[yy] == LatticeRow(yy)
    {
      var row: seq<Tile> := [];
      var x := 0;
      while x < COLS
        invariant 0 <= x <= COLS && row == LatticeRow(y)[..x]
      {
        row := row + [if x % 2 == 1 && y % 2 == 1 then Wall else Empty];
        x := x + 1;
      }
      rows := rows + [row];
      y := y + 1;
    }
    y := 0;
    while y < ROWS
      invariant 0 <= y <= ROWS && |rows| == ROWS
      invariant forall yy :: 0 <= yy < y ==> rows[yy] == GeneratedRow(yy, rolls)
      invariant forall yy :: y <= yy < ROWS ==> rows[yy] == LatticeRow(yy)
    {
      var x := 0;
      while x < COLS
        invariant 0 <= x <= COLS && |rows| == ROWS && |rows[y]| == COLS
        invariant forall yy :: 0 <= yy < y ==> rows[yy] == GeneratedRow(yy, rolls)
        invariant forall yy :: y < yy < ROWS ==> rows[yy] == LatticeRow(yy)
        invariant forall xx :: 0 <= xx < x ==> rows[y][xx] == GeneratedTile(xx, y, rolls(xx, y))
        invariant forall xx :: x <= xx < COLS ==> rows[y][xx] == LatticeRow(y)[xx]
      {
        if rows[y][x] == Empty && rolls(x, y) < 0.4 {
          if !InP1Spawn(x, y) && !InP2Spawn(x, y) {
            rows := rows[y := rows[y][x := Block]];
          }
        }
        x := x + 1;
      }
      assert rows[y] == GeneratedRow(y, rolls);
      y := y + 1;
    }
    assert rows == GeneratedGrid(rolls);
    grid := rows;
  }

  /** `createInitialState`: a generated grid, the host at the top-left
      corner and the guest at the bottom-right one, and an empty field.
      The state is sound. */
  method CreateInitialState(hostId: string, clientId: string, rolls: (int, int) -> real) returns (s: GameState)
    ensures s.grid == GeneratedGrid(rolls)
    ensures s.players == StartingPlayers(hostId, clientId)
    ensures s.bombs == [] && s.explosions == [] && s.powerups == []
    ensures s.winner == "" && !s.adVisible
    ensures Sound(s)
  {
    var grid := GenerateGrid(rolls);
    var players: seq<Player>;
    if hostId == clientId {
      players := [Spawned(clientId, COLS - 1, ROWS - 1, P2_COLOR)];
    } else {
      players := [Spawned(hostId, 0, 0, P1_COLOR), Spawned(clientId, COLS - 1, ROWS - 1, P2_COLOR)];
    }
    s := GameState(grid, players, [], [], [], "", false);
    SpawnedShape(hostId, 0, 0, P1_COLOR);
    SpawnedShape(clientId, COLS - 1, ROWS - 1, P2_COLOR);
    assert Lobby(s);
    StartSound(s, rolls);
    assert s.(grid := GeneratedGrid(rolls)) == s;
  }

  // ---------------------------------------------------------------------
  // Movement
  // ---------------------------------------------------------------------

  /** `canMoveTo`: a target on the grid that is neither wall nor block, and
      holds no bomb unless it is the mover's own cell. */
  method CanMoveTo(gx: int, gy: int, grid: Grid, bombs: seq<Bomb>, myId: string, currentGx: int, currentGy: int)
    returns (ok: bool)
    ensures ok <==> CanEnter(grid, bombs, gx, gy, currentGx, currentGy)
  {
    if gx < 0 || gx >= COLS || gy < 0 || gy >= ROWS {
      return false;
    }
    if grid[gy][gx] == Wall || grid[gy][gx] == Block {
      return false;
    }
    var i := 0;
    while i < |bombs|
      invariant 0 <= i <= |bombs|
      invariant forall k :: 0 <= k < i ==> bombs[k].gx != gx || bombs[k].gy != gy
    {
      var b := bombs[i];
      if b.gx == gx && b.gy == gy {
        if gx == currentGx && gy == currentGy {
          return true;
        }
        return false;
      }
      i := i + 1;
    }
    return true;
  }

  /** `bombs.find(...)`: is there a bomb on (gx, gy)? */
  method FindBomb(bombs: seq<Bomb>, gx: int, gy: int) returns (found: bool)
    ensures found <==> BombAt(bombs, gx, gy)
  {
    var i := 0;
    while i < |bombs|
      invariant 0 <= i <= |bombs|
      invariant forall k :: 0 <= k < i ==> bombs[k].gx != gx || bombs[k].gy != gy
    {
      if bombs[i].gx == gx && bombs[i].gy == gy {
        return true;
      }
      i := i + 1;
    }
    return false;
  }

  /** `powerups.findIndex(...)`: the first power-up lying on (gx, gy). */
  method FindPowerup(ups: seq<Powerup>, gx: int, gy: int) returns (r: Option<nat>)
    ensures r == FirstPowerupAt(ups, gx, gy)
  {
    var i := 0;
    while i < |ups|
      invariant 0 <= i <= |ups|
      invariant forall k :: 0 <= k < i ==> !PowerupOn(ups[k], gx, gy)
    {
      if ups[i].gx == gx && ups[i].gy == gy {
        return Some(i);
      }
      i := i + 1;
    }
    return None;
  }

  /** The bomb request of player `j`. */
  method PlaceRequested(s: GameState, inputs: map<string, InputPayload>, j: nat) returns (t: GameState)
    requires j < |s.players|
    ensures t == PeerPlace(s, inputs, j)
  {
    t := s;
    var p := s.players[j];
    if p.id in inputs && inputs[p.id].placeBomb && p.lives > 0 {
      var bombAtLoc := FindBomb(s.bombs, p.gx, p.gy);
      if !bombAtLoc && p.activeBombs < p.maxBombs {
        t := s.(bombs := s.bombs + [Bomb(p.gx, p.gy, p.id, BOMB_TIMER, p.range)],
                players := s.players[j := p.(activeBombs := p.activeBombs + 1)]);
      }
    }
  }

  /** The step start of player `j`. */
  method StartRequested(s: GameState, inputs: map<string, InputPayload>, j: nat) returns (t: GameState)
    requires j < |s.players|
    ensures t == PeerStart(s, inputs, j)
  {
    t := s;
    var p := s.players[j];
    if p.id in inputs && p.lives > 0 {
      var input := inputs[p.id];
      if !p.moving && (input.dx != 0 || input.dy != 0) {
        var newGx, newGy := p.gx + input.dx, p.gy + input.dy;
        var ok := CanMoveTo(newGx, newGy, s.grid, s.bombs, p.id, p.gx, p.gy);
        if ok {
          p := p.(moving := true, gx := newGx, gy := newGy, targetX := Centre(newGx), targetY := Centre(newGy));
        }
      }
      t := s.(players := s.players[j := p]);
    }
  }

  /** Interpolation of player `j`, with the pick-up on arrival. The
      distance is the Euclidean one, which on a sound state (see predicate
      Sound) is `Dist`. */
  method Interpolate(s: GameState, dt: real, j: nat) returns (t: GameState)
    requires j < |s.players|
    ensures t == PeerAdvance(s, dt, j)
  {
    var q, arrived := GlidePlayer(s.players[j], dt);
    PeerAdvanceCases(s, dt, j);
    t := s.(players := s.players[j := q]);
    if arrived {
      t := PickUpPowerup(t, j);
    }
  }

  /** The pixel interpolation of one player: the Euclidean distance (which
      on a sound state is `Dist`) is compared with this step's travel; the
      player snaps to the target on arrival and otherwise moves towards it. */
  method GlidePlayer(p: Player, dt: real) returns (q: Player, arrived: bool)
    ensures q == Glide(p, dt)
    ensures arrived == Arrives(p, dt)
  {
    q, arrived := p, false;
    if p.moving {
      var moveSpeed := MoveSpeed(p.speed);
      var ddx, ddy := p.targetX - p.x, p.targetY - p.y;
      var dist := Dist(p);
      if dist < moveSpeed * dt {
        q := p.(x := p.targetX, y := p.targetY, moving := false);
        arrived := true;
      } else if dist != 0.0 {
        q := p.(x := p.x + (ddx / dist) * moveSpeed * dt, y := p.y + (ddy / dist) * moveSpeed * dt);
      }
    }
  }

  /** The two outcomes of `PeerAdvance`, with the glide spelled out. */
  lemma PeerAdvanceCases(s: GameState, dt: real, j: nat)
    requires j < |s.players|
    ensures var q := s.players[j];
      var glided := s.(players := s.players[j := Glide(q, dt)]);
      && (Arrives(q, dt) ==>
            && Glide(q, dt) == q.(x := q.targetX, y := q.targetY, moving := false)
            && PeerAdvance(s, dt, j) == PickUpFound(glided, j, FirstPowerupAt(glided.powerups, glided.players[j].gx, glided.players[j].gy)))
      && (!Arrives(q, dt) ==> PeerAdvance(s, dt, j) == glided)
  {
  }

  /** The pick-up on arrival: the first power-up on player `j`'s cell is
      collected and removed. */
  method PickUpPowerup(s: GameState, j: nat) returns (t: GameState)
    requires j < |s.players|
    ensures t == PickUpFound(s, j, FirstPowerupAt(s.powerups, s.players[j].gx, s.players[j].gy))
  {
    t := s;
    var p := s.players[j];
    var pIndex := FindPowerup(s.powerups, p.gx, p.gy);
    if pIndex.Some? {
      var u := s.powerups[pIndex.value];
      t := s.(players := s.players[j := Collect(p, u.kind)], powerups := Remove(s.powerups, pIndex.value),
              adVisible := s.adVisible || u.kind == Unox);
    }
  }

  /** Player `j`'s part of a step (the body of the first `forEach`). */
  method UpdatePlayer(s: GameState, dt: real, inputs: map<string, InputPayload>, j: nat) returns (t: GameState)
    requires j < |s.players|
    ensures t == PeerTurn(s, dt, inputs, j)
  {
    t := PlaceRequested(s, inputs, j);
    t := StartRequested(t, inputs, j);
    t := Interpolate(t, dt, j);
    var p := t.players[j];
    if p.invincibleTimer > 0.0 {
      p := p.(invincibleTimer := p.invincibleTimer - dt);
    }
    t := t.(players := t.players[j := p]);
  }

  /** The first phase of a step: every player's part, in key order. */
  method UpdatePlayers(s: GameState, dt: real, inputs: map<string, InputPayload>) returns (t: GameState)
    ensures t == PeerTurns(s, dt, inputs, 0)
  {
    t := s;
    var j := 0;
    while j < |t.players|
      invariant 0 <= j <= |t.players| && |t.players| == |s.players|
      invariant PeerTurns(t, dt, inputs, j) == PeerTurns(s, dt, inputs, 0)
    {
      t := UpdatePlayer(t, dt, inputs, j);
      j := j + 1;
    }
  }

  // ---------------------------------------------------------------------
  // Bombs
  // ---------------------------------------------------------------------

  /** One arm of a blast from (ox, oy): distances 1 to `range` in direction
      `d`, with the spawn roll for a destroyed block. */
  method SpreadRay(s: GameState, ox: int, oy: int, d: Dir, range: int, rolls: (int, int) -> real) returns (t: GameState)
    ensures t == Ray(s, ox, oy, d, 1, range, rolls)
  {
    t := s;
    var r := 1;
    while r <= range
      invariant Ray(t, ox, oy, d, r, range, rolls) == Ray(s, ox, oy, d, 1, range, rolls)
      decreases range - r
    {
      var ex, ey := RayX(ox, d, r), RayY(oy, d, r);
      if ex < 0 || ex >= COLS || ey < 0 || ey >= ROWS {
        break;
      }
      if t.grid[ey][ex] == Wall {
        break;
      }
      ghost var before := t;
      t := t.(explosions := t.explosions + [Explosion(ex, ey, EXPLOSION_TIMER)]);
      if t.grid[ey][ex] == Block {
        t := t.(grid := SetTile(t.grid, ex, ey, Empty));
        var rand := rolls(ex, ey);
        var pType: Option<PowerupKind> := None;
        if rand < 0.15 {
          pType := Some(ExtraBomb);
        } else if rand < 0.30 {
          pType := Some(ExtraRange);
        } else if rand < 0.40 {
          pType := Some(ExtraSpeed);
        } else if rand < 0.42 {
          pType := Some(Unox);
        }
        if pType.Some? {
          t := t.(powerups := t.powerups + [Powerup(ex, ey, pType.value)]);
        }
        assert t == Ray(before, ox, oy, d, r, range, rolls);
        return;
      }
      r := r + 1;
    }
  }

  /** One iteration of the fuse loop, on bomb `i`: a bomb whose fuse is out
      gives its owner the bomb back, leaves the list, and explodes on its
      cell and along the four arms. */
  method BurnFuse(s: GameState, i: nat, dt: real, rolls: (int, int) -> real) returns (t: GameState)
    requires i < |s.bombs|
    ensures t == PeerFuseStep(s, i, dt, rolls)
  {
    var bomb := s.bombs[i].(timer := s.bombs[i].timer - dt);
    t := s.(bombs := s.bombs[i := bomb]);
    if bomb.timer <= 0.0 {
      t := s;
      var owner := IndexOf(t.players, bomb.ownerId);
      if owner.Some? {
        var k := owner.value;
        t := t.(players := t.players[k := t.players[k].(activeBombs := t.players[k].activeBombs - 1)]);
      }
      t := t.(bombs := Remove(s.bombs, i));
      assert t == ReleaseOwner(s.(bombs := Remove(s.bombs, i)), bomb.ownerId);
      t := t.(explosions := t.explosions + [Explosion(bomb.gx, bomb.gy, EXPLOSION_TIMER)]);
      ghost var t0 := t;
      var k := 0;
      while k < |Dirs|
        invariant 0 <= k <= |Dirs|
        invariant Rays(t, bomb.gx, bomb.gy, bomb.range, k, rolls) == Rays(t0, bomb.gx, bomb.gy, bomb.range, 0, rolls)
      {
        t := SpreadRay(t, bomb.gx, bomb.gy, Dirs[k], bomb.range, rolls);
        k := k + 1;
      }
    }
  }

  /** The second phase of a step: every fuse burns, from the last bomb to
      the first. */
  method UpdateBombs(s: GameState, dt: real, rolls: (int, int) -> real) returns (t: GameState)
    ensures t == PeerFuses(s, |s.bombs|, dt, rolls)
  {
    t := s;
    var i := |t.bombs|;
    while i > 0
      invariant 0 <= i <= |t.bombs|
      invariant PeerFuses(t, i, dt, rolls) == PeerFuses(s, |s.bombs|, dt, rolls)
    {
      i := i - 1;
      t := BurnFuse(t, i, dt, rolls);
    }
  }

  // ---------------------------------------------------------------------
  // Explosions
  // ---------------------------------------------------------------------

  /** `Object.keys(players).find(key => key !== id)`. */
  method FindOther(players: seq<Player>, id: string) returns (r: Option<string>)
    ensures r == FirstOther(players, id)
  {
    var i := 0;
    while i < |players|
      invariant 0 <= i <= |players|
      invariant FirstOther(players[i..], id) == FirstOther(players, id)
    {
      if players[i].id != id {
        return Some(players[i].id);
      }
      assert players[i..][1..] == players[i + 1..];
      i := i + 1;
    }
    return None;
  }

  /** Explosion `e` against every player, in key order. */
  method StrikePlayers(s: GameState, e: Explosion) returns (t: GameState)
    ensures t == PeerDamage(s, e, 0)
  {
    t := s;
    var j := 0;
    while j < |t.players|
      invariant 0 <= j <= |t.players| && |t.players| == |s.players|
      invariant PeerDamage(t, e, j) == PeerDamage(s, e, 0)
    {
      ghost var t0 := t;
      var player := t.players[j];
      if player.lives > 0 && player.invincibleTimer <= 0.0 && player.gx == e.gx && player.gy == e.gy {
        player := player.(lives := player.lives - 1, invincibleTimer := HIT_IMMUNITY);
        t := t.(players := t.players[j := player]);
        if player.lives <= 0 {
          var otherPid := FindOther(t.players, player.id);
          if otherPid.Some? && otherPid.value != "" {
            t := t.(winner := otherPid.value);
          }
        }
      }
      assert t == PeerHit(t0, e, j);
      j := j + 1;
    }
  }

  /** The third phase of a step: every explosion burns, from the last to the
      first; a spent one is removed, a live one strikes. */
  method UpdateExplosions(s: GameState, dt: real) returns (t: GameState)
    ensures t == PeerBurns(s, |s.explosions|, dt)
  {
    t := s;
    var i := |t.explosions|;
    while i > 0
      invariant 0 <= i <= |t.explosions|
      invariant PeerBurns(t, i, dt) == PeerBurns(s, |s.explosions|, dt)
    {
      i := i - 1;
      ghost var t0 := t;
      var exp := t.explosions[i].(timer := t.explosions[i].timer - dt);
      if exp.timer <= 0.0 {
        t := t.(explosions := Remove(t.explosions, i));
      } else {
        t := t.(explosions := t.explosions[i := exp]);
        t := StrikePlayers(t, exp);
      }
      assert t == PeerBurn(t0, i, dt);
      assert PeerBurns(t0, i + 1, dt) == PeerBurns(t, i, dt);
    }
  }

  // ---------------------------------------------------------------------
  // The step
  // ---------------------------------------------------------------------

  /** `updateGame`: a state with a winner is returned as it is; otherwise
      the three phases run and the banner may hide. On a sound state with
      inputs along one axis (a precondition of this model: the peer copy
      has no caller that fixes its inputs) the result is sound again. */
  method UpdateGame(state: GameState, dt: real, inputs: map<string, InputPayload>,
                    rolls: (int, int) -> real, adRoll: real) returns (next: GameState)
    requires Sound(state) && Axial(inputs)
    ensures next == PeerStep(state, dt, inputs, rolls, adRoll)
    ensures state.winner != "" ==> next == state
    ensures Sound(next)
  {
    PeerStepSound(state, dt, inputs, rolls, adRoll);
    if state.winner != "" {
      return state;
    }
    var s := UpdatePlayers(state, dt, inputs);
    s := UpdateBombs(s, dt, rolls);
    s := UpdateExplosions(s, dt);
    if s.adVisible && adRoll < 0.01 {
      s := s.(adVisible := false);
    }
    next := s;
  }
}

/** What every reachable state of the simulation satisfies, and the proofs
    that the shared rules of module Arena keep it. */
module Invariants {
  import opened Types
  import opened Arena

  // ---------------------------------------------------------------------
  // The invariant
  // ---------------------------------------------------------------------

  /** A cell on the grid that is free ground. */
  predicate OpenCell(grid: Grid, gx: int, gy: int) {
    InBounds(gx, gy) && TileAt(grid, gx, gy) == Empty
  }

  /** The permanent wall lattice: a wall exactly on every (odd, odd) cell. */
  ghost predicate WallLattice(grid: Grid) {
    forall x, y :: InBounds(x, y) ==> (TileAt(grid, x, y) == Wall <==> IsWallCell(x, y))
  }

  predicate OneBombPerCell(bombs: seq<Bomb>) {
    forall i, j :: 0 <= i < j < |bombs| ==> bombs[i].gx != bombs[j].gx || bombs[i].gy != bombs[j].gy
  }

  predicate OnePowerupPerCell(ups: seq<Powerup>) {
    forall i, j :: 0 <= i < j < |ups| ==> ups[i].gx != ups[j].gx || ups[i].gy != ups[j].gy
  }

  /** Where things may be: both spawn points are free ground; players, bombs, explosions and power-ups all lie
      on free ground, and no two bombs and no two power-ups share a cell. */
  ghost predicate Spatial(g: GameState) {
    && WallLattice(g.grid)
    && OpenCell(g.grid, 0, 0) && OpenCell(g.grid, COLS - 1, ROWS - 1)
    && (forall i :: 0 <= i < |g.players| ==> OpenCell(g.grid, g.players[i].gx, g.players[i].gy))
    && (forall i :: 0 <= i < |g.bombs| ==> OpenCell(g.grid, g.bombs[i].gx, g.bombs[i].gy))
    && OneBombPerCell(g.bombs)
    && (forall i :: 0 <= i < |g.explosions| ==> OpenCell(g.grid, g.explosions[i].gx, g.explosions[i].gy))
    && (forall i :: 0 <= i < |g.powerups| ==> OpenCell(g.grid, g.powerups[i].gx, g.powerups[i].gy))
    && OnePowerupPerCell(g.powerups)
  }

  /** A player's own consistency: its pixel target is the centre of its
      logical cell, it is displaced from the target along one axis only
      (and not at all when it stands still), its speed level is within
      1..3 and its bombs out are within its allowance. */
  predicate PlayerShape(p: Player) {
    && p.targetX == Centre(p.gx) && p.targetY == Centre(p.gy)
    && (p.x == p.targetX || p.y == p.targetY)
    && (!p.moving ==> p.x == p.targetX && p.y == p.targetY)
    && 1 <= p.speed <= MAX_SPEED
    && 0 <= p.activeBombs <= p.maxBombs
  }

  /** The number of bombs in `bombs` owned by `id`. */
  ghost function Owned(bombs: seq<Bomb>, id: string): nat {
    if |bombs| == 0 then 0
    else Owned(bombs[..|bombs| - 1], id) + (if bombs[|bombs| - 1].ownerId == id then 1 else 0)
  }

  /** Every player's `activeBombs` is the number of live bombs it owns. */
  ghost predicate Accounted(players: seq<Player>, bombs: seq<Bomb>) {
    forall i :: 0 <= i < |players| ==> players[i].activeBombs == Owned(bombs, players[i].id)
  }

  predicate AllShaped(players: seq<Player>) {
    forall i :: 0 <= i < |players| ==> PlayerShape(players[i])
  }

  ghost predicate Sound(g: GameState) {
    && Spatial(g)
    && DistinctIds(g.players)
    && AllShaped(g.players)
    && Accounted(g.players, g.bombs)
  }

  // ---------------------------------------------------------------------
  // Grid generation
  // ---------------------------------------------------------------------

  /** A generated grid has the wall lattice, has a block exactly where the
      roll was below 0.4 on a non-wall cell outside both spawn zones, and so
      has no block in either spawn zone. */
  lemma GeneratedGridLayout(rolls: (int, int) -> real)
    ensures WallLattice(GeneratedGrid(rolls))
    ensures forall x, y :: InBounds(x, y) ==>
      (TileAt(GeneratedGrid(rolls), x, y) == Block <==>
        !IsWallCell(x, y) && rolls(x, y) < 0.4 && !InP1Spawn(x, y) && !InP2Spawn(x, y))
    ensures forall x, y :: InBounds(x, y) && (InP1Spawn(x, y) || InP2Spawn(x, y)) ==>
      TileAt(GeneratedGrid(rolls), x, y) != Block
  {
    var g := GeneratedGrid(rolls);
    forall x, y | InBounds(x, y) ensures TileAt(g, x, y) == GeneratedTile(x, y, rolls(x, y)) {
    }
  }

  /** Both spawn cells are free ground on a generated grid. */
  lemma SpawnCellsOpen(rolls: (int, int) -> real)
    ensures OpenCell(GeneratedGrid(rolls), 0, 0)
    ensures OpenCell(GeneratedGrid(rolls), COLS - 1, ROWS - 1)
  {
    assert TileAt(GeneratedGrid(rolls), 0, 0) == GeneratedTile(0, 0, rolls(0, 0));
    assert TileAt(GeneratedGrid(rolls), COLS - 1, ROWS - 1) == GeneratedTile(COLS - 1, ROWS - 1, rolls(COLS - 1, ROWS - 1));
  }

  // ---------------------------------------------------------------------
  // Counting bombs
  // ---------------------------------------------------------------------

  lemma OwnedAppend(bombs: seq<Bomb>, b: Bomb, id: string)
    ensures Owned(bombs + [b], id) == Owned(bombs, id) + (if b.ownerId == id then 1 else 0)
  {
    assert (bombs + [b])[..|bombs|] == bombs;
  }

  lemma {:induction false} OwnedRemove(bombs: seq<Bomb>, i: nat, id: string)
    requires i < |bombs|
    ensures Owned(Remove(bombs, i), id) + (if bombs[i].ownerId == id then 1 else 0) == Owned(bombs, id)
    decreases |bombs|
  {
    var n := |bombs|;
    if i == n - 1 {
      assert Remove(bombs, i) == bombs[..n - 1];
    } else {
      var front := bombs[..n - 1];
      OwnedRemove(front, i, id);
      assert Remove(bombs, i) == Remove(front, i) + [bombs[n - 1]];
      OwnedAppend(Remove(front, i), bombs[n - 1], id);
    }
  }

  lemma {:induction false} OwnedReplace(bombs: seq<Bomb>, i: nat, b: Bomb, id: string)
    requires i < |bombs| && b.ownerId == bombs[i].ownerId
    ensures Owned(bombs[i := b], id) == Owned(bombs, id)
    decreases |bombs|
  {
    var n := |bombs|;
    if i == n - 1 {
      assert bombs[i := b][..n - 1] == bombs[..n - 1];
    } else {
      OwnedReplace(bombs[..n - 1], i, b, id);
      assert bombs[i := b][..n - 1] == bombs[..n - 1][i := b];
    }
  }

  // ---------------------------------------------------------------------
  // Replacing one player
  // ---------------------------------------------------------------------

  /** A sound state stays sound when one player is replaced by a consistent
      player with the same id and the same bombs out on free ground. */
  lemma ReplacePlayerSound(g: GameState, j: nat, p: Player)
    requires Sound(g) && j < |g.players|
    requires p.id == g.players[j].id && p.activeBombs == g.players[j].activeBombs
    requires OpenCell(g.grid, p.gx, p.gy) && PlayerShape(p)
    ensures Sound(g.(players := g.players[j := p]))
  {
  }

  // ---------------------------------------------------------------------
  // Movement
  // ---------------------------------------------------------------------

  /** The bomb exception of the movement gate never applies to a real step:
      a step with a non-zero offset never enters a cell holding a bomb. */
  lemma StepNeverOntoBomb(grid: Grid, bombs: seq<Bomb>, gx: int, gy: int, dx: int, dy: int)
    requires dx != 0 || dy != 0
    requires CanEnter(grid, bombs, gx + dx, gy + dy, gx, gy)
    ensures !BombAt(bombs, gx + dx, gy + dy)
  {
  }

  /** A step starts only for a player standing still, with a non-zero
      offset that the gate allows. It commits the logical cell at once,
      onto free ground without a bomb, and aims at the centre `g * 40 + 20`
      of the new cell, leaving the pixel position for interpolation.
      Otherwise the player is unchanged. */
  lemma StartStepCommits(p: Player, grid: Grid, bombs: seq<Bomb>, dx: int, dy: int)
    ensures var q := StartStep(p, grid, bombs, dx, dy);
      if !p.moving && (dx != 0 || dy != 0) && CanEnter(grid, bombs, p.gx + dx, p.gy + dy, p.gx, p.gy)
      then && q.moving && q.gx == p.gx + dx && q.gy == p.gy + dy
           && q.targetX == (q.gx * 40 + 20) as real && q.targetY == (q.gy * 40 + 20) as real
           && q.x == p.x && q.y == p.y
           && OpenCell(grid, q.gx, q.gy) && !BombAt(bombs, q.gx, q.gy)
      else q == p
  {
    if !p.moving && (dx != 0 || dy != 0) && CanEnter(grid, bombs, p.gx + dx, p.gy + dy, p.gx, p.gy) {
      StepNeverOntoBomb(grid, bombs, p.gx, p.gy, dx, dy);
    }
  }

  /** An axis-aligned step keeps a player consistent and on free ground. */
  lemma StartStepSound(p: Player, grid: Grid, bombs: seq<Bomb>, dx: int, dy: int)
    requires PlayerShape(p) && OpenCell(grid, p.gx, p.gy)
    requires dx == 0 || dy == 0
    ensures PlayerShape(StartStep(p, grid, bombs, dx, dy))
    ensures OpenCell(grid, StartStep(p, grid, bombs, dx, dy).gx, StartStep(p, grid, bombs, dx, dy).gy)
  {
  }

  /** Interpolation keeps a player consistent and does not change its cell. */
  lemma GlideShape(p: Player, dt: real)
    requires PlayerShape(p)
    ensures PlayerShape(Glide(p, dt))
    ensures Glide(p, dt).gx == p.gx && Glide(p, dt).gy == p.gy
  {
    if p.moving && !Arrives(p, dt) && Dist(p) != 0.0 {
      var dist := Dist(p);
      if p.x == p.targetX {
        assert (p.targetX - p.x) / dist == 0.0;
      } else {
        assert (p.targetY - p.y) / dist == 0.0;
      }
    }
  }

  /** On a consistent player the model's distance is the Euclidean length
      `Math.sqrt(dx * dx + dy * dy)` of the source. */
  lemma DistIsEuclidean(p: Player)
    requires PlayerShape(p)
    ensures Dist(p) >= 0.0
    ensures Dist(p) * Dist(p) == (p.targetX - p.x) * (p.targetX - p.x) + (p.targetY - p.y) * (p.targetY - p.y)
  {
  }

  // ---------------------------------------------------------------------
  // Power-ups
  // ---------------------------------------------------------------------

  /** The speed cap: collecting never takes the level above 3 or below what
      it was, and the combo raises bomb allowance and range even at the cap. */
  lemma CollectCapsSpeed(p: Player, kind: PowerupKind)
    requires p.speed <= MAX_SPEED
    ensures var q := Collect(p, kind);
      && p.speed <= q.speed <= MAX_SPEED
      && q.maxBombs >= p.maxBombs && q.range >= p.range
      && (kind == Unox ==> q.maxBombs == p.maxBombs + 1 && q.range == p.range + 1)
      && (kind == Unox && p.speed == MAX_SPEED ==> q.speed == MAX_SPEED)
  {
  }

  lemma CollectShape(p: Player, kind: PowerupKind)
    requires PlayerShape(p)
    ensures PlayerShape(Collect(p, kind))
    ensures Collect(p, kind).gx == p.gx && Collect(p, kind).gy == p.gy
    ensures Collect(p, kind).id == p.id && Collect(p, kind).activeBombs == p.activeBombs
  {
  }

  lemma PickUpSound(g: GameState, j: nat, found: Option<nat>)
    requires Sound(g) && j < |g.players|
    requires found.Some? ==> found.value < |g.powerups|
    ensures Sound(PickUpFound(g, j, found))
  {
    if found.Some? {
      var k := found.value;
      CollectShape(g.players[j], g.powerups[k].kind);
      var r := PickUpFound(g, j, found);
      forall a, b | 0 <= a < b < |r.powerups|
        ensures r.powerups[a].gx != r.powerups[b].gx || r.powerups[a].gy != r.powerups[b].gy
      {
        var a', b' := if a < k then a else a + 1, if b < k then b else b + 1;
        assert r.powerups[a] == g.powerups[a'] && r.powerups[b] == g.powerups[b'];
      }
    }
  }

  /** On a sound state at most one power-up lies on a cell, so the server's
      scan from the end and the peer copy's `findIndex` pick the same one. */
  lemma PickUpSearchesAgree(ups: seq<Powerup>, gx: int, gy: int)
    requires OnePowerupPerCell(ups)
    ensures FirstPowerupAt(ups, gx, gy) == LastPowerupAt(ups, gx, gy)
  {
  }

  // ---------------------------------------------------------------------
  // Bomb placement
  // ---------------------------------------------------------------------

  /** Placement keeps the state sound: the new bomb lies on its owner's free
      cell, shares it with no other bomb, and the owner's count goes up with
      it. */
  lemma PlaceBombSound(g: GameState, j: nat)
    requires Sound(g) && j < |g.players|
    ensures Sound(PlaceBomb(g, j))
  {
    var p := g.players[j];
    if !BombAt(g.bombs, p.gx, p.gy) && p.activeBombs < p.maxBombs {
      var r := PlaceBomb(g, j);
      var b := Bomb(p.gx, p.gy, p.id, BOMB_TIMER, p.range);
      forall i | 0 <= i < |r.players|
        ensures r.players[i].activeBombs == Owned(r.bombs, r.players[i].id)
      {
        OwnedAppend(g.bombs, b, r.players[i].id);
      }
    }
  }

  // ---------------------------------------------------------------------
  // Explosions
  // ---------------------------------------------------------------------

  /** Clearing a block keeps everything on free ground and leaves the wall
      lattice alone; no power-up lay on the block. */
  lemma ClearBlockSpatial(g: GameState, ex: int, ey: int)
    requires Spatial(g) && InBounds(ex, ey) && TileAt(g.grid, ex, ey) == Block
    ensures Spatial(g.(grid := SetTile(g.grid, ex, ey, Empty)))
    ensures forall i :: 0 <= i < |g.powerups| ==> !PowerupOn(g.powerups[i], ex, ey)
  {
  }

  /** An explosion on free ground keeps the spatial invariant. */
  lemma FreeTileSpatial(g: GameState, ex: int, ey: int)
    requires Spatial(g) && OpenCell(g.grid, ex, ey)
    ensures Spatial(AddExplosion(g, ex, ey))
  {
    var g1 := AddExplosion(g, ex, ey);
    assert forall i :: 0 <= i < |g.explosions| ==> g1.explosions[i] == g.explosions[i];
  }

  /** A ray's last tile, a block: it is cleared, explodes, and may leave a
      power-up, all keeping the spatial invariant. */
  lemma BlockHitSpatial(g: GameState, ex: int, ey: int, roll: real)
    requires Spatial(g) && InBounds(ex, ey) && TileAt(g.grid, ex, ey) == Block
    ensures Spatial(SpawnPowerup(AddExplosion(g, ex, ey).(grid := SetTile(g.grid, ex, ey, Empty)), ex, ey, roll))
  {
    ClearBlockSpatial(g, ex, ey);
    var g1 := g.(grid := SetTile(g.grid, ex, ey, Empty));
    FreeTileSpatial(g1, ex, ey);
    var g2 := AddExplosion(g1, ex, ey);
    assert g2 == AddExplosion(g, ex, ey).(grid := SetTile(g.grid, ex, ey, Empty));
    match RolledPowerup(roll)
    case None =>
    case Some(k) =>
      var ups := g2.powerups + [Powerup(ex, ey, k)];
      assert forall i :: 0 <= i < |ups| - 1 ==> ups[i] == g.powerups[i];
  }

  lemma {:induction false} RaySpatial(g: GameState, ox: int, oy: int, d: Dir, r: int, range: int, rolls: (int, int) -> real)
    requires Spatial(g)
    ensures Spatial(Ray(g, ox, oy, d, r, range, rolls))
    decreases range - r
  {
    if r <= range {
      var ex, ey := RayX(ox, d, r), RayY(oy, d, r);
      if InBounds(ex, ey) && TileAt(g.grid, ex, ey) != Wall {
        if TileAt(g.grid, ex, ey) == Block {
          BlockHitSpatial(g, ex, ey, rolls(ex, ey));
        } else {
          FreeTileSpatial(g, ex, ey);
          RaySpatial(AddExplosion(g, ex, ey), ox, oy, d, r + 1, range, rolls);
        }
      }
    }
  }

  lemma {:induction false} RaysSpatial(g: GameState, ox: int, oy: int, range: int, k: nat, rolls: (int, int) -> real)
    requires Spatial(g) && k <= |Dirs|
    ensures Spatial(Rays(g, ox, oy, range, k, rolls))
    decreases |Dirs| - k
  {
    if k < |Dirs| {
      RaySpatial(g, ox, oy, Dirs[k], 1, range, rolls);
      RaysSpatial(Ray(g, ox, oy, Dirs[k], 1, range, rolls), ox, oy, range, k + 1, rolls);
    }
  }

  /** Burning a fuse changes neither a bomb's cell nor its owner. */
  lemma FuseTimerSound(g: GameState, i: nat, b: Bomb)
    requires Sound(g) && i < |g.bombs|
    requires b.gx == g.bombs[i].gx && b.gy == g.bombs[i].gy && b.ownerId == g.bombs[i].ownerId
    ensures Sound(g.(bombs := g.bombs[i := b]))
  {
    forall id: string { OwnedReplace(g.bombs, i, b, id); }
  }

  /** Handing a detonated bomb back to its owner and dropping it from the
      list keeps every count right. */
  lemma ReleaseAccounted(g: GameState, i: nat)
    requires Sound(g) && i < |g.bombs|
    ensures var r := ReleaseOwner(g, g.bombs[i].ownerId);
      && |r.players| == |g.players|
      && (forall k :: 0 <= k < |r.players| ==> r.players[k].gx == g.players[k].gx && r.players[k].gy == g.players[k].gy)
      && DistinctIds(r.players) && AllShaped(r.players)
      && Accounted(r.players, Remove(g.bombs, i))
  {
    forall id: string { OwnedRemove(g.bombs, i, id); }
  }

  lemma RemoveBombSpatial(g: GameState, i: nat)
    requires Spatial(g) && i < |g.bombs|
    ensures Spatial(g.(bombs := Remove(g.bombs, i)))
  {
    var r := Remove(g.bombs, i);
    forall a, c | 0 <= a < c < |r|
      ensures r[a].gx != r[c].gx || r[a].gy != r[c].gy
    {
      var a', c' := if a < i then a else a + 1, if c < i then c else c + 1;
      assert r[a] == g.bombs[a'] && r[c] == g.bombs[c'];
    }
  }

  /** A detonation keeps everything on free ground. */
  lemma DetonateSpatial(g: GameState, b: Bomb, rolls: (int, int) -> real)
    requires Spatial(g) && OpenCell(g.grid, b.gx, b.gy)
    ensures Spatial(Detonate(g, b, rolls))
    ensures Detonate(g, b, rolls).players == ReleaseOwner(g, b.ownerId).players
  {
    var ga := AddExplosion(ReleaseOwner(g, b.ownerId), b.gx, b.gy);
    RaysSpatial(ga, b.gx, b.gy, b.range, 0, rolls);
  }

  /** A fuse step keeps the state sound: a detonating bomb leaves, its owner
      (if still present) gets the bomb back, and every explosion and
      power-up it makes lies on free ground. */
  lemma FuseStepSound(g: GameState, i: nat, dt: real, rolls: (int, int) -> real)
    requires Sound(g) && i < |g.bombs|
    ensures Sound(FuseStep(g, i, dt, rolls))
  {
    var b := g.bombs[i].(timer := g.bombs[i].timer - dt);
    var g1 := g.(bombs := g.bombs[i := b]);
    FuseTimerSound(g, i, b);
    FuseStepCases(g, i, dt, rolls);
    if b.timer <= 0.0 {
      DetonateRemoveSound(g1, i, rolls);
    }
  }

  /** The two outcomes of a fuse step, spelled out over the state with the
      timer already counted down. */
  lemma FuseStepCases(g: GameState, i: nat, dt: real, rolls: (int, int) -> real)
    requires i < |g.bombs|
    ensures var b := g.bombs[i].(timer := g.bombs[i].timer - dt);
      var g1 := g.(bombs := g.bombs[i := b]);
      && g1.bombs[i] == b
      && (b.timer <= 0.0 ==>
            (var g2 := Detonate(g1, g1.bombs[i], rolls); FuseStep(g, i, dt, rolls) == g2.(bombs := Remove(g2.bombs, i))))
      && (b.timer > 0.0 ==> FuseStep(g, i, dt, rolls) == g1)
  {
  }

  /** A bomb whose fuse runs out leaves the list, and the first player
      carrying its owner's id gets the bomb back; a bomb still burning stays
      at its index with the shorter fuse, and no player changes. */
  lemma FuseStepReleases(g: GameState, i: nat, dt: real, rolls: (int, int) -> real)
    requires i < |g.bombs|
    ensures var b, res := g.bombs[i], FuseStep(g, i, dt, rolls);
      if b.timer - dt <= 0.0 then
        && res.bombs == Remove(g.bombs, i)
        && forall k :: 0 <= k < |g.players| ==>
             res.players[k].activeBombs == g.players[k].activeBombs - (if IndexOf(g.players, b.ownerId) == Some(k) then 1 else 0)
      else
        && res.bombs == g.bombs[i := b.(timer := b.timer - dt)]
        && res.players == g.players
  {
    var b := g.bombs[i].(timer := g.bombs[i].timer - dt);
    var g1 := g.(bombs := g.bombs[i := b]);
    FuseStepCases(g, i, dt, rolls);
    if b.timer <= 0.0 {
      var g0 := ReleaseOwner(g1, b.ownerId);
      var g2 := Detonate(g1, b, rolls);
      assert g2.players == Rays(AddExplosion(g0, b.gx, b.gy), b.gx, b.gy, b.range, 0, rolls).players == g0.players;
    }
  }

  /** Bomb `i` going off and leaving the list keeps the state sound. */
  lemma DetonateRemoveSound(g: GameState, i: nat, rolls: (int, int) -> real)
    requires Sound(g) && i < |g.bombs|
    ensures var g2 := Detonate(g, g.bombs[i], rolls); Sound(g2.(bombs := Remove(g2.bombs, i)))
  {
    var b := g.bombs[i];
    var g2 := Detonate(g, b, rolls);
    DetonateSpatial(g, b, rolls);
    RemoveBombSpatial(g2, i);
    ReleaseAccounted(g, i);
  }

  lemma {:induction false} FusesSound(g: GameState, k: nat, dt: real, rolls: (int, int) -> real)
    requires Sound(g) && k <= |g.bombs|
    ensures Sound(Fuses(g, k, dt, rolls))
    decreases k
  {
    if k > 0 {
      FuseStepSound(g, k - 1, dt, rolls);
      FusesSound(FuseStep(g, k - 1, dt, rolls), k - 1, dt, rolls);
    }
  }

  // ---------------------------------------------------------------------
  // The shape of a blast
  // ---------------------------------------------------------------------

  /** How many tiles a ray reaches from distance `r` on: it counts tiles
      until the edge, a wall or `range`, and includes the first block. */
  function Reach(grid: Grid, ox: int, oy: int, d: Dir, r: int, range: int): nat
    decreases range - r
  {
    if r > range then 0
    else
      var ex, ey := RayX(ox, d, r), RayY(oy, d, r);
      if !InBounds(ex, ey) || TileAt(grid, ex, ey) == Wall then 0
      else if TileAt(grid, ex, ey) == Block then 1
      else 1 + Reach(grid, ox, oy, d, r + 1, range)
  }

  /** The tiles a ray reaches: at most `range - r + 1` of them, all on the
      grid and none a wall, all but the last free ground; and it stops
      short of `range` only at a block (the last tile reached) or just before
      the edge or a wall. */
  lemma {:induction false} ReachShape(grid: Grid, ox: int, oy: int, d: Dir, r: int, range: int)
    ensures var n := Reach(grid, ox, oy, d, r, range);
      && (r <= range ==> n <= range - r + 1)
      && (r > range ==> n == 0)
      && (forall s :: r <= s < r + n ==> InBounds(RayX(ox, d, s), RayY(oy, d, s)) && TileAt(grid, RayX(ox, d, s), RayY(oy, d, s)) != Wall)
      && (forall s :: r <= s < r + n - 1 ==> TileAt(grid, RayX(ox, d, s), RayY(oy, d, s)) == Empty)
      && (r + n <= range ==>
            (n > 0 && InBounds(RayX(ox, d, r + n - 1), RayY(oy, d, r + n - 1)) && TileAt(grid, RayX(ox, d, r + n - 1), RayY(oy, d, r + n - 1)) == Block)
            || !InBounds(RayX(ox, d, r + n), RayY(oy, d, r + n))
            || TileAt(grid, RayX(ox, d, r + n), RayY(oy, d, r + n)) == Wall)
    decreases range - r
  {
    if r <= range {
      var ex, ey := RayX(ox, d, r), RayY(oy, d, r);
      if InBounds(ex, ey) && TileAt(grid, ex, ey) == Empty {
        ReachShape(grid, ox, oy, d, r + 1, range);
      }
    }
  }

  /** In a corridor of free ground `range` tiles long the blast reaches
      exactly `range` tiles. */
  lemma {:induction false} CorridorReach(grid: Grid, ox: int, oy: int, d: Dir, r: int, range: int)
    requires r <= range + 1
    requires forall s :: r <= s <= range ==> OpenCell(grid, RayX(ox, d, s), RayY(oy, d, s))
    ensures Reach(grid, ox, oy, d, r, range) == range - r + 1
    decreases range - r
  {
    if r <= range {
      assert OpenCell(grid, RayX(ox, d, r), RayY(oy, d, r));
      CorridorReach(grid, ox, oy, d, r + 1, range);
    }
  }

  /** A ray appends exactly one explosion for each tile it reaches, in order
      of distance. */
  lemma {:induction false} RayCovers(g: GameState, ox: int, oy: int, d: Dir, r: int, range: int, rolls: (int, int) -> real)
    ensures var res, n := Ray(g, ox, oy, d, r, range, rolls), Reach(g.grid, ox, oy, d, r, range);
      && |res.explosions| == |g.explosions| + n
      && res.explosions[..|g.explosions|] == g.explosions
      && (forall s :: r <= s < r + n ==>
            res.explosions[|g.explosions| + (s - r)] == Explosion(RayX(ox, d, s), RayY(oy, d, s), EXPLOSION_TIMER))
    decreases range - r
  {
    if r <= range {
      var ex, ey := RayX(ox, d, r), RayY(oy, d, r);
      if InBounds(ex, ey) && TileAt(g.grid, ex, ey) == Empty {
        RayCovers(AddExplosion(g, ex, ey), ox, oy, d, r + 1, range, rolls);
        RayCoversStep(g, ox, oy, d, r, range, rolls);
      } else if InBounds(ex, ey) && TileAt(g.grid, ex, ey) == Block {
        RayCoversBlock(g, ox, oy, d, r, range, rolls);
      }
    }
  }

  /** A ray that meets a block at distance `r` lays exactly one explosion,
      on that block. */
  lemma RayCoversBlock(g: GameState, ox: int, oy: int, d: Dir, r: int, range: int, rolls: (int, int) -> real)
    requires r <= range && InBounds(RayX(ox, d, r), RayY(oy, d, r))
    requires TileAt(g.grid, RayX(ox, d, r), RayY(oy, d, r)) == Block
    ensures Reach(g.grid, ox, oy, d, r, range) == 1
    ensures Ray(g, ox, oy, d, r, range, rolls).explosions == g.explosions + [Explosion(RayX(ox, d, r), RayY(oy, d, r), EXPLOSION_TIMER)]
  {
  }

  /** The inductive step of `RayCovers`, across one tile of free ground. */
  lemma RayCoversStep(g: GameState, ox: int, oy: int, d: Dir, r: int, range: int, rolls: (int, int) -> real)
    requires r <= range && InBounds(RayX(ox, d, r), RayY(oy, d, r))
    requires TileAt(g.grid, RayX(ox, d, r), RayY(oy, d, r)) == Empty
    requires var g1 := AddExplosion(g, RayX(ox, d, r), RayY(oy, d, r));
      var res, n := Ray(g1, ox, oy, d, r + 1, range, rolls), Reach(g1.grid, ox, oy, d, r + 1, range);
      && |res.explosions| == |g1.explosions| + n
      && res.explosions[..|g1.explosions|] == g1.explosions
      && (forall s :: r + 1 <= s < r + 1 + n ==>
            res.explosions[|g1.explosions| + (s - (r + 1))] == Explosion(RayX(ox, d, s), RayY(oy, d, s), EXPLOSION_TIMER))
    ensures var res, n := Ray(g, ox, oy, d, r, range, rolls), Reach(g.grid, ox, oy, d, r, range);
      && |res.explosions| == |g.explosions| + n
      && res.explosions[..|g.explosions|] == g.explosions
      && (forall s :: r <= s < r + n ==>
            res.explosions[|g.explosions| + (s - r)] == Explosion(RayX(ox, d, s), RayY(oy, d, s), EXPLOSION_TIMER))
  {
    var g1 := AddExplosion(g, RayX(ox, d, r), RayY(oy, d, r));
    var res := Ray(g1, ox, oy, d, r + 1, range, rolls);
    var m := |g.explosions|;
    assert res.explosions[..m] == res.explosions[..m + 1][..m];
    assert res.explosions[m] == res.explosions[..m + 1][m];
  }

  /** A ray changes the grid at most on the last tile it reaches, and only
      when that tile was a block, which becomes free ground and may leave
      the one power-up its roll draws there. */
  lemma {:induction false} RayClears(g: GameState, ox: int, oy: int, d: Dir, r: int, range: int, rolls: (int, int) -> real)
    ensures var res, n := Ray(g, ox, oy, d, r, range, rolls), Reach(g.grid, ox, oy, d, r, range);
      var ex, ey := RayX(ox, d, r + n - 1), RayY(oy, d, r + n - 1);
      if n > 0 && InBounds(ex, ey) && TileAt(g.grid, ex, ey) == Block then
        && res.grid == SetTile(g.grid, ex, ey, Empty)
        && res.powerups == g.powerups + (match RolledPowerup(rolls(ex, ey))
             case None => []
             case Some(k) => [Powerup(ex, ey, k)])
      else
        res.grid == g.grid && res.powerups == g.powerups
    decreases range - r
  {
    if r <= range {
      var ex, ey := RayX(ox, d, r), RayY(oy, d, r);
      if InBounds(ex, ey) && TileAt(g.grid, ex, ey) == Empty {
        var g1 := AddExplosion(g, ex, ey);
        RayClears(g1, ox, oy, d, r + 1, range, rolls);
        assert g1.grid == g.grid && g1.powerups == g.powerups;
        assert Reach(g.grid, ox, oy, d, r, range) == 1 + Reach(g.grid, ox, oy, d, r + 1, range);
        assert Ray(g, ox, oy, d, r, range, rolls) == Ray(g1, ox, oy, d, r + 1, range, rolls);
      } else if InBounds(ex, ey) && TileAt(g.grid, ex, ey) == Block {
        RayClearsBlock(g, ox, oy, d, r, range, rolls);
      }
    }
  }

  /** A ray that meets a block at distance `r` clears it and spawns what
      its roll draws there. */
  lemma RayClearsBlock(g: GameState, ox: int, oy: int, d: Dir, r: int, range: int, rolls: (int, int) -> real)
    requires r <= range && InBounds(RayX(ox, d, r), RayY(oy, d, r))
    requires TileAt(g.grid, RayX(ox, d, r), RayY(oy, d, r)) == Block
    ensures Reach(g.grid, ox, oy, d, r, range) == 1
    ensures var ex, ey, res := RayX(ox, d, r), RayY(oy, d, r), Ray(g, ox, oy, d, r, range, rolls);
      && res.grid == SetTile(g.grid, ex, ey, Empty)
      && res.powerups == g.powerups + (match RolledPowerup(rolls(ex, ey))
           case None => []
           case Some(k) => [Powerup(ex, ey, k)])
  {
  }

  lemma {:induction false} RayIgnoresBombs(g: GameState, bs: seq<Bomb>, ox: int, oy: int, d: Dir, r: int, range: int, rolls: (int, int) -> real)
    ensures Ray(g.(bombs := bs), ox, oy, d, r, range, rolls) == Ray(g, ox, oy, d, r, range, rolls).(bombs := bs)
    decreases range - r
  {
    if r <= range {
      var ex, ey := RayX(ox, d, r), RayY(oy, d, r);
      if InBounds(ex, ey) && TileAt(g.grid, ex, ey) == Empty {
        RayIgnoresBombs(AddExplosion(g, ex, ey), bs, ox, oy, d, r + 1, range, rolls);
        assert AddExplosion(g.(bombs := bs), ex, ey) == AddExplosion(g, ex, ey).(bombs := bs);
      }
    }
  }

  lemma {:induction false} RaysIgnoreBombs(g: GameState, bs: seq<Bomb>, ox: int, oy: int, range: int, k: nat, rolls: (int, int) -> real)
    requires k <= |Dirs|
    ensures Rays(g.(bombs := bs), ox, oy, range, k, rolls) == Rays(g, ox, oy, range, k, rolls).(bombs := bs)
    decreases |Dirs| - k
  {
    if k < |Dirs| {
      RayIgnoresBombs(g, bs, ox, oy, Dirs[k], 1, range, rolls);
      RaysIgnoreBombs(Ray(g, ox, oy, Dirs[k], 1, range, rolls), bs, ox, oy, range, k + 1, rolls);
    }
  }

  /** A detonation never consults the bomb list, so removing the bomb before
      or after it (the two copies differ here) gives the same state. */
  lemma DetonateIgnoresBombs(g: GameState, bs: seq<Bomb>, b: Bomb, rolls: (int, int) -> real)
    ensures Detonate(g.(bombs := bs), b, rolls) == Detonate(g, b, rolls).(bombs := bs)
  {
    var ga := AddExplosion(ReleaseOwner(g, b.ownerId), b.gx, b.gy);
    assert AddExplosion(ReleaseOwner(g.(bombs := bs), b.ownerId), b.gx, b.gy) == ga.(bombs := bs);
    RaysIgnoreBombs(ga, bs, b.gx, b.gy, b.range, 0, rolls);
  }

  // ---------------------------------------------------------------------
  // Starting, joining and leaving
  // ---------------------------------------------------------------------

  /** The state before a game starts: nothing on the field, no winner, and
      every player standing consistent at a spawn point with no bombs out. */
  ghost predicate Lobby(g: GameState) {
    && g.bombs == [] && g.explosions == [] && g.powerups == [] && g.winner == ""
    && forall k :: 0 <= k < |g.players| ==>
         SpawnPoint(g.players[k].gx, g.players[k].gy) && PlayerShape(g.players[k]) && g.players[k].activeBombs == 0
  }

  /** Laying out a fresh grid under a lobby gives a sound game. */
  lemma StartSound(g: GameState, rolls: (int, int) -> real)
    requires Lobby(g) && DistinctIds(g.players)
    ensures Sound(g.(grid := GeneratedGrid(rolls)))
  {
    GeneratedGridLayout(rolls);
    SpawnCellsOpen(rolls);
  }

  /** A spawned player is consistent and carries no bombs. */
  lemma SpawnedShape(id: string, gx: int, gy: int, color: string)
    ensures PlayerShape(Spawned(id, gx, gy, color)) && Spawned(id, gx, gy, color).activeBombs == 0
  {
  }

  /** Deleting the player with index `k` keeps the other ids distinct and
      leaves no player with its id. */
  lemma RemovePlayerIds(ps: seq<Player>, k: nat)
    requires DistinctIds(ps) && k < |ps|
    ensures DistinctIds(Remove(ps, k))
    ensures forall i :: 0 <= i < |Remove(ps, k)| ==> Remove(ps, k)[i].id != ps[k].id
  {
    var r := Remove(ps, k);
    forall i | 0 <= i < |r|
      ensures r[i] == ps[if i < k then i else i + 1]
    {
    }
  }

  /** Deleting a player keeps a lobby a lobby. */
  lemma RemovePlayerLobby(g: GameState, k: nat)
    requires Lobby(g) && k < |g.players|
    ensures Lobby(g.(players := Remove(g.players, k)))
  {
  }

  /** A player leaving keeps the state sound. */
  lemma RemovePlayerSound(g: GameState, k: nat)
    requires Sound(g) && k < |g.players|
    ensures Sound(g.(players := Remove(g.players, k)))
  {
    var r := Remove(g.players, k);
    assert forall i :: 0 <= i < |r| ==> r[i] == g.players[if i < k then i else i + 1];
  }
}

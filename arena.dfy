/** The rules that both copies of the simulation (server/rooms/BomberRoom.ts
    and utils/gameLogic.ts) implement identically, written as functions.
    Each copy's own methods are proved against these. */
module Arena {
  import opened Types

  // ---------------------------------------------------------------------
  // Grid generation
  // ---------------------------------------------------------------------

  /** Walls stand on every (odd, odd) coordinate. */
  predicate IsWallCell(x: int, y: int) {
    x % 2 == 1 && y % 2 == 1
  }

  /** The 2 x 2 spawn zone of the first player (top left). */
  predicate InP1Spawn(x: int, y: int) {
    x < 2 && y < 2
  }

  /** The 2 x 2 spawn zone of the second player (bottom right). */
  predicate InP2Spawn(x: int, y: int) {
    x > COLS - 3 && y > ROWS - 3
  }

  /** The tile generation puts at (x, y), given the random roll drawn there.
      A roll is drawn (and a block placed when it is below 0.4) only on a
      tile that is not a wall. */
  function GeneratedTile(x: int, y: int, roll: real): Tile {
    if IsWallCell(x, y) then Wall
    else if roll < 0.4 && !InP1Spawn(x, y) && !InP2Spawn(x, y) then Block
    else Empty
  }

  /** Row `y` of the fixed lattice, before any block is rolled. */
  function LatticeRow(y: int): seq<Tile> {
    seq(COLS, x => if IsWallCell(x, y) then Wall else Empty)
  }

  /** Row `y` as generation leaves it, given the rolls `rolls(x, y)`. */
  function GeneratedRow(y: int, rolls: (int, int) -> real): seq<Tile> {
    seq(COLS, x => GeneratedTile(x, y, rolls(x, y)))
  }

  /** The grid generated from the rolls `rolls(x, y)`. */
  function GeneratedGrid(rolls: (int, int) -> real): Grid {
    var g := seq(ROWS, y => GeneratedRow(y, rolls));
    assert forall y :: 0 <= y < |g| ==> |g[y]| == COLS;
    g
  }

  // ---------------------------------------------------------------------
  // Players
  // ---------------------------------------------------------------------

  /** A player with the starting loadout standing still at the centre of
      cell (gx, gy). */
  function Spawned(id: string, gx: int, gy: int, color: string): Player {
    Player(id, gx, gy, Centre(gx), Centre(gy), Centre(gx), Centre(gy), false,
           INITIAL_LIVES, 1, 0, 1, 1, 0.0, color, "", 0.0)
  }

  /** Cell (gx, gy) is one of the two spawn points (the opposite corners). */
  predicate SpawnPoint(gx: int, gy: int) {
    (gx == 0 && gy == 0) || (gx == COLS - 1 && gy == ROWS - 1)
  }

  // ---------------------------------------------------------------------
  // Movement
  // ---------------------------------------------------------------------

  predicate BombAt(bombs: seq<Bomb>, gx: int, gy: int) {
    exists i :: 0 <= i < |bombs| && bombs[i].gx == gx && bombs[i].gy == gy
  }

  /** The movement gate `canMoveTo(gx, gy, ..., currentGx, currentGy)`: the
      target is on the grid, is neither a wall nor a block, and holds no
      bomb unless it is the mover's own current cell. */
  predicate CanEnter(grid: Grid, bombs: seq<Bomb>, gx: int, gy: int, cgx: int, cgy: int) {
    && InBounds(gx, gy)
    && TileAt(grid, gx, gy) != Wall
    && TileAt(grid, gx, gy) != Block
    && (BombAt(bombs, gx, gy) ==> gx == cgx && gy == cgy)
  }

  /** Starting a grid step: only when not already moving and the intent is
      not zero; the logical cell commits at once and the pixel target
      becomes the centre of the new cell. */
  function StartStep(p: Player, grid: Grid, bombs: seq<Bomb>, dx: int, dy: int): Player {
    if !p.moving && (dx != 0 || dy != 0) && CanEnter(grid, bombs, p.gx + dx, p.gy + dy, p.gx, p.gy) then
      p.(moving := true, gx := p.gx + dx, gy := p.gy + dy,
         targetX := Centre(p.gx + dx), targetY := Centre(p.gy + dy))
    else p
  }

  /** Pixels per second at a speed level. */
  function MoveSpeed(speed: int): real {
    MOVEMENT_SPEED_BASE * (1.0 + (speed - 1) as real * 0.2)
  }

  /** Remaining distance to the pixel target. The source takes the Euclidean
      length; on every state where one of the two offsets is zero (see
      predicate Sound) that length is this sum. */
  function Dist(p: Player): real {
    Abs(p.targetX - p.x) + Abs(p.targetY - p.y)
  }

  /** The player is moving and this step covers the remaining distance. */
  predicate Arrives(p: Player, dt: real) {
    p.moving && Dist(p) < MoveSpeed(p.speed) * dt
  }

  /** Pixel interpolation: snap to the target on arrival, otherwise move by
      `speed * dt` towards it. The source divides by a zero distance (and
      gets NaN) only when `speed * dt <= 0`, which no sound state with a
      positive step reaches; the model leaves the player in place there. */
  function Glide(p: Player, dt: real): Player {
    if !p.moving then p
    else if Arrives(p, dt) then p.(x := p.targetX, y := p.targetY, moving := false)
    else if Dist(p) == 0.0 then p
    else
      var ddx, ddy, dist := p.targetX - p.x, p.targetY - p.y, Dist(p);
      p.(x := p.x + (ddx / dist) * MoveSpeed(p.speed) * dt,
         y := p.y + (ddy / dist) * MoveSpeed(p.speed) * dt)
  }

  /** The invincibility window runs down while it is positive. */
  function Cooldown(p: Player, dt: real): Player {
    if p.invincibleTimer > 0.0 then p.(invincibleTimer := p.invincibleTimer - dt) else p
  }

  /** `qs` is `ps` with at most player `j` changed, and that one keeps its
      id and its lives. */
  predicate OnlyTouches(ps: seq<Player>, qs: seq<Player>, j: nat) {
    && |qs| == |ps|
    && forall k :: 0 <= k < |ps| ==>
         qs[k].id == ps[k].id && qs[k].lives == ps[k].lives && (k != j ==> qs[k] == ps[k])
  }

  // ---------------------------------------------------------------------
  // Bomb placement
  // ---------------------------------------------------------------------

  /** Player `j` drops a bomb on its cell, with its current range and a full
      fuse, unless a bomb is already there or all its bombs are out. */
  function PlaceBomb(g: GameState, j: nat): (res: GameState)
    requires j < |g.players|
    ensures OnlyTouches(g.players, res.players, j)
    ensures res.grid == g.grid && res.explosions == g.explosions && res.powerups == g.powerups
    ensures res.winner == g.winner && res.adVisible == g.adVisible
  {
    var p := g.players[j];
    if !BombAt(g.bombs, p.gx, p.gy) && p.activeBombs < p.maxBombs then
      g.(bombs := g.bombs + [Bomb(p.gx, p.gy, p.id, BOMB_TIMER, p.range)],
         players := g.players[j := p.(activeBombs := p.activeBombs + 1)])
    else g
  }

  // ---------------------------------------------------------------------
  // Power-ups
  // ---------------------------------------------------------------------

  /** The spawn table, in its cumulative order: 15% extra bomb, 15% extra
      range, 10% extra speed, 2% the combo, 58% nothing. */
  function RolledPowerup(roll: real): Option<PowerupKind> {
    if roll < 0.15 then Some(ExtraBomb)
    else if roll < 0.30 then Some(ExtraRange)
    else if roll < 0.40 then Some(ExtraSpeed)
    else if roll < 0.42 then Some(Unox)
    else None
  }

  function Min(a: int, b: int): int {
    if a < b then a else b
  }

  /** The effect of a power-up on the player that collects it. */
  function Collect(p: Player, kind: PowerupKind): Player {
    match kind
    case ExtraBomb => p.(maxBombs := p.maxBombs + 1)
    case ExtraRange => p.(range := p.range + 1)
    case ExtraSpeed => p.(speed := Min(p.speed + 1, MAX_SPEED))
    case Unox => p.(maxBombs := p.maxBombs + 1, range := p.range + 1, speed := Min(p.speed + 1, MAX_SPEED))
  }

  predicate PowerupOn(u: Powerup, gx: int, gy: int) {
    u.gx == gx && u.gy == gy
  }

  /** `findIndex`: the first power-up lying on (gx, gy). */
  function FirstPowerupAt(ups: seq<Powerup>, gx: int, gy: int): (r: Option<nat>)
    ensures r.Some? ==> r.value < |ups| && PowerupOn(ups[r.value], gx, gy)
    ensures r.Some? ==> forall k :: 0 <= k < r.value ==> !PowerupOn(ups[k], gx, gy)
    ensures r.None? ==> forall k :: 0 <= k < |ups| ==> !PowerupOn(ups[k], gx, gy)
  {
    if |ups| == 0 then None
    else if PowerupOn(ups[0], gx, gy) then Some(0)
    else match FirstPowerupAt(ups[1..], gx, gy)
      case None => None
      case Some(k) => Some(k + 1)
  }

  /** A scan from the end that stops at the first match: the last power-up
      lying on (gx, gy). */
  function LastPowerupAt(ups: seq<Powerup>, gx: int, gy: int): (r: Option<nat>)
    ensures r.Some? ==> r.value < |ups| && PowerupOn(ups[r.value], gx, gy)
    ensures r.Some? ==> forall k :: r.value < k < |ups| ==> !PowerupOn(ups[k], gx, gy)
    ensures r.None? ==> forall k :: 0 <= k < |ups| ==> !PowerupOn(ups[k], gx, gy)
  {
    if |ups| == 0 then None
    else if PowerupOn(ups[|ups| - 1], gx, gy) then Some(|ups| - 1)
    else LastPowerupAt(ups[..|ups| - 1], gx, gy)
  }

  /** Player `j` collects power-up `k`, which leaves the field; the combo
      also raises the promotional banner. */
  function PickUp(g: GameState, j: nat, k: nat): (res: GameState)
    requires j < |g.players| && k < |g.powerups|
    ensures OnlyTouches(g.players, res.players, j)
    ensures res.players[j].gx == g.players[j].gx && res.players[j].gy == g.players[j].gy
    ensures res.grid == g.grid && res.explosions == g.explosions && res.bombs == g.bombs
    ensures res.winner == g.winner
  {
    var kind := g.powerups[k].kind;
    g.(players := g.players[j := Collect(g.players[j], kind)],
       powerups := Remove(g.powerups, k),
       adVisible := g.adVisible || kind == Unox)
  }

  /** Pick up the power-up found by a search, if any. */
  function PickUpFound(g: GameState, j: nat, found: Option<nat>): (res: GameState)
    requires j < |g.players|
    requires found.Some? ==> found.value < |g.powerups|
    ensures OnlyTouches(g.players, res.players, j)
    ensures res.players[j].gx == g.players[j].gx && res.players[j].gy == g.players[j].gy
    ensures res.grid == g.grid && res.explosions == g.explosions && res.bombs == g.bombs
    ensures res.winner == g.winner
  {
    match found
    case None => g
    case Some(k) => PickUp(g, j, k)
  }

  // ---------------------------------------------------------------------
  // Fuses and explosions
  // ---------------------------------------------------------------------

  datatype Dir = Up | Down | Left | Right

  /** The blast directions in the order both copies scan them:
      (0, -1), (0, 1), (-1, 0), (1, 0). */
  const Dirs: seq<Dir> := [Up, Down, Left, Right]

  /** `gx + dir[0] * r`. */
  function RayX(ox: int, d: Dir, r: int): int {
    match d
    case Left => ox - r
    case Right => ox + r
    case _ => ox
  }

  /** `gy + dir[1] * r`. */
  function RayY(oy: int, d: Dir, r: int): int {
    match d
    case Up => oy - r
    case Down => oy + r
    case _ => oy
  }

  function AddExplosion(g: GameState, gx: int, gy: int): GameState {
    g.(explosions := g.explosions + [Explosion(gx, gy, EXPLOSION_TIMER)])
  }

  /** `maybeSpawnPowerup`: roll the table once for a destroyed block. */
  function SpawnPowerup(g: GameState, gx: int, gy: int, roll: real): GameState {
    match RolledPowerup(roll)
    case None => g
    case Some(k) => g.(powerups := g.powerups + [Powerup(gx, gy, k)])
  }

  /** The blast from (ox, oy) in direction `d`, from distance `r` on up to
      `range`: it stops before the edge or a wall; a block is hit, cleared,
      may leave a power-up, and stops the ray. `rolls(x, y)` is the spawn
      roll drawn when the block at (x, y) is destroyed. */
  function Ray(g: GameState, ox: int, oy: int, d: Dir, r: int, range: int, rolls: (int, int) -> real): (res: GameState)
    ensures res.players == g.players && res.bombs == g.bombs
    ensures res.winner == g.winner && res.adVisible == g.adVisible
    decreases range - r
  {
    if r > range then g
    else
      var ex, ey := RayX(ox, d, r), RayY(oy, d, r);
      if !InBounds(ex, ey) || TileAt(g.grid, ex, ey) == Wall then g
      else if TileAt(g.grid, ex, ey) == Block then
        SpawnPowerup(AddExplosion(g, ex, ey).(grid := SetTile(g.grid, ex, ey, Empty)), ex, ey, rolls(ex, ey))
      else Ray(AddExplosion(g, ex, ey), ox, oy, d, r + 1, range, rolls)
  }

  /** The rays in the directions `Dirs[k..]`. */
  function Rays(g: GameState, ox: int, oy: int, range: int, k: nat, rolls: (int, int) -> real): (res: GameState)
    requires k <= |Dirs|
    ensures res.players == g.players && res.bombs == g.bombs
    ensures res.winner == g.winner && res.adVisible == g.adVisible
    decreases |Dirs| - k
  {
    if k == |Dirs| then g
    else Rays(Ray(g, ox, oy, Dirs[k], 1, range, rolls), ox, oy, range, k + 1, rolls)
  }

  /** `qs` is `ps` with at most the bomb counts changed. */
  predicate BombCountsOnly(ps: seq<Player>, qs: seq<Player>) {
    |qs| == |ps| && forall k :: 0 <= k < |ps| ==> qs[k] == ps[k].(activeBombs := qs[k].activeBombs)
  }

  /** The owner of a detonating bomb gets the bomb back, if it is still in
      the game. */
  function ReleaseOwner(g: GameState, ownerId: string): (res: GameState)
    ensures BombCountsOnly(g.players, res.players)
  {
    match IndexOf(g.players, ownerId)
    case None => g
    case Some(k) => g.(players := g.players[k := g.players[k].(activeBombs := g.players[k].activeBombs - 1)])
  }

  /** A bomb goes off: its owner's count drops, its own cell explodes, and
      the four rays spread. */
  function Detonate(g: GameState, b: Bomb, rolls: (int, int) -> real): (res: GameState)
    ensures res.bombs == g.bombs && BombCountsOnly(g.players, res.players)
    ensures res.winner == g.winner && res.adVisible == g.adVisible
  {
    Rays(AddExplosion(ReleaseOwner(g, b.ownerId), b.gx, b.gy), b.gx, b.gy, b.range, 0, rolls)
  }

  /** Bomb `i` burns for `dt`; when its fuse is out it detonates and is
      removed. */
  function FuseStep(g: GameState, i: nat, dt: real, rolls: (int, int) -> real): (res: GameState)
    requires i < |g.bombs|
    ensures |res.bombs| >= i && res.bombs[..i] == g.bombs[..i]
    ensures BombCountsOnly(g.players, res.players)
    ensures res.winner == g.winner && res.adVisible == g.adVisible
  {
    var b := g.bombs[i].(timer := g.bombs[i].timer - dt);
    var g1 := g.(bombs := g.bombs[i := b]);
    if b.timer <= 0.0 then
      var g2 := Detonate(g1, b, rolls);
      g2.(bombs := Remove(g2.bombs, i))
    else g1
  }

  /** The fuse loop over bombs `k - 1` down to 0. */
  function Fuses(g: GameState, k: nat, dt: real, rolls: (int, int) -> real): (res: GameState)
    requires k <= |g.bombs|
    ensures BombCountsOnly(g.players, res.players)
    ensures res.winner == g.winner && res.adVisible == g.adVisible
    decreases k
  {
    if k == 0 then g
    else Fuses(FuseStep(g, k - 1, dt, rolls), k - 1, dt, rolls)
  }

  /** The banner hides itself with probability 1% per step. */
  function HideAd(g: GameState, roll: real): GameState {
    if g.adVisible && roll < 0.01 then g.(adVisible := false) else g
  }
}

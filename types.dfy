/** Constants and entity shapes shared by both copies of the simulation
    (constants.ts, types.ts and the schema classes of BomberRoom.ts). */
module Types {

  datatype Option<T> = None | Some(value: T)

  const COLS: int := 13
  const ROWS: int := 11
  const TILE_SIZE: int := 40
  const INITIAL_LIVES: int := 3
  const BOMB_TIMER: real := 3.0
  const EXPLOSION_TIMER: real := 0.5
  const MOVEMENT_SPEED_BASE: real := 150.0
  /** The invincibility window granted by a hit, in seconds. */
  const HIT_IMMUNITY: real := 3.0
  /** The hard cap on the speed level. */
  const MAX_SPEED: int := 3
  /** Chat keeps only the most recent messages. */
  const CHAT_CAPACITY: int := 20
  const CHAT_MAX_LENGTH: int := 100

  const P1_COLOR: string := "#FF6B35"
  const P2_COLOR: string := "#3B82F6"

  datatype Tile = Empty | Wall | Block

  datatype PowerupKind = ExtraBomb | ExtraRange | ExtraSpeed | Unox

  /** A row-major map: `grid[y][x]`, ROWS rows of COLS tiles. */
  type Grid = g: seq<seq<Tile>> | |g| == ROWS && forall y :: 0 <= y < |g| ==> |g[y]| == COLS
    witness seq(ROWS, _ => seq(COLS, _ => Empty))

  datatype Player = Player(
    id: string,
    gx: int, gy: int,
    x: real, y: real,
    targetX: real, targetY: real,
    moving: bool,
    lives: int,
    maxBombs: int,
    activeBombs: int,
    range: int,
    speed: int,
    invincibleTimer: real,
    color: string,
    emoji: string,
    emojiTimer: real)

  datatype Bomb = Bomb(gx: int, gy: int, ownerId: string, timer: real, range: int)

  datatype Explosion = Explosion(gx: int, gy: int, timer: real)

  datatype Powerup = Powerup(gx: int, gy: int, kind: PowerupKind)

  /** One player's intent for a step, as sent by its client. */
  datatype InputPayload = InputPayload(dx: int, dy: int, placeBomb: bool)

  datatype ChatMessage = ChatMessage(playerId: string, message: string, timestamp: int)

  /** The simulated world. `winner == ""` stands for "no winner yet" (the
      server's empty string, the peer copy's null: both are falsy). The
      players are kept in the iteration order of their map. */
  datatype GameState = GameState(
    grid: Grid,
    players: seq<Player>,
    bombs: seq<Bomb>,
    explosions: seq<Explosion>,
    powerups: seq<Powerup>,
    winner: string,
    adVisible: bool)

  predicate InBounds(gx: int, gy: int) {
    0 <= gx < COLS && 0 <= gy < ROWS
  }

  function TileAt(grid: Grid, gx: int, gy: int): Tile
    requires InBounds(gx, gy)
  {
    grid[gy][gx]
  }

  /** The grid with one tile replaced. */
  function SetTile(grid: Grid, gx: int, gy: int, t: Tile): (r: Grid)
    requires InBounds(gx, gy)
    ensures TileAt(r, gx, gy) == t
    ensures forall x, y :: InBounds(x, y) && (x != gx || y != gy) ==> TileAt(r, x, y) == TileAt(grid, x, y)
  {
    grid[gy := grid[gy][gx := t]]
  }

  /** Pixel coordinate of the centre of grid column or row `g`. */
  function Centre(g: int): real {
    (g * TILE_SIZE) as real + (TILE_SIZE as real) / 2.0
  }

  /** `Math.floor(p / TILE_SIZE)`: the tile a pixel coordinate lies in. */
  function PixelCell(p: real): int {
    (p / (TILE_SIZE as real)).Floor
  }

  function Abs(v: real): real {
    if v < 0.0 then -v else v
  }

  /** `seq.splice(i, 1)`. */
  function Remove<T>(s: seq<T>, i: nat): (r: seq<T>)
    requires i < |s|
    ensures |r| == |s| - 1
    ensures forall k :: 0 <= k < i ==> r[k] == s[k]
    ensures forall k :: i <= k < |r| ==> r[k] == s[k + 1]
  {
    s[..i] + s[i + 1..]
  }

  /** Index of the first player whose id is `id` (a map lookup). */
  function IndexOf(players: seq<Player>, id: string): (r: Option<nat>)
    ensures r.Some? ==> r.value < |players| && players[r.value].id == id
    ensures r.Some? ==> forall k :: 0 <= k < r.value ==> players[k].id != id
    ensures r.None? ==> forall k :: 0 <= k < |players| ==> players[k].id != id
  {
    if |players| == 0 then None
    else if players[0].id == id then Some(0)
    else match IndexOf(players[1..], id)
      case None => None
      case Some(k) => Some(k + 1)
  }

  predicate DistinctIds(players: seq<Player>) {
    forall i, j :: 0 <= i < j < |players| ==> players[i].id != players[j].id
  }
}

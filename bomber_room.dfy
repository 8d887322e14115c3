/** The authoritative game room of server/rooms/BomberRoom.ts: its state,
    its message handlers and its 30 Hz loop. Every method is proved against
    the functions of modules Arena and RoomRules, and keeps the room
    invariant `Valid`. */
module Server {
  import opened Types
  import opened Arena
  import opened Invariants
  import opened RoomRules

  /** The grid of a room whose game has not started. The server holds an
      empty list there; no rule reads it before the game starts. */
  function BlankGrid(): Grid {
    var g := seq(ROWS, _ => seq(COLS, _ => Empty));
    assert forall y :: 0 <= y < |g| ==> |g[y]| == COLS;
    g
  }

  /** Player number `index` (in map order) put back at its spawn point with
      the starting loadout; its id, emoji and emoji timer are kept, and its
      colour follows the spawn order. */
  function Respawned(p: Player, index: nat): Player {
    var gx, gy := if index == 0 then 0 else COLS - 1, if index == 0 then 0 else ROWS - 1;
    p.(gx := gx, gy := gy, color := if index == 0 then P1_COLOR else P2_COLOR,
       x := Centre(gx), y := Centre(gy), targetX := Centre(gx), targetY := Centre(gy),
       moving := false, lives := INITIAL_LIVES, maxBombs := 1, activeBombs := 0,
       range := 1, speed := 1, invincibleTimer := 0.0)
  }

  /** The last `CHAT_CAPACITY` messages of `log`. */
  function Recent(log: seq<ChatMessage>): (r: seq<ChatMessage>)
    ensures |r| <= CHAT_CAPACITY
    ensures |log| <= CHAT_CAPACITY ==> r == log
    ensures |log| > CHAT_CAPACITY ==> |r| == CHAT_CAPACITY
    ensures r == log[|log| - |r|..]
  {
    if |log| <= CHAT_CAPACITY then log else log[|log| - CHAT_CAPACITY..]
  }

  /** A JavaScript string's `length`: its UTF-16 code units, of which a
      character outside the Basic Multilingual Plane takes two. */
  function Utf16Length(s: string): (n: nat)
    ensures |s| <= n <= 2 * |s|
    ensures (forall k :: 0 <= k < |s| ==> (s[k] as int) < 0x1_0000) ==> n == |s|
    decreases |s|
  {
    if |s| == 0 then 0
    else
      var front := s[..|s| - 1];
      assert forall k :: 0 <= k < |front| ==> front[k] == s[k];
      Utf16Length(front) + (if (s[|s| - 1] as int) < 0x1_0000 then 1 else 2)
  }

  /** One emoji outside the Basic Multilingual Plane is two code units, so
      a message of 51 of them is over the 100-unit limit. */
  lemma AstralCharCountsTwice()
    ensures Utf16Length("\U{1F602}") == 2
    ensures Utf16Length(seq(51, _ => '\U{1F602}')) == 102
  {
    var s := seq(51, _ => '\U{1F602}');
    AllAstral(s);
  }

  /** A string of characters outside the Basic Multilingual Plane is twice
      its length in code units. */
  lemma {:induction false} AllAstral(s: string)
    requires forall k :: 0 <= k < |s| ==> (s[k] as int) >= 0x1_0000
    ensures Utf16Length(s) == 2 * |s|
    decreases |s|
  {
    if |s| > 0 {
      var front := s[..|s| - 1];
      assert forall k :: 0 <= k < |front| ==> front[k] == s[k];
      AllAstral(front);
    }
  }

  /** Respawning every player of a cleared field gives a lobby, and the ids
      stay distinct. */
  lemma RespawnedLobby(g: GameState, ps: seq<Player>)
    requires g.bombs == [] && g.explosions == [] && g.powerups == [] && g.winner == ""
    requires |g.players| == |ps| && DistinctIds(ps)
    requires forall k :: 0 <= k < |ps| ==> g.players[k] == Respawned(ps[k], k)
    ensures Lobby(g) && DistinctIds(g.players)
  {
    forall k | 0 <= k < |ps|
      ensures SpawnPoint(g.players[k].gx, g.players[k].gy) && PlayerShape(g.players[k])
    {
      assert g.players[k] == Respawned(ps[k], k);
    }
  }

  class BomberRoom {
    var state: GameState
    var gameStarted: bool
    var chatMessages: seq<ChatMessage>
    var rematchVotes: int
    var rematchPending: bool
    /** The latest input of every connected player, by session id. */
    var playerInputs: map<string, InputPayload>
    var rematchPlayers: set<string>

    /** The room invariant: ids are unique; before the game starts the room
        is a lobby, afterwards the state is sound; a winner only exists in a
        started game; the chat holds at most 20 messages. */
    ghost predicate Valid()
      reads this
    {
      Consistent() && |chatMessages| <= CHAT_CAPACITY
    }

    /** The part of the invariant about the game itself. */
    ghost predicate Consistent()
      reads this`state, this`gameStarted
    {
      && DistinctIds(state.players)
      && (gameStarted ==> Sound(state))
      && (!gameStarted ==> Lobby(state))
    }

    /** `onCreate`: an empty room. */
    constructor ()
      ensures Valid()
      ensures state == GameState(BlankGrid(), [], [], [], [], "", false)
      ensures !gameStarted && chatMessages == [] && rematchVotes == 0 && !rematchPending
      ensures playerInputs == map[] && rematchPlayers == {}
    {
      state := GameState(BlankGrid(), [], [], [], [], "", false);
      gameStarted := false;
      chatMessages := [];
      rematchVotes := 0;
      rematchPending := false;
      playerInputs := map[];
      rematchPlayers := {};
    }

    // -------------------------------------------------------------------
    // The grid
    // -------------------------------------------------------------------

    /** `initializeGrid`: lay out the wall lattice, then roll for a block on
        every other tile outside the spawn zones. */
    method InitializeGrid(rolls: (int, int) -> real)
      modifies this`state
      ensures state == old(state).(grid := GeneratedGrid(rolls))
    {
      var rows: seq<seq<Tile>> := [];
      var y := 0;
      while y < ROWS
        invariant 0 <= y <= ROWS && |rows| == y
        invariant forall yy :: 0 <= yy < y ==> rows[yy] == LatticeRow(yy)
      {
        var row: seq<Tile> := [];
        var x := 0;
        while x < COLS
          invariant 0 <= x <= COLS && row == LatticeRow(y)[..x]
        {
          row := row + [if x % 2 == 1 && y % 2 == 1 then Wall else Empty];
          x := x + 1;
        }
        rows := rows + [row];
        y := y + 1;
      }
      y := 0;
      while y < ROWS
        invariant 0 <= y <= ROWS && |rows| == ROWS
        invariant forall yy :: 0 <= yy < y ==> rows[yy] == GeneratedRow(yy, rolls)
        invariant forall yy :: y <= yy < ROWS ==> rows[yy] == LatticeRow(yy)
      {
        var x := 0;
        while x < COLS
          invariant 0 <= x <= COLS && |rows| == ROWS && |rows[y]| == COLS
          invariant forall yy :: 0 <= yy < y ==> rows[yy] == GeneratedRow(yy, rolls)
          invariant forall yy :: y < yy < ROWS ==> rows[yy] == LatticeRow(yy)
          invariant forall xx :: 0 <= xx < x ==> rows[y][xx] == GeneratedTile(xx, y, rolls(xx, y))
          invariant forall xx :: x <= xx < COLS ==> rows[y][xx] == LatticeRow(y)[xx]
        {
          if rows[y][x] == Empty && rolls(x, y) < 0.4 {
            if !InP1Spawn(x, y) && !InP2Spawn(x, y) {
              rows := rows[y := rows[y][x := Block]];
            }
          }
          x := x + 1;
        }
        assert rows[y] == GeneratedRow(y, rolls);
        y := y + 1;
      }
      assert rows == GeneratedGrid(rolls);
      state := state.(grid := rows);
    }

    // -------------------------------------------------------------------
    // Movement
    // -------------------------------------------------------------------

    /** `bombs.find(...)`: is there a bomb on (gx, gy)? */
    method FindBombAt(gx: int, gy: int) returns (found: bool)
      ensures found <==> BombAt(state.bombs, gx, gy)
    {
      var i := 0;
      while i < |state.bombs|
        invariant 0 <= i <= |state.bombs|
        invariant forall k :: 0 <= k < i ==> state.bombs[k].gx != gx || state.bombs[k].gy != gy
      {
        if state.bombs[i].gx == gx && state.bombs[i].gy == gy {
          return true;
        }
        i := i + 1;
      }
      return false;
    }

    /** `canMoveTo`: a target on the grid that is neither wall nor block,
        and holds no bomb unless it is the mover's own cell. */
    method CanMoveTo(gx: int, gy: int, playerId: string, currentGx: int, currentGy: int) returns (ok: bool)
      ensures ok <==> CanEnter(state.grid, state.bombs, gx, gy, currentGx, currentGy)
    {
      if gx < 0 || gx >= COLS || gy < 0 || gy >= ROWS {
        return false;
      }
      if state.grid[gy][gx] == Wall || state.grid[gy][gx] == Block {
        return false;
      }
      var i := 0;
      while i < |state.bombs|
        invariant 0 <= i <= |state.bombs|
        invariant forall k :: 0 <= k < i ==> state.bombs[k].gx != gx || state.bombs[k].gy != gy
      {
        var b := state.bombs[i];
        if b.gx == gx && b.gy == gy {
          if gx == currentGx && gy == currentGy {
            return true;
          }
          return false;
        }
        i := i + 1;
      }
      return true;
    }

    /** The pick-up scan: from the end of the list, the first power-up on
        player `j`'s cell is collected and removed. */
    method PickUpPowerup(j: nat)
      requires j < |state.players|
      modifies this`state
      ensures state == PickUpFound(old(state), j,
        LastPowerupAt(old(state).powerups, old(state).players[j].gx, old(state).players[j].gy))
    {
      var gx, gy := state.players[j].gx, state.players[j].gy;
      var i := |state.powerups| - 1;
      while i >= 0
        invariant -1 <= i < |state.powerups|
        invariant state == old(state)
        invariant forall k :: i < k < |state.powerups| ==> !PowerupOn(state.powerups[k], gx, gy)
      {
        var u := state.powerups[i];
        if u.gx == gx && u.gy == gy {
          var p := Collect(state.players[j], u.kind);
          state := state.(players := state.players[j := p],
                          powerups := Remove(state.powerups, i),
                          adVisible := state.adVisible || u.kind == Unox);
          return;
        }
        i := i - 1;
      }
    }

    /** Player `j`'s turn of a tick (the body of the first `forEach`). */
    method ProcessPlayer(j: nat)
      requires j < |state.players|
      modifies this`state, this`playerInputs
      ensures Room(state, playerInputs) == Turn(Room(old(state), old(playerInputs)), j)
    {
      var p := state.players[j];
      if p.id !in playerInputs || p.lives <= 0 {
        return;
      }
      var input := playerInputs[p.id];
      ghost var g0 := state;
      if input.placeBomb {
        var bombHere := FindBombAt(p.gx, p.gy);
        if !bombHere && p.activeBombs < p.maxBombs {
          state := state.(bombs := state.bombs + [Bomb(p.gx, p.gy, p.id, BOMB_TIMER, p.range)],
                          players := state.players[j := p.(activeBombs := p.activeBombs + 1)]);
        }
        playerInputs := playerInputs[p.id := input.(placeBomb := false)];
      }
      assert state == (if input.placeBomb then PlaceBomb(g0, j) else g0);
      var dx, dy := input.dx, input.dy;
      if dy != 0 {
        dx := 0;
      }
      MovePlayer(j, dx, dy);
    }

    /** Step start, interpolation with pick-up on arrival, and the timers of
        player `j`. */
    method MovePlayer(j: nat, dx: int, dy: int)
      requires j < |state.players|
      modifies this`state
      ensures state == Move(old(state), j, dx, dy)
    {
      BeginStep(j, dx, dy);
      Interpolate(j);
      RunTimers(j);
    }

    /** A step towards (gx + dx, gy + dy) starts when player `j` stands
        still, the offset is not zero and the movement gate allows it. */
    method BeginStep(j: nat, dx: int, dy: int)
      requires j < |state.players|
      modifies this`state
      ensures state == old(state).(players := old(state).players[j := StartStep(old(state).players[j], state.grid, state.bombs, dx, dy)])
    {
      var p := state.players[j];
      if !p.moving && (dx != 0 || dy != 0) {
        var ok := CanMoveTo(p.gx + dx, p.gy + dy, p.id, p.gx, p.gy);
        if ok {
          p := p.(moving := true, gx := p.gx + dx, gy := p.gy + dy,
                  targetX := Centre(p.gx + dx), targetY := Centre(p.gy + dy));
        }
      }
      state := state.(players := state.players[j := p]);
    }

    /** The invincibility and emoji timers of player `j`. */
    method RunTimers(j: nat)
      requires j < |state.players|
      modifies this`state
      ensures state == Tock(old(state), j)
    {
      var p := state.players[j];
      if p.invincibleTimer > 0.0 {
        p := p.(invincibleTimer := p.invincibleTimer - DT);
      }
      if p.emojiTimer > 0.0 {
        p := p.(emojiTimer := p.emojiTimer - DT);
        if p.emojiTimer <= 0.0 {
          p := p.(emoji := "");
        }
      }
      state := state.(players := state.players[j := p]);
    }

    /** Interpolation of player `j`, with the pick-up scan on arrival. */
    method Interpolate(j: nat)
      requires j < |state.players|
      modifies this`state
      ensures state == Advance(old(state), j)
    {
      var p := state.players[j];
      assert state.players[j := p] == state.players;
      if p.moving {
        var moveSpeed := MoveSpeed(p.speed);
        var ddx, ddy := p.targetX - p.x, p.targetY - p.y;
        var dist := Dist(p);
        if dist < moveSpeed * DT {
          p := p.(x := p.targetX, y := p.targetY, moving := false);
          state := state.(players := state.players[j := p]);
          PickUpPowerup(j);
        } else if dist != 0.0 {
          assert !Arrives(p, DT) && Dist(p) != 0.0;
          p := p.(x := p.x + (ddx / dist) * moveSpeed * DT, y := p.y + (ddy / dist) * moveSpeed * DT);
          assert p == Glide(old(state).players[j], DT);
          state := state.(players := state.players[j := p]);
        }
      }
    }

    /** The first phase of a tick: every player's turn, in map order. */
    method ProcessPlayers()
      modifies this`state, this`playerInputs
      ensures Room(state, playerInputs) == Turns(Room(old(state), old(playerInputs)), 0)
    {
      var j := 0;
      while j < |state.players|
        invariant 0 <= j <= |state.players| && |state.players| == |old(state).players|
        invariant Turns(Room(state, playerInputs), j) == Turns(Room(old(state), old(playerInputs)), 0)
      {
        ProcessPlayer(j);
        j := j + 1;
      }
    }

    // -------------------------------------------------------------------
    // Bombs
    // -------------------------------------------------------------------

    /** `createExplosion`: a fresh explosion on (gx, gy). */
    method CreateExplosion(gx: int, gy: int)
      modifies this`state
      ensures state == AddExplosion(old(state), gx, gy)
    {
      state := state.(explosions := state.explosions + [Explosion(gx, gy, EXPLOSION_TIMER)]);
    }

    /** `maybeSpawnPowerup`: roll the spawn table once for a destroyed block. */
    method MaybeSpawnPowerup(gx: int, gy: int, roll: real)
      modifies this`state
      ensures state == SpawnPowerup(old(state), gx, gy, roll)
    {
      var kind: Option<PowerupKind> := None;
      if roll < 0.15 {
        kind := Some(ExtraBomb);
      } else if roll < 0.30 {
        kind := Some(ExtraRange);
      } else if roll < 0.40 {
        kind := Some(ExtraSpeed);
      } else if roll < 0.42 {
        kind := Some(Unox);
      }
      if kind.Some? {
        state := state.(powerups := state.powerups + [Powerup(gx, gy, kind.value)]);
      }
    }

    /** One arm of a blast: distances 1 to `range` in direction `d`. */
    method SpreadRay(ox: int, oy: int, d: Dir, range: int, rolls: (int, int) -> real)
      modifies this`state
      ensures state == Ray(old(state), ox, oy, d, 1, range, rolls)
    {
      var r := 1;
      while r <= range
        invariant Ray(state, ox, oy, d, r, range, rolls) == Ray(old(state), ox, oy, d, 1, range, rolls)
        decreases range - r
      {
        var ex, ey := RayX(ox, d, r), RayY(oy, d, r);
        if ex < 0 || ex >= COLS || ey < 0 || ey >= ROWS {
          break;
        }
        if state.grid[ey][ex] == Wall {
          break;
        }
        ghost var before := state;
        CreateExplosion(ex, ey);
        if state.grid[ey][ex] == Block {
          state := state.(grid := SetTile(state.grid, ex, ey, Empty));
          MaybeSpawnPowerup(ex, ey, rolls(ex, ey));
          assert state == Ray(before, ox, oy, d, r, range, rolls);
          return;
        }
        r := r + 1;
      }
    }

    /** Bomb `b` goes off: its owner gets it back, its cell and the four
        arms explode. */
    method Explode(b: Bomb, rolls: (int, int) -> real)
      modifies this`state
      ensures state == Detonate(old(state), b, rolls)
    {
      var owner := IndexOf(state.players, b.ownerId);
      if owner.Some? {
        var k := owner.value;
        state := state.(players := state.players[k := state.players[k].(activeBombs := state.players[k].activeBombs - 1)]);
      }
      CreateExplosion(b.gx, b.gy);
      ghost var g0 := state;
      var k := 0;
      while k < |Dirs|
        invariant 0 <= k <= |Dirs|
        invariant Rays(state, b.gx, b.gy, b.range, k, rolls) == Rays(g0, b.gx, b.gy, b.range, 0, rolls)
      {
        SpreadRay(b.gx, b.gy, Dirs[k], b.range, rolls);
        k := k + 1;
      }
    }

    /** The second phase of a tick: every fuse burns, from the last bomb to
        the first; a bomb whose fuse is out goes off and is removed. */
    method ProcessBombs(rolls: (int, int) -> real)
      modifies this`state
      ensures state == Fuses(old(state), |old(state).bombs|, DT, rolls)
    {
      var i := |state.bombs|;
      while i > 0
        invariant 0 <= i <= |state.bombs|
        invariant Fuses(state, i, DT, rolls) == Fuses(old(state), |old(state).bombs|, DT, rolls)
      {
        i := i - 1;
        BurnFuse(i, rolls);
      }
    }

    /** One iteration of the fuse loop, on bomb `i`. */
    method BurnFuse(i: nat, rolls: (int, int) -> real)
      requires i < |state.bombs|
      modifies this`state
      ensures state == FuseStep(old(state), i, DT, rolls)
    {
      var b := state.bombs[i].(timer := state.bombs[i].timer - DT);
      state := state.(bombs := state.bombs[i := b]);
      if b.timer <= 0.0 {
        Explode(b, rolls);
        state := state.(bombs := Remove(state.bombs, i));
      }
    }

    // -------------------------------------------------------------------
    // Explosions
    // -------------------------------------------------------------------

    /** The winner scan: every other living player, in map order,
        overwrites the winner. */
    method DeclareWinner(loserId: string)
      modifies this`state
      ensures state == old(state).(winner := LastSurvivor(old(state).players, loserId, old(state).winner))
    {
      var k := 0;
      while k < |state.players|
        invariant 0 <= k <= |old(state).players|
        invariant state == old(state).(winner := LastSurvivor(old(state).players[..k], loserId, old(state).winner))
      {
        assert old(state).players[..k + 1][..k] == old(state).players[..k];
        if state.players[k].id != loserId && state.players[k].lives > 0 {
          state := state.(winner := state.players[k].id);
        }
        k := k + 1;
      }
      assert old(state).players[..k] == old(state).players;
    }

    /** Explosion `e` against every player, in map order. */
    method DamagePlayers(e: Explosion)
      modifies this`state
      ensures state == Damage(old(state), e, 0)
    {
      var j := 0;
      while j < |state.players|
        invariant 0 <= j <= |state.players| && |state.players| == |old(state).players|
        invariant Damage(state, e, j) == Damage(old(state), e, 0)
      {
        ghost var g0 := state;
        var p := state.players[j];
        if !(p.lives <= 0 || p.invincibleTimer > 0.0) {
          var actualGx := PixelCell(p.x);
          var actualGy := PixelCell(p.y);
          if actualGx == e.gx && actualGy == e.gy {
            p := p.(lives := p.lives - 1, invincibleTimer := HIT_IMMUNITY);
            state := state.(players := state.players[j := p]);
            if p.lives <= 0 {
              DeclareWinner(p.id);
            }
          }
        }
        assert state == Hit(g0, e, j);
        j := j + 1;
      }
    }

    /** The third phase of a tick: every explosion burns, from the last to
        the first; a spent one is removed, a live one strikes. */
    method ProcessExplosions()
      modifies this`state
      ensures state == Burns(old(state), |old(state).explosions|)
    {
      var i := |state.explosions|;
      while i > 0
        invariant 0 <= i <= |state.explosions|
        invariant Burns(state, i) == Burns(old(state), |old(state).explosions|)
      {
        i := i - 1;
        ghost var g0 := state;
        var e := state.explosions[i].(timer := state.explosions[i].timer - DT);
        if e.timer <= 0.0 {
          state := state.(explosions := Remove(state.explosions, i));
        } else {
          state := state.(explosions := state.explosions[i := e]);
          DamagePlayers(e);
        }
        assert state == Burn(g0, i);
      }
    }

    // -------------------------------------------------------------------
    // The loop
    // -------------------------------------------------------------------

    /** `onTick`: nothing before the start or after a winner; otherwise the
        three phases and the banner's roll. */
    method OnTick(rolls: (int, int) -> real, adRoll: real)
      requires Valid()
      modifies this`state, this`playerInputs
      ensures Valid()
      ensures !gameStarted || old(state).winner != "" ==>
        state == old(state) && playerInputs == old(playerInputs)
      ensures gameStarted && old(state).winner == "" ==>
        Room(state, playerInputs) == Tick(Room(old(state), old(playerInputs)), rolls, adRoll)
    {
      if !gameStarted || state.winner != "" {
        return;
      }
      ProcessPlayers();
      ProcessBombs(rolls);
      ProcessExplosions();
      if state.adVisible && adRoll < 0.01 {
        state := state.(adVisible := false);
      }
      TickSound(Room(old(state), old(playerInputs)), rolls, adRoll);
    }

    // -------------------------------------------------------------------
    // Joining, leaving and the rematch
    // -------------------------------------------------------------------

    /** `onJoin`: the first player spawns top left, the second bottom right;
        the second join starts the game on a fresh grid. The framework
        hands out fresh session ids and locks the room once the game
        starts. */
    method OnJoin(id: string, rolls: (int, int) -> real)
      requires Valid() && !gameStarted
      requires forall k :: 0 <= k < |state.players| ==> state.players[k].id != id
      modifies this`state, this`playerInputs, this`gameStarted
      ensures Valid()
      ensures state.players == old(state).players +
        [if |old(state).players| == 0 then Spawned(id, 0, 0, P1_COLOR) else Spawned(id, COLS - 1, ROWS - 1, P2_COLOR)]
      ensures playerInputs == old(playerInputs)[id := InputPayload(0, 0, false)]
      ensures gameStarted <==> |state.players| == 2
      ensures state == old(state).(players := state.players,
                                   grid := if gameStarted then GeneratedGrid(rolls) else old(state).grid)
    {
      var p: Player;
      if |state.players| == 0 {
        p := Spawned(id, 0, 0, P1_COLOR);
      } else {
        p := Spawned(id, COLS - 1, ROWS - 1, P2_COLOR);
      }
      state := state.(players := state.players + [p]);
      playerInputs := playerInputs[id := InputPayload(0, 0, false)];
      if |state.players| == 2 {
        StartSound(state, rolls);
        InitializeGrid(rolls);
        gameStarted := true;
      }
    }

    /** `onLeave`: leaving a running game hands the win to the last other
        living player; the player and its input are dropped. */
    method OnLeave(id: string)
      requires Valid()
      modifies this`state, this`playerInputs
      ensures Valid()
      ensures gameStarted && old(state).winner == "" ==>
        state.winner == LastSurvivor(old(state).players, id, "")
      ensures !(gameStarted && old(state).winner == "") ==> state.winner == old(state).winner
      ensures forall k :: 0 <= k < |state.players| ==> state.players[k].id != id
      ensures |state.players| == |old(state).players| - (if IndexOf(old(state).players, id).Some? then 1 else 0)
      ensures state == old(state).(winner := state.winner,
        players := if IndexOf(old(state).players, id).Some?
                   then Remove(old(state).players, IndexOf(old(state).players, id).value)
                   else old(state).players)
      ensures playerInputs == old(playerInputs) - {id}
    {
      if gameStarted && state.winner == "" {
        DeclareWinner(id);
      }
      var k := IndexOf(state.players, id);
      if k.Some? {
        RemovePlayerIds(state.players, k.value);
        if gameStarted {
          RemovePlayerSound(state, k.value);
        } else {
          RemovePlayerLobby(state, k.value);
        }
        state := state.(players := Remove(state.players, k.value));
      }
      playerInputs := playerInputs - {id};
    }

    /** `restartGame`: votes, field and chat are cleared, every player is
        put back at its spawn point with the starting loadout (the first in
        map order top left, every other one bottom right) and a zero input,
        and a fresh grid is laid out. */
    method RestartGame(rolls: (int, int) -> real)
      requires Valid() && gameStarted
      modifies this`state, this`playerInputs, this`rematchPlayers, this`rematchVotes,
        this`rematchPending, this`chatMessages
      ensures Valid()
      ensures rematchPlayers == {} && rematchVotes == 0 && !rematchPending && chatMessages == []
      ensures state.grid == GeneratedGrid(rolls)
      ensures state.bombs == [] && state.explosions == [] && state.powerups == []
      ensures state.winner == "" && !state.adVisible
      ensures |state.players| == |old(state).players|
      ensures forall k :: 0 <= k < |state.players| ==> state.players[k] == Respawned(old(state).players[k], k)
      ensures forall k :: 0 <= k < |state.players| ==>
        state.players[k].id in playerInputs && playerInputs[state.players[k].id] == InputPayload(0, 0, false)
      ensures forall id :: id in old(playerInputs) ==> id in playerInputs
      ensures forall id :: id in playerInputs && (forall k :: 0 <= k < |state.players| ==> state.players[k].id != id) ==>
        id in old(playerInputs) && playerInputs[id] == old(playerInputs)[id]
    {
      rematchPlayers := {};
      rematchVotes := 0;
      rematchPending := false;
      state := state.(bombs := [], explosions := [], powerups := [], winner := "", adVisible := false);
      chatMessages := [];
      ghost var ps := state.players;
      RespawnPlayers();
      RespawnedLobby(state, ps);
      StartSound(state, rolls);
      InitializeGrid(rolls);
    }

    /** The reset loop of `restartGame`: every player, in map order, is put
        back at its spawn point with the starting loadout and a zero input;
        inputs of anyone else are kept. */
    method RespawnPlayers()
      modifies this`state, this`playerInputs
      ensures state == old(state).(players := state.players)
      ensures |state.players| == |old(state).players|
      ensures forall k :: 0 <= k < |state.players| ==> state.players[k] == Respawned(old(state).players[k], k)
      ensures forall k :: 0 <= k < |state.players| ==>
        state.players[k].id in playerInputs && playerInputs[state.players[k].id] == InputPayload(0, 0, false)
      ensures forall id :: id in old(playerInputs) ==> id in playerInputs
      ensures forall id :: id in playerInputs && (forall k :: 0 <= k < |state.players| ==> state.players[k].id != id) ==>
        id in old(playerInputs) && playerInputs[id] == old(playerInputs)[id]
    {
      ghost var ps := state.players;
      var j := 0;
      while j < |state.players|
        invariant 0 <= j <= |state.players| == |ps|
        invariant state == old(state).(players := state.players)
        invariant forall k :: 0 <= k < j ==> state.players[k] == Respawned(ps[k], k)
        invariant forall k :: j <= k < |ps| ==> state.players[k] == ps[k]
        invariant forall k :: 0 <= k < j ==> ps[k].id in playerInputs && playerInputs[ps[k].id] == InputPayload(0, 0, false)
        invariant forall id :: id in old(playerInputs) ==> id in playerInputs
        invariant forall id :: id in playerInputs && (forall k :: 0 <= k < j ==> ps[k].id != id) ==>
          id in old(playerInputs) && playerInputs[id] == old(playerInputs)[id]
      {
        var pid := state.players[j].id;
        state := state.(players := state.players[j := Respawned(state.players[j], j)]);
        playerInputs := playerInputs[pid := InputPayload(0, 0, false)];
        j := j + 1;
      }
    }

    /** `rematch`: after the game, every player may vote once; the second
        vote restarts the game. */
    method OnRematch(id: string, rolls: (int, int) -> real)
      requires Valid()
      modifies this`state, this`playerInputs, this`rematchPlayers, this`rematchVotes,
        this`rematchPending, this`chatMessages
      ensures Valid()
      ensures old(state).winner == "" || id in old(rematchPlayers) ==>
        && state == old(state) && playerInputs == old(playerInputs) && rematchPlayers == old(rematchPlayers)
        && rematchVotes == old(rematchVotes) && rematchPending == old(rematchPending) && chatMessages == old(chatMessages)
      ensures old(state).winner != "" && id !in old(rematchPlayers) && |old(rematchPlayers) + {id}| < 2 ==>
        && state == old(state) && playerInputs == old(playerInputs) && chatMessages == old(chatMessages)
        && rematchPlayers == old(rematchPlayers) + {id} && rematchVotes == |rematchPlayers| && rematchPending
      ensures old(state).winner != "" && id !in old(rematchPlayers) && |old(rematchPlayers) + {id}| >= 2 ==>
        && rematchPlayers == {} && rematchVotes == 0 && !rematchPending && chatMessages == []
        && state.winner == "" && !state.adVisible && state.grid == GeneratedGrid(rolls)
        && state.bombs == [] && state.explosions == [] && state.powerups == []
        && |state.players| == |old(state).players|
        && (forall k :: 0 <= k < |state.players| ==> state.players[k] == Respawned(old(state).players[k], k))
        && (forall k :: 0 <= k < |state.players| ==>
              state.players[k].id in playerInputs && playerInputs[state.players[k].id] == InputPayload(0, 0, false))
        && (forall id' :: id' in old(playerInputs) ==> id' in playerInputs)
        && (forall id' :: id' in playerInputs && (forall k :: 0 <= k < |state.players| ==> state.players[k].id != id') ==>
              id' in old(playerInputs) && playerInputs[id'] == old(playerInputs)[id'])
    {
      if state.winner == "" {
        return;
      }
      if id in rematchPlayers {
        return;
      }
      rematchPlayers := rematchPlayers + {id};
      rematchVotes := |rematchPlayers|;
      rematchPending := true;
      if |rematchPlayers| >= 2 {
        RestartGame(rolls);
      }
    }

    /** `input`: the latest input of a player replaces the previous one. */
    method OnInput(id: string, input: InputPayload)
      requires Valid()
      modifies this`playerInputs
      ensures Valid()
      ensures playerInputs == old(playerInputs)[id := input]
    {
      playerInputs := playerInputs[id := input];
    }

    /** `emoji`: a player shows a reaction for two seconds. */
    method OnEmoji(id: string, emoji: string)
      requires Valid()
      modifies this`state
      ensures Valid()
      ensures match IndexOf(old(state).players, id)
        case None => state == old(state)
        case Some(k) => state == old(state).(players := old(state).players[k := old(state).players[k].(emoji := emoji, emojiTimer := EMOJI_DURATION)])
    {
      var k := IndexOf(state.players, id);
      if k.Some? {
        var p := state.players[k.value].(emoji := emoji, emojiTimer := EMOJI_DURATION);
        if gameStarted {
          ReplacePlayerSound(state, k.value, p);
        }
        state := state.(players := state.players[k.value := p]);
      }
    }

    /** `chat`: after the game, a non-empty message of at most 100 UTF-16
        code units is appended, and only the last 20 messages are kept. */
    method OnChat(id: string, message: string, now: int)
      requires Valid()
      modifies this`chatMessages
      ensures Valid()
      ensures state.winner == "" || message == "" || Utf16Length(message) > CHAT_MAX_LENGTH ==> chatMessages == old(chatMessages)
      ensures !(state.winner == "" || message == "" || Utf16Length(message) > CHAT_MAX_LENGTH) ==>
        chatMessages == Recent(old(chatMessages) + [ChatMessage(id, message, now)])
    {
      if state.winner == "" {
        return;
      }
      if message == "" || Utf16Length(message) > CHAT_MAX_LENGTH {
        return;
      }
      var text := message[..Min(|message|, CHAT_MAX_LENGTH)];
      assert text == message;
      chatMessages := chatMessages + [ChatMessage(id, text, now)];
      KeepRecent();
    }

    /** Drop the oldest messages until at most 20 are left. */
    method KeepRecent()
      modifies this`chatMessages
      ensures chatMessages == Recent(old(chatMessages))
    {
      ghost var log := chatMessages;
      ghost var dropped := 0;
      while |chatMessages| > CHAT_CAPACITY
        invariant 0 <= dropped <= |log| && chatMessages == log[dropped..]
        invariant dropped == 0 || |log| - dropped >= CHAT_CAPACITY
        decreases |chatMessages|
      {
        chatMessages := chatMessages[1..];
        dropped := dropped + 1;
      }
    }
  }
}

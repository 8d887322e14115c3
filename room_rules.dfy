/** The server's step (server/rooms/BomberRoom.ts, onTick) as functions
    over values: one player's turn, the damage pass, and the whole tick.
    Class BomberRoom in module Server is proved against these. */
module RoomRules {
  import opened Types
  import opened Arena
  import opened Invariants

  const TICK_RATE: int := 30
  /** The fixed step of the server loop, in seconds. */
  const DT: real := 1.0 / 30.0
  /** How long an emoji reaction stays up, in seconds. */
  const EMOJI_DURATION: real := 2.0

  /** The simulated world together with the latest input of every player. */
  datatype Room = Room(game: GameState, inputs: map<string, InputPayload>)

  // ---------------------------------------------------------------------
  // Phase 1: inputs and movement
  // ---------------------------------------------------------------------

  /** One direction at a time: a vertical intent wins over a horizontal one. */
  function Normalise(input: InputPayload): (r: (int, int))
    ensures r.0 == 0 || r.1 == 0
    ensures input.dy != 0 ==> r == (0, input.dy)
    ensures input.dy == 0 ==> r == (input.dx, 0)
  {
    if input.dy != 0 then (0, input.dy) else (input.dx, input.dy)
  }

  /** The emoji timer runs down while positive; the emoji clears when it
      runs out. */
  function Fade(p: Player, dt: real): Player {
    if p.emojiTimer > 0.0 then
      var t := p.emojiTimer - dt;
      p.(emojiTimer := t, emoji := if t <= 0.0 then "" else p.emoji)
    else p
  }

  /** Interpolation of player `j`; on arrival the last power-up in the list
      lying on its cell is collected. */
  function Advance(g: GameState, j: nat): (res: GameState)
    requires j < |g.players|
    ensures OnlyTouches(g.players, res.players, j)
    ensures res.players[j].gx == g.players[j].gx && res.players[j].gy == g.players[j].gy
    ensures res.grid == g.grid && res.explosions == g.explosions && res.bombs == g.bombs
    ensures res.winner == g.winner
    ensures res.players[j].activeBombs == g.players[j].activeBombs
  {
    var q := g.players[j];
    var g1 := g.(players := g.players[j := Glide(q, DT)]);
    if Arrives(q, DT) then PickUpFound(g1, j, LastPowerupAt(g1.powerups, q.gx, q.gy)) else g1
  }

  /** The invincibility and emoji timers of player `j` run down. */
  function Tock(g: GameState, j: nat): GameState
    requires j < |g.players|
  {
    g.(players := g.players[j := Fade(Cooldown(g.players[j], DT), DT)])
  }

  /** Player `j` moves by the (already normalised) offset: the step starts
      when it can, the position is interpolated with pick-up on arrival,
      and the timers run down. */
  function Move(g: GameState, j: nat, dx: int, dy: int): (res: GameState)
    requires j < |g.players|
    ensures OnlyTouches(g.players, res.players, j)
    ensures res.grid == g.grid && res.explosions == g.explosions && res.bombs == g.bombs
    ensures res.winner == g.winner
    ensures res.players[j].activeBombs == g.players[j].activeBombs
  {
    Tock(Advance(g.(players := g.players[j := StartStep(g.players[j], g.grid, g.bombs, dx, dy)]), j), j)
  }

  /** Player `j`'s part of a tick. A player without input or without lives
      is skipped. Otherwise a requested bomb is placed and the request is
      consumed, and the player moves by the normalised offset. */
  function Turn(r: Room, j: nat): (res: Room)
    requires j < |r.game.players|
    ensures OnlyTouches(r.game.players, res.game.players, j)
    ensures res.game.grid == r.game.grid && res.game.explosions == r.game.explosions
    ensures res.game.winner == r.game.winner
  {
    var p := r.game.players[j];
    if p.id !in r.inputs || p.lives <= 0 then r
    else
      var input := r.inputs[p.id];
      var g1 := if input.placeBomb then PlaceBomb(r.game, j) else r.game;
      var inputs1 := if input.placeBomb then r.inputs[p.id := input.(placeBomb := false)] else r.inputs;
      var step := Normalise(input);
      Room(Move(g1, j, step.0, step.1), inputs1)
  }

  /** The turns of players `j` onwards, in map order. */
  function Turns(r: Room, j: nat): (res: Room)
    requires j <= |r.game.players|
    ensures |res.game.players| == |r.game.players|
    ensures res.game.grid == r.game.grid && res.game.explosions == r.game.explosions
    ensures res.game.winner == r.game.winner
    ensures forall k :: 0 <= k < |r.game.players| ==>
      res.game.players[k].id == r.game.players[k].id && res.game.players[k].lives == r.game.players[k].lives
    decreases |r.game.players| - j
  {
    if j == |r.game.players| then r else Turns(Turn(r, j), j + 1)
  }

  // ---------------------------------------------------------------------
  // Phase 3: explosions and damage
  // ---------------------------------------------------------------------

  /** Another player, still alive. */
  predicate Survives(p: Player, id: string) {
    p.id != id && p.lives > 0
  }

  /** Naming a winner: every other living player overwrites `w` in map
      order, so the last of them wins; with none, `w` stays. */
  function LastSurvivor(players: seq<Player>, id: string, w: string): string
    decreases |players|
  {
    if |players| == 0 then w
    else if Survives(players[|players| - 1], id) then players[|players| - 1].id
    else LastSurvivor(players[..|players| - 1], id, w)
  }

  /** The scan keeps `w` when no other player is alive, and otherwise names
      the last other living player in map order. */
  lemma {:induction false} LastSurvivorNames(players: seq<Player>, id: string, w: string)
    ensures var r := LastSurvivor(players, id, w);
      && ((forall k :: 0 <= k < |players| ==> !Survives(players[k], id)) ==> r == w)
      && ((exists k :: 0 <= k < |players| && Survives(players[k], id)) ==>
            exists m :: 0 <= m < |players| && Survives(players[m], id) && r == players[m].id &&
              forall k :: m < k < |players| ==> !Survives(players[k], id))
    decreases |players|
  {
    if |players| > 0 {
      var n := |players| - 1;
      if !Survives(players[n], id) {
        var front := players[..n];
        LastSurvivorNames(front, id, w);
        assert forall k :: 0 <= k < n ==> front[k] == players[k];
        assert forall k :: 0 <= k < |players| && Survives(players[k], id) ==> k < n && Survives(front[k], id);
      }
    }
  }

  /** Explosion `e` against player `j`. A living player without immunity
      whose pixel position lies in the explosion's tile loses a life and is
      immune for three seconds; when that was its last life, the other
      living players are scanned for the winner. */
  function Hit(g: GameState, e: Explosion, j: nat): (res: GameState)
    requires j < |g.players|
    ensures res == g.(players := res.players, winner := res.winner)
    ensures |res.players| == |g.players|
  {
    var p := g.players[j];
    if p.lives <= 0 || p.invincibleTimer > 0.0 then g
    else if PixelCell(p.x) == e.gx && PixelCell(p.y) == e.gy then
      var g1 := g.(players := g.players[j := p.(lives := p.lives - 1, invincibleTimer := HIT_IMMUNITY)]);
      if p.lives - 1 <= 0 then g1.(winner := LastSurvivor(g1.players, p.id, g1.winner)) else g1
    else g
  }

  /** Explosion `e` against players `j` onwards. */
  function Damage(g: GameState, e: Explosion, j: nat): (res: GameState)
    requires j <= |g.players|
    ensures res == g.(players := res.players, winner := res.winner)
    ensures |res.players| == |g.players|
    decreases |g.players| - j
  {
    if j == |g.players| then g else Damage(Hit(g, e, j), e, j + 1)
  }

  /** Explosion `i` burns for one step: it leaves when its timer runs out,
      and otherwise strikes the players. */
  function Burn(g: GameState, i: nat): (res: GameState)
    requires i < |g.explosions|
    ensures |res.explosions| >= i && res.explosions[..i] == g.explosions[..i]
    ensures |res.players| == |g.players|
  {
    var e := g.explosions[i].(timer := g.explosions[i].timer - DT);
    if e.timer <= 0.0 then g.(explosions := Remove(g.explosions, i))
    else Damage(g.(explosions := g.explosions[i := e]), e, 0)
  }

  /** The explosion loop over explosions `k - 1` down to 0. */
  function Burns(g: GameState, k: nat): (res: GameState)
    requires k <= |g.explosions|
    ensures |res.players| == |g.players|
    decreases k
  {
    if k == 0 then g else Burns(Burn(g, k - 1), k - 1)
  }

  // ---------------------------------------------------------------------
  // The tick
  // ---------------------------------------------------------------------

  /** A running tick: inputs and movement, fuses, explosions, and the ad
      banner's chance to hide. `rolls` are the power-up rolls of the blocks
      destroyed in this tick, `adRoll` the banner's roll. */
  function Tick(r: Room, rolls: (int, int) -> real, adRoll: real): Room {
    var r1 := Turns(r, 0);
    var g2 := Fuses(r1.game, |r1.game.bombs|, DT, rolls);
    Room(HideAd(Burns(g2, |g2.explosions|), adRoll), r1.inputs)
  }

  // ---------------------------------------------------------------------
  // Properties of a turn
  // ---------------------------------------------------------------------

  /** A turn places at most one bomb: exactly one, on the player's cell with
      the player's range and a full fuse, when a living player asked for it,
      has a bomb left and finds no bomb on its cell; none otherwise. The
      request is consumed whenever a living player's input is read, and no
      other player's input changes. */
  lemma TurnPlacement(r: Room, j: nat)
    requires j < |r.game.players|
    ensures var p, res := r.game.players[j], Turn(r, j);
      if p.id in r.inputs && p.lives > 0 && r.inputs[p.id].placeBomb
         && !BombAt(r.game.bombs, p.gx, p.gy) && p.activeBombs < p.maxBombs
      then res.game.bombs == r.game.bombs + [Bomb(p.gx, p.gy, p.id, BOMB_TIMER, p.range)]
        && res.game.players[j].activeBombs == p.activeBombs + 1
      else res.game.bombs == r.game.bombs && res.game.players[j].activeBombs == p.activeBombs
  {
    var p := r.game.players[j];
    if p.id in r.inputs && p.lives > 0 && r.inputs[p.id].placeBomb {
      var g1 := PlaceBomb(r.game, j);
      var step := Normalise(r.inputs[p.id]);
      assert Turn(r, j).game == Move(g1, j, step.0, step.1);
    }
  }

  /** A living player's bomb request is consumed when its input is read; no
      other input changes. */
  lemma TurnConsumesRequest(r: Room, j: nat)
    requires j < |r.game.players|
    ensures var p, res := r.game.players[j], Turn(r, j);
      && res.inputs.Keys == r.inputs.Keys
      && (p.id in r.inputs && p.lives > 0 ==> !res.inputs[p.id].placeBomb)
      && (p.id in r.inputs && p.lives <= 0 ==> res.inputs[p.id] == r.inputs[p.id])
      && (forall id :: id in r.inputs && id != p.id ==> res.inputs[id] == r.inputs[id])
  {
  }

  /** Moving keeps a player consistent and on free ground, provided the
      offset is along one axis (which normalisation ensures). */
  lemma MoveSound(g: GameState, j: nat, dx: int, dy: int)
    requires Sound(g) && j < |g.players| && (dx == 0 || dy == 0)
    ensures Sound(Move(g, j, dx, dy))
  {
    var g0 := g.(players := g.players[j := StartStep(g.players[j], g.grid, g.bombs, dx, dy)]);
    StepSound(g, j, dx, dy);
    AdvanceSound(g0, j);
    TockSound(Advance(g0, j), j);
  }

  /** Starting an axis-aligned step keeps the state sound. */
  lemma StepSound(g: GameState, j: nat, dx: int, dy: int)
    requires Sound(g) && j < |g.players| && (dx == 0 || dy == 0)
    ensures Sound(g.(players := g.players[j := StartStep(g.players[j], g.grid, g.bombs, dx, dy)]))
  {
    var p := g.players[j];
    StartStepSound(p, g.grid, g.bombs, dx, dy);
    ReplacePlayerSound(g, j, StartStep(p, g.grid, g.bombs, dx, dy));
  }

  /** Interpolation, with the pick-up on arrival, keeps the state sound. */
  lemma AdvanceSound(g: GameState, j: nat)
    requires Sound(g) && j < |g.players|
    ensures Sound(Advance(g, j))
  {
    var q := g.players[j];
    GlideShape(q, DT);
    ReplacePlayerSound(g, j, Glide(q, DT));
    var g1 := g.(players := g.players[j := Glide(q, DT)]);
    if Arrives(q, DT) {
      PickUpSound(g1, j, LastPowerupAt(g1.powerups, q.gx, q.gy));
    }
  }

  /** Running the timers down keeps the state sound. */
  lemma TockSound(g: GameState, j: nat)
    requires Sound(g) && j < |g.players|
    ensures Sound(Tock(g, j))
  {
    ReplacePlayerSound(g, j, Fade(Cooldown(g.players[j], DT), DT));
  }

  /** An arrival collects at most one power-up: the last one in the list
      lying on the cell the player ends the turn in. */
  lemma MovePicksAtMostOne(g: GameState, j: nat, dx: int, dy: int)
    requires j < |g.players|
    ensures var res := Move(g, j, dx, dy); var q := res.players[j];
      || res.powerups == g.powerups
      || exists k :: && 0 <= k < |g.powerups| && PowerupOn(g.powerups[k], q.gx, q.gy)
                     && (forall i :: k < i < |g.powerups| ==> !PowerupOn(g.powerups[i], q.gx, q.gy))
                     && res.powerups == Remove(g.powerups, k)
  {
    var q := StartStep(g.players[j], g.grid, g.bombs, dx, dy);
    var g1 := g.(players := g.players[j := Glide(q, DT)]);
    if Arrives(q, DT) {
      var found := LastPowerupAt(g1.powerups, q.gx, q.gy);
      if found.Some? {
        assert Glide(q, DT).gx == q.gx && Glide(q, DT).gy == q.gy;
        assert PowerupOn(g.powerups[found.value], Move(g, j, dx, dy).players[j].gx, Move(g, j, dx, dy).players[j].gy);
      }
    }
  }

  lemma TurnSound(r: Room, j: nat)
    requires Sound(r.game) && j < |r.game.players|
    ensures Sound(Turn(r, j).game)
  {
    var p := r.game.players[j];
    if p.id in r.inputs && p.lives > 0 {
      var input := r.inputs[p.id];
      var g1 := if input.placeBomb then PlaceBomb(r.game, j) else r.game;
      if input.placeBomb {
        PlaceBombSound(r.game, j);
      }
      MoveSound(g1, j, Normalise(input).0, Normalise(input).1);
    }
  }

  lemma {:induction false} TurnsSound(r: Room, j: nat)
    requires Sound(r.game) && j <= |r.game.players|
    ensures Sound(Turns(r, j).game)
    decreases |r.game.players| - j
  {
    if j < |r.game.players| {
      TurnSound(r, j);
      TurnsSound(Turn(r, j), j + 1);
    }
  }

  // ---------------------------------------------------------------------
  // Properties of the damage pass
  // ---------------------------------------------------------------------

  /** `q` is `p`, or `p` hit once: it was alive and not immune, and lost a
      life and became immune. */
  predicate HitOnce(p: Player, q: Player) {
    || q == p
    || (p.lives > 0 && p.invincibleTimer <= 0.0 && q == p.(lives := p.lives - 1, invincibleTimer := HIT_IMMUNITY))
  }

  predicate AtMostOneHit(ps: seq<Player>, qs: seq<Player>) {
    |qs| == |ps| && forall k :: 0 <= k < |ps| ==> HitOnce(ps[k], qs[k])
  }

  /** A player hit once is immune, so a second pass cannot hit it again. */
  lemma AtMostOneHitTrans(a: seq<Player>, b: seq<Player>, c: seq<Player>)
    requires AtMostOneHit(a, b) && AtMostOneHit(b, c)
    ensures AtMostOneHit(a, c)
  {
    forall k | 0 <= k < |a| ensures HitOnce(a[k], c[k]) {
      assert HitOnce(a[k], b[k]) && HitOnce(b[k], c[k]);
    }
  }

  /** A hit changes only lives and immunity, so it keeps a state sound. */
  lemma HitsKeepSound(g: GameState, ps: seq<Player>)
    requires Sound(g) && AtMostOneHit(g.players, ps)
    ensures Sound(g.(players := ps))
  {
    assert forall k :: 0 <= k < |ps| ==> HitOnce(g.players[k], ps[k]);
  }

  /** When a hit takes a player's last life, the winner becomes another
      player that is still alive, the last such in map order; with no such
      player, and after any other hit or miss, the winner stays. */
  lemma HitNamesSurvivor(g: GameState, e: Explosion, j: nat)
    requires j < |g.players|
    ensures var p, res := g.players[j], Hit(g, e, j);
      if p.lives > 0 && res.players[j].lives <= 0 && exists k :: 0 <= k < |g.players| && Survives(g.players[k], p.id)
      then exists m :: 0 <= m < |g.players| && Survives(g.players[m], p.id) && res.winner == g.players[m].id &&
                       (forall k :: m < k < |g.players| ==> !Survives(g.players[k], p.id))
      else res.winner == g.winner
  {
    var p := g.players[j];
    var res := Hit(g, e, j);
    if p.lives > 0 && res.players[j].lives <= 0 {
      var ps := res.players;
      LastSurvivorNames(ps, p.id, g.winner);
      assert forall k :: 0 <= k < |g.players| ==> (Survives(ps[k], p.id) <==> Survives(g.players[k], p.id));
    }
  }

  lemma {:induction false} DamageAtMostOnce(g: GameState, e: Explosion, j: nat)
    requires j <= |g.players|
    ensures AtMostOneHit(g.players, Damage(g, e, j).players)
    decreases |g.players| - j
  {
    if j < |g.players| {
      var h := Hit(g, e, j);
      assert AtMostOneHit(g.players, h.players);
      DamageAtMostOnce(h, e, j + 1);
      AtMostOneHitTrans(g.players, h.players, Damage(h, e, j + 1).players);
    }
  }

  lemma BurnSound(g: GameState, i: nat)
    requires Sound(g) && i < |g.explosions|
    ensures Sound(Burn(g, i))
  {
    var e := g.explosions[i].(timer := g.explosions[i].timer - DT);
    if e.timer <= 0.0 {
      var r := Remove(g.explosions, i);
      assert forall k :: 0 <= k < |r| ==> r[k] == g.explosions[if k < i then k else k + 1];
    } else {
      var g1 := g.(explosions := g.explosions[i := e]);
      DamageAtMostOnce(g1, e, 0);
      HitsKeepSound(g1, Damage(g1, e, 0).players);
    }
  }

  lemma {:induction false} BurnsSound(g: GameState, k: nat)
    requires Sound(g) && k <= |g.explosions|
    ensures Sound(Burns(g, k))
    decreases k
  {
    if k > 0 {
      BurnSound(g, k - 1);
      BurnsSound(Burn(g, k - 1), k - 1);
    }
  }

  // ---------------------------------------------------------------------
  // Properties of a tick
  // ---------------------------------------------------------------------

  /** A tick keeps a sound state sound. */
  lemma TickSound(r: Room, rolls: (int, int) -> real, adRoll: real)
    requires Sound(r.game)
    ensures Sound(Tick(r, rolls, adRoll).game)
  {
    var r1 := Turns(r, 0);
    TurnsSound(r, 0);
    var g2 := Fuses(r1.game, |r1.game.bombs|, DT, rolls);
    FusesSound(r1.game, |r1.game.bombs|, DT, rolls);
    BurnsSound(g2, |g2.explosions|);
  }

  /** In one tick a player loses at most one life, a player without lives
      loses none, and one that loses a life ends the tick immune for three
      seconds. */
  lemma TickOneHit(r: Room, rolls: (int, int) -> real, adRoll: real)
    ensures var before, after := r.game.players, Tick(r, rolls, adRoll).game.players;
      && |after| == |before|
      && forall k :: 0 <= k < |before| ==>
           || after[k].lives == before[k].lives
           || (before[k].lives > 0 && after[k].lives == before[k].lives - 1 && after[k].invincibleTimer == HIT_IMMUNITY)
  {
    var r1 := Turns(r, 0);
    var g2 := Fuses(r1.game, |r1.game.bombs|, DT, rolls);
    BurnsAtMostOnce(g2, |g2.explosions|);
    var after := Tick(r, rolls, adRoll).game.players;
    assert AtMostOneHit(g2.players, after);
    forall k | 0 <= k < |r.game.players|
      ensures || after[k].lives == r.game.players[k].lives
              || (r.game.players[k].lives > 0 && after[k].lives == r.game.players[k].lives - 1 && after[k].invincibleTimer == HIT_IMMUNITY)
    {
      assert g2.players[k].lives == r1.game.players[k].lives == r.game.players[k].lives;
      assert HitOnce(g2.players[k], after[k]);
    }
  }

  lemma {:induction false} BurnsAtMostOnce(g: GameState, k: nat)
    requires k <= |g.explosions|
    ensures AtMostOneHit(g.players, Burns(g, k).players)
    decreases k
  {
    if k > 0 {
      var e := g.explosions[k - 1].(timer := g.explosions[k - 1].timer - DT);
      if e.timer > 0.0 {
        DamageAtMostOnce(g.(explosions := g.explosions[k - 1 := e]), e, 0);
      }
      assert AtMostOneHit(g.players, Burn(g, k - 1).players);
      BurnsAtMostOnce(Burn(g, k - 1), k - 1);
      AtMostOneHitTrans(g.players, Burn(g, k - 1).players, Burns(Burn(g, k - 1), k - 1).players);
    }
  }

  // ---------------------------------------------------------------------
  // A hit that must happen
  // ---------------------------------------------------------------------

  /** A living player without immunity whose pixel position lies in the
      explosion's tile: the server's condition for a hit. */
  predicate Exposed(p: Player, e: Explosion) {
    p.lives > 0 && p.invincibleTimer <= 0.0 && PixelCell(p.x) == e.gx && PixelCell(p.y) == e.gy
  }

  /** Player `j`, alive, not immune and with its pixel position in the
      tile of explosion `e`, is hit by the damage pass over players `j0`
      onwards whenever `j0 <= j`, and hit only once. */
  lemma {:induction false} DamageStrikes(g: GameState, e: Explosion, j0: nat, j: nat)
    requires j0 <= j < |g.players|
    requires Exposed(g.players[j], e)
    ensures var p := g.players[j];
      Damage(g, e, j0).players[j] == p.(lives := p.lives - 1, invincibleTimer := HIT_IMMUNITY)
    decreases j - j0
  {
    var p := g.players[j];
    var h := Hit(g, e, j0);
    assert Damage(g, e, j0) == Damage(h, e, j0 + 1);
    if j0 < j {
      assert h.players[j] == p;
      DamageStrikes(h, e, j0 + 1, j);
    } else {
      assert h.players[j] == p.(lives := p.lives - 1, invincibleTimer := HIT_IMMUNITY);
      DamageAtMostOnce(h, e, j0 + 1);
      assert HitOnce(h.players[j], Damage(h, e, j0 + 1).players[j]);
    }
  }

  /** The explosion loop over explosions `k - 1` down to 0 takes exactly one
      life from player `j` when one of those explosions, `i`, still burns
      after this step's countdown and lies under the player's pixel
      position, and the player enters the loop alive and not immune. */
  lemma {:induction false} BurnsStrike(g: GameState, k: nat, i: nat, j: nat)
    requires i < k <= |g.explosions| && j < |g.players|
    requires Exposed(g.players[j], g.explosions[i]) && g.explosions[i].timer - DT > 0.0
    ensures var p := g.players[j];
      Burns(g, k).players[j] == p.(lives := p.lives - 1, invincibleTimer := HIT_IMMUNITY)
    decreases k
  {
    var p := g.players[j];
    var g1 := Burn(g, k - 1);
    var e := g.explosions[k - 1].(timer := g.explosions[k - 1].timer - DT);
    BurnsAtMostOnce(g1, k - 1);
    if i == k - 1 {
      DamageStrikes(g.(explosions := g.explosions[k - 1 := e]), e, 0, j);
      assert HitOnce(g1.players[j], Burns(g1, k - 1).players[j]);
    } else {
      if e.timer > 0.0 {
        DamageAtMostOnce(g.(explosions := g.explosions[k - 1 := e]), e, 0);
      }
      assert HitOnce(p, g1.players[j]);
      assert g1.explosions[i] == g1.explosions[..k - 1][i] == g.explosions[..k - 1][i];
      if g1.players[j] == p {
        BurnsStrike(g1, k - 1, i, j);
      } else {
        assert HitOnce(g1.players[j], Burns(g1, k - 1).players[j]);
      }
    }
  }

  /** The lower bound beside TickOneHit: a player that reaches the explosion
      phase of a tick (after movement and fuses, state `g2`) alive and not
      immune, with its pixel position in an explosion that still burns after
      the tick's countdown, ends the tick with exactly one life less and
      three seconds of immunity. */
  lemma TickStrikes(r: Room, rolls: (int, int) -> real, adRoll: real, i: nat, j: nat)
    ensures var r1 := Turns(r, 0);
      var g2 := Fuses(r1.game, |r1.game.bombs|, DT, rolls);
      i < |g2.explosions| && j < |g2.players| &&
      Exposed(g2.players[j], g2.explosions[i]) && g2.explosions[i].timer - DT > 0.0 ==>
        && j < |r.game.players|
        && Tick(r, rolls, adRoll).game.players[j].lives == r.game.players[j].lives - 1
        && Tick(r, rolls, adRoll).game.players[j].invincibleTimer == HIT_IMMUNITY
  {
    var r1 := Turns(r, 0);
    var g2 := Fuses(r1.game, |r1.game.bombs|, DT, rolls);
    if i < |g2.explosions| && j < |g2.players| &&
       Exposed(g2.players[j], g2.explosions[i]) && g2.explosions[i].timer - DT > 0.0 {
      var g3 := Burns(g2, |g2.explosions|);
      BurnsStrike(g2, |g2.explosions|, i, j);
      assert Tick(r, rolls, adRoll).game.players == g3.players;
      assert g2.players[j].lives == r1.game.players[j].lives by {
        assert BombCountsOnly(r1.game.players, g2.players);
      }
    }
  }
}

/** The peer-to-peer copy of the step (utils/gameLogic.ts, updateGame) as
    functions over values, its invariant proofs, and the places where it
    departs from the server's step of module RoomRules. The methods of
    module GameLogic are proved against these. */
module PeerRules {
  import opened Types
  import opened Arena
  import opened Invariants
  import opened RoomRules

  // ---------------------------------------------------------------------
  // The initial state
  // ---------------------------------------------------------------------

  /** The players of a new match, host first. The source builds them in one
      object literal keyed by id, so when both ids are equal only the later
      entry (the second player's) survives. */
  function StartingPlayers(hostId: string, clientId: string): (ps: seq<Player>)
    ensures DistinctIds(ps) && 1 <= |ps| <= 2
    ensures ps[|ps| - 1] == Spawned(clientId, COLS - 1, ROWS - 1, P2_COLOR)
    ensures |ps| == 2 <==> hostId != clientId
    ensures |ps| == 2 ==> ps[0] == Spawned(hostId, 0, 0, P1_COLOR)
  {
    if hostId == clientId then [Spawned(clientId, COLS - 1, ROWS - 1, P2_COLOR)]
    else [Spawned(hostId, 0, 0, P1_COLOR), Spawned(clientId, COLS - 1, ROWS - 1, P2_COLOR)]
  }

  /** Every input is along one axis: the inputs under which the peer
      update is proved to keep a state sound. */
  predicate Axial(inputs: map<string, InputPayload>) {
    forall id :: id in inputs ==> inputs[id].dx == 0 || inputs[id].dy == 0
  }

  // ---------------------------------------------------------------------
  // Phase 1: inputs and movement
  // ---------------------------------------------------------------------

  /** A living player with a bomb request tries to place a bomb. The request
      is read but not consumed. */
  function PeerPlace(g: GameState, inputs: map<string, InputPayload>, j: nat): (res: GameState)
    requires j < |g.players|
    ensures OnlyTouches(g.players, res.players, j)
    ensures res.grid == g.grid && res.explosions == g.explosions && res.powerups == g.powerups
    ensures res.winner == g.winner && res.adVisible == g.adVisible
  {
    var p := g.players[j];
    if p.id in inputs && inputs[p.id].placeBomb && p.lives > 0 then PlaceBomb(g, j) else g
  }

  /** A living player with input starts a step by the input's offset, as it
      is: no axis takes priority. */
  function PeerStart(g: GameState, inputs: map<string, InputPayload>, j: nat): (res: GameState)
    requires j < |g.players|
    ensures OnlyTouches(g.players, res.players, j)
    ensures res == g.(players := res.players)
    ensures res.players[j].activeBombs == g.players[j].activeBombs
  {
    var p := g.players[j];
    if p.id in inputs && p.lives > 0 then
      g.(players := g.players[j := StartStep(p, g.grid, g.bombs, inputs[p.id].dx, inputs[p.id].dy)])
    else g
  }

  /** Interpolation of player `j` over `dt`, alive or not; on arrival the
      first power-up in the list lying on its cell is collected. */
  function PeerAdvance(g: GameState, dt: real, j: nat): (res: GameState)
    requires j < |g.players|
    ensures OnlyTouches(g.players, res.players, j)
    ensures res.grid == g.grid && res.explosions == g.explosions && res.bombs == g.bombs
    ensures res.winner == g.winner
    ensures res.players[j].activeBombs == g.players[j].activeBombs
  {
    var q := g.players[j];
    var g1 := g.(players := g.players[j := Glide(q, dt)]);
    if Arrives(q, dt) then PickUpFound(g1, j, FirstPowerupAt(g1.powerups, q.gx, q.gy)) else g1
  }

  /** Player `j`'s part of a step: placement, step start, interpolation and
      the invincibility timer. Only the first two depend on the player
      having lives; emoji timers are not run here. */
  function PeerTurn(g: GameState, dt: real, inputs: map<string, InputPayload>, j: nat): (res: GameState)
    requires j < |g.players|
    ensures OnlyTouches(g.players, res.players, j)
    ensures res.grid == g.grid && res.explosions == g.explosions && res.winner == g.winner
  {
    var g3 := PeerAdvance(PeerStart(PeerPlace(g, inputs, j), inputs, j), dt, j);
    g3.(players := g3.players[j := Cooldown(g3.players[j], dt)])
  }

  /** The turns of players `j` onwards, in key order. */
  function PeerTurns(g: GameState, dt: real, inputs: map<string, InputPayload>, j: nat): (res: GameState)
    requires j <= |g.players|
    ensures |res.players| == |g.players|
    ensures res.grid == g.grid && res.explosions == g.explosions && res.winner == g.winner
    ensures forall k :: 0 <= k < |g.players| ==>
      res.players[k].id == g.players[k].id && res.players[k].lives == g.players[k].lives
    decreases |g.players| - j
  {
    if j == |g.players| then g else PeerTurns(PeerTurn(g, dt, inputs, j), dt, inputs, j + 1)
  }

  // ---------------------------------------------------------------------
  // Phase 2: fuses
  // ---------------------------------------------------------------------

  /** Bomb `i` burns for `dt`. A bomb whose fuse is out gives its owner the
      bomb back and leaves the list before its blast is laid out. */
  function PeerFuseStep(g: GameState, i: nat, dt: real, rolls: (int, int) -> real): (res: GameState)
    requires i < |g.bombs|
    ensures |res.bombs| >= i && res.bombs[..i] == g.bombs[..i]
  {
    var b := g.bombs[i].(timer := g.bombs[i].timer - dt);
    if b.timer <= 0.0 then Detonate(g.(bombs := Remove(g.bombs, i)), b, rolls)
    else g.(bombs := g.bombs[i := b])
  }

  /** The fuse loop over bombs `k - 1` down to 0. */
  function PeerFuses(g: GameState, k: nat, dt: real, rolls: (int, int) -> real): GameState
    requires k <= |g.bombs|
    decreases k
  {
    if k == 0 then g
    else PeerFuses(PeerFuseStep(g, k - 1, dt, rolls), k - 1, dt, rolls)
  }

  /** Removing the bomb before its blast or after it comes to the same: a
      blast never reads or writes the bomb list. */
  lemma PeerFuseStepAgrees(g: GameState, i: nat, dt: real, rolls: (int, int) -> real)
    requires i < |g.bombs|
    ensures PeerFuseStep(g, i, dt, rolls) == FuseStep(g, i, dt, rolls)
  {
    var b := g.bombs[i].(timer := g.bombs[i].timer - dt);
    FuseStepCases(g, i, dt, rolls);
    if b.timer <= 0.0 {
      var g1 := g.(bombs := g.bombs[i := b]);
      var rest := Remove(g.bombs, i);
      assert Remove(g1.bombs, i) == rest;
      DetonateIgnoresBombs(g1, rest, b, rolls);
      assert g1.(bombs := rest) == g.(bombs := rest);
      assert PeerFuseStep(g, i, dt, rolls) == Detonate(g.(bombs := rest), b, rolls);
    }
  }

  /** So the peer's whole fuse loop is the server's. */
  lemma {:induction false} PeerFusesAgree(g: GameState, k: nat, dt: real, rolls: (int, int) -> real)
    requires k <= |g.bombs|
    ensures PeerFuses(g, k, dt, rolls) == Fuses(g, k, dt, rolls)
    decreases k
  {
    if k > 0 {
      PeerFuseStepAgrees(g, k - 1, dt, rolls);
      PeerFusesAgree(FuseStep(g, k - 1, dt, rolls), k - 1, dt, rolls);
    }
  }

  // ---------------------------------------------------------------------
  // Phase 3: explosions and damage
  // ---------------------------------------------------------------------

  /** `Object.keys(players).find(key => key !== id)`: the first id in key
      order other than `id`, whatever that player's lives. */
  function FirstOther(players: seq<Player>, id: string): (r: Option<string>)
    ensures r.None? ==> forall k :: 0 <= k < |players| ==> players[k].id == id
    ensures r.Some? ==> exists m :: 0 <= m < |players| && players[m].id == r.value && r.value != id &&
                                    (forall k :: 0 <= k < m ==> players[k].id == id)
  {
    if |players| == 0 then None
    else if players[0].id != id then Some(players[0].id)
    else
      var r := FirstOther(players[1..], id);
      assert forall k :: 1 <= k < |players| ==> players[1..][k - 1] == players[k];
      r
  }

  /** Explosion `e` against player `j`. A living player without immunity
      whose logical cell is the explosion's loses a life and is immune for
      three seconds; when that was its last life, the first other id
      becomes the winner (unless it is the empty string, which is falsy). */
  function PeerHit(g: GameState, e: Explosion, j: nat): (res: GameState)
    requires j < |g.players|
    ensures res == g.(players := res.players, winner := res.winner)
    ensures |res.players| == |g.players|
  {
    var p := g.players[j];
    if p.lives > 0 && p.invincibleTimer <= 0.0 && p.gx == e.gx && p.gy == e.gy then
      var g1 := g.(players := g.players[j := p.(lives := p.lives - 1, invincibleTimer := HIT_IMMUNITY)]);
      if p.lives - 1 <= 0 then
        match FirstOther(g1.players, p.id)
        case Some(w) => if w != "" then g1.(winner := w) else g1
        case None => g1
      else g1
    else g
  }

  /** Explosion `e` against players `j` onwards. */
  function PeerDamage(g: GameState, e: Explosion, j: nat): (res: GameState)
    requires j <= |g.players|
    ensures res == g.(players := res.players, winner := res.winner)
    ensures |res.players| == |g.players|
    decreases |g.players| - j
  {
    if j == |g.players| then g else PeerDamage(PeerHit(g, e, j), e, j + 1)
  }

  /** Explosion `i` burns for `dt`: it leaves when its timer runs out, and
      otherwise strikes the players. */
  function PeerBurn(g: GameState, i: nat, dt: real): (res: GameState)
    requires i < |g.explosions|
    ensures |res.explosions| >= i && res.explosions[..i] == g.explosions[..i]
    ensures |res.players| == |g.players|
  {
    var e := g.explosions[i].(timer := g.explosions[i].timer - dt);
    if e.timer <= 0.0 then g.(explosions := Remove(g.explosions, i))
    else PeerDamage(g.(explosions := g.explosions[i := e]), e, 0)
  }

  /** The explosion loop over explosions `k - 1` down to 0. */
  function PeerBurns(g: GameState, k: nat, dt: real): (res: GameState)
    requires k <= |g.explosions|
    ensures |res.players| == |g.players|
    decreases k
  {
    if k == 0 then g else PeerBurns(PeerBurn(g, k - 1, dt), k - 1, dt)
  }

  // ---------------------------------------------------------------------
  // The step
  // ---------------------------------------------------------------------

  /** `updateGame`: nothing once there is a winner; otherwise the three
      phases and the banner's roll. */
  function PeerStep(g: GameState, dt: real, inputs: map<string, InputPayload>,
                    rolls: (int, int) -> real, adRoll: real): GameState
  {
    if g.winner != "" then g
    else
      var g1 := PeerTurns(g, dt, inputs, 0);
      var g2 := PeerFuses(g1, |g1.bombs|, dt, rolls);
      HideAd(PeerBurns(g2, |g2.explosions|, dt), adRoll)
  }

  // ---------------------------------------------------------------------
  // The invariant
  // ---------------------------------------------------------------------

  lemma PeerTurnSound(g: GameState, dt: real, inputs: map<string, InputPayload>, j: nat)
    requires Sound(g) && Axial(inputs) && j < |g.players|
    ensures Sound(PeerTurn(g, dt, inputs, j))
  {
    PeerStartSound(g, inputs, j);
    var g1 := PeerStart(PeerPlace(g, inputs, j), inputs, j);
    PeerAdvanceSound(g1, dt, j);
    var g3 := PeerAdvance(g1, dt, j);
    ReplacePlayerSound(g3, j, Cooldown(g3.players[j], dt));
  }

  /** Placement and step start keep a state sound. */
  lemma PeerStartSound(g: GameState, inputs: map<string, InputPayload>, j: nat)
    requires Sound(g) && Axial(inputs) && j < |g.players|
    ensures Sound(PeerStart(PeerPlace(g, inputs, j), inputs, j))
  {
    var p := g.players[j];
    var g0 := PeerPlace(g, inputs, j);
    if p.id in inputs && inputs[p.id].placeBomb && p.lives > 0 {
      PlaceBombSound(g, j);
    }
    var q0 := g0.players[j];
    if p.id in inputs && p.lives > 0 {
      var input := inputs[p.id];
      StartStepSound(q0, g0.grid, g0.bombs, input.dx, input.dy);
      ReplacePlayerSound(g0, j, StartStep(q0, g0.grid, g0.bombs, input.dx, input.dy));
    }
  }

  /** Interpolation with pick-up keeps a state sound. */
  lemma PeerAdvanceSound(g: GameState, dt: real, j: nat)
    requires Sound(g) && j < |g.players|
    ensures Sound(PeerAdvance(g, dt, j))
  {
    var q := g.players[j];
    GlideShape(q, dt);
    ReplacePlayerSound(g, j, Glide(q, dt));
    var g1 := g.(players := g.players[j := Glide(q, dt)]);
    if Arrives(q, dt) {
      PickUpSound(g1, j, FirstPowerupAt(g1.powerups, q.gx, q.gy));
    }
  }

  lemma {:induction false} PeerTurnsSound(g: GameState, dt: real, inputs: map<string, InputPayload>, j: nat)
    requires Sound(g) && Axial(inputs) && j <= |g.players|
    ensures Sound(PeerTurns(g, dt, inputs, j))
    decreases |g.players| - j
  {
    if j < |g.players| {
      PeerTurnSound(g, dt, inputs, j);
      PeerTurnsSound(PeerTurn(g, dt, inputs, j), dt, inputs, j + 1);
    }
  }

  /** When a hit takes a player's last life, the winner becomes the first
      other id in key order, alive or not, unless that id is empty; with no
      other id, and after any other hit or miss, the winner stays. */
  lemma PeerHitNamesOther(g: GameState, e: Explosion, j: nat)
    requires j < |g.players|
    ensures var p, res := g.players[j], PeerHit(g, e, j);
      if p.lives > 0 && res.players[j].lives <= 0 && FirstOther(g.players, p.id).Some? && FirstOther(g.players, p.id).value != ""
      then res.winner == FirstOther(g.players, p.id).value && res.winner != p.id
      else res.winner == g.winner
  {
    var p := g.players[j];
    var res := PeerHit(g, e, j);
    if p.lives > 0 && res.players[j].lives <= 0 {
      var ps := g.players[j := p.(lives := p.lives - 1, invincibleTimer := HIT_IMMUNITY)];
      FirstOtherIds(g.players, ps, p.id);
    }
  }

  /** The first other id depends on the ids alone. */
  lemma {:induction false} FirstOtherIds(ps: seq<Player>, qs: seq<Player>, id: string)
    requires |ps| == |qs| && forall k :: 0 <= k < |ps| ==> ps[k].id == qs[k].id
    ensures FirstOther(ps, id) == FirstOther(qs, id)
    decreases |ps|
  {
    if |ps| > 0 && ps[0].id == id {
      FirstOtherIds(ps[1..], qs[1..], id);
    }
  }

  /** A turn places at most one bomb: exactly one, on the player's cell with
      the player's range and a full fuse, when a living player asks for it,
      has a bomb left and finds no bomb on its cell; none otherwise. */
  lemma PeerTurnPlacement(g: GameState, dt: real, inputs: map<string, InputPayload>, j: nat)
    requires j < |g.players|
    ensures var p, res := g.players[j], PeerTurn(g, dt, inputs, j);
      if p.id in inputs && inputs[p.id].placeBomb && p.lives > 0
         && !BombAt(g.bombs, p.gx, p.gy) && p.activeBombs < p.maxBombs
      then res.bombs == g.bombs + [Bomb(p.gx, p.gy, p.id, BOMB_TIMER, p.range)]
        && res.players[j].activeBombs == p.activeBombs + 1
      else res.bombs == g.bombs && res.players[j].activeBombs == p.activeBombs
  {
    var g1 := PeerStart(PeerPlace(g, inputs, j), inputs, j);
    assert PeerTurn(g, dt, inputs, j).bombs == PeerAdvance(g1, dt, j).bombs == g1.bombs;
  }

  /** Interpolation of player `j` keeps its cell. An arriving player ends
      at rest on its target, which on a shaped player is the cell's centre,
      and takes the first power-up on that cell when there is one, leaving
      the power-ups alone otherwise; any other player keeps its motion flag
      and the power-ups. */
  lemma PeerAdvanceArrives(g: GameState, dt: real, j: nat)
    requires j < |g.players|
    ensures var q, res := g.players[j], PeerAdvance(g, dt, j);
      var p := res.players[j];
      && p.gx == q.gx && p.gy == q.gy
      && (Arrives(q, dt) ==>
            && p.x == q.targetX && p.y == q.targetY && !p.moving
            && (PlayerShape(q) ==> p.x == Centre(q.gx) && p.y == Centre(q.gy))
            && ((forall k :: 0 <= k < |g.powerups| ==> !PowerupOn(g.powerups[k], q.gx, q.gy)) ==>
                  res.powerups == g.powerups)
            && ((exists k :: 0 <= k < |g.powerups| && PowerupOn(g.powerups[k], q.gx, q.gy)) ==>
                  exists m :: && 0 <= m < |g.powerups| && PowerupOn(g.powerups[m], q.gx, q.gy)
                              && (forall k :: 0 <= k < m ==> !PowerupOn(g.powerups[k], q.gx, q.gy))
                              && res.powerups == Remove(g.powerups, m)))
      && (!Arrives(q, dt) ==> res.powerups == g.powerups && p.moving == q.moving)
  {
    var q := g.players[j];
    var g1 := g.(players := g.players[j := Glide(q, dt)]);
    if Arrives(q, dt) {
      var found := FirstPowerupAt(g1.powerups, q.gx, q.gy);
      assert g1.players[j].gx == q.gx && g1.players[j].gy == q.gy;
      match found
      case None =>
      case Some(m) =>
        assert PeerAdvance(g, dt, j) == PickUp(g1, j, m);
    }
  }

  /** An arrival collects at most one power-up: the first one in the list
      lying on the cell the player ends the turn in. */
  lemma PeerTurnPicksAtMostOne(g: GameState, dt: real, inputs: map<string, InputPayload>, j: nat)
    requires j < |g.players|
    ensures var res := PeerTurn(g, dt, inputs, j); var q := res.players[j];
      || res.powerups == g.powerups
      || exists k :: && 0 <= k < |g.powerups| && PowerupOn(g.powerups[k], q.gx, q.gy)
                     && (forall i :: 0 <= i < k ==> !PowerupOn(g.powerups[i], q.gx, q.gy))
                     && res.powerups == Remove(g.powerups, k)
  {
    var g1 := PeerStart(PeerPlace(g, inputs, j), inputs, j);
    assert g1.powerups == g.powerups;
    var q := g1.players[j];
    var g2 := g1.(players := g1.players[j := Glide(q, dt)]);
    if Arrives(q, dt) {
      var found := FirstPowerupAt(g2.powerups, q.gx, q.gy);
      if found.Some? {
        assert Glide(q, dt).gx == q.gx && Glide(q, dt).gy == q.gy;
        assert PeerTurn(g, dt, inputs, j).players[j].gx == q.gx && PeerTurn(g, dt, inputs, j).players[j].gy == q.gy;
      }
    }
  }

  lemma {:induction false} PeerDamageAtMostOnce(g: GameState, e: Explosion, j: nat)
    requires j <= |g.players|
    ensures AtMostOneHit(g.players, PeerDamage(g, e, j).players)
    decreases |g.players| - j
  {
    if j < |g.players| {
      var h := PeerHit(g, e, j);
      assert AtMostOneHit(g.players, h.players);
      PeerDamageAtMostOnce(h, e, j + 1);
      AtMostOneHitTrans(g.players, h.players, PeerDamage(h, e, j + 1).players);
    }
  }

  lemma PeerBurnSound(g: GameState, i: nat, dt: real)
    requires Sound(g) && i < |g.explosions|
    ensures Sound(PeerBurn(g, i, dt))
  {
    var e := g.explosions[i].(timer := g.explosions[i].timer - dt);
    if e.timer <= 0.0 {
      var r := Remove(g.explosions, i);
      assert forall k :: 0 <= k < |r| ==> r[k] == g.explosions[if k < i then k else k + 1];
    } else {
      var g1 := g.(explosions := g.explosions[i := e]);
      PeerDamageAtMostOnce(g1, e, 0);
      HitsKeepSound(g1, PeerDamage(g1, e, 0).players);
    }
  }

  lemma {:induction false} PeerBurnsSound(g: GameState, k: nat, dt: real)
    requires Sound(g) && k <= |g.explosions|
    ensures Sound(PeerBurns(g, k, dt))
    decreases k
  {
    if k > 0 {
      PeerBurnSound(g, k - 1, dt);
      PeerBurnsSound(PeerBurn(g, k - 1, dt), k - 1, dt);
    }
  }

  /** A step keeps a sound state sound when every input is along one axis. */
  lemma PeerStepSound(g: GameState, dt: real, inputs: map<string, InputPayload>, rolls: (int, int) -> real, adRoll: real)
    requires Sound(g) && Axial(inputs)
    ensures Sound(PeerStep(g, dt, inputs, rolls, adRoll))
  {
    if g.winner == "" {
      var g1 := PeerTurns(g, dt, inputs, 0);
      PeerTurnsSound(g, dt, inputs, 0);
      PeerFusesAgree(g1, |g1.bombs|, dt, rolls);
      FusesSound(g1, |g1.bombs|, dt, rolls);
      var g2 := PeerFuses(g1, |g1.bombs|, dt, rolls);
      PeerBurnsSound(g2, |g2.explosions|, dt);
    }
  }

  lemma {:induction false} PeerBurnsAtMostOnce(g: GameState, k: nat, dt: real)
    requires k <= |g.explosions|
    ensures AtMostOneHit(g.players, PeerBurns(g, k, dt).players)
    decreases k
  {
    if k > 0 {
      var e := g.explosions[k - 1].(timer := g.explosions[k - 1].timer - dt);
      if e.timer > 0.0 {
        PeerDamageAtMostOnce(g.(explosions := g.explosions[k - 1 := e]), e, 0);
      }
      assert AtMostOneHit(g.players, PeerBurn(g, k - 1, dt).players);
      PeerBurnsAtMostOnce(PeerBurn(g, k - 1, dt), k - 1, dt);
      AtMostOneHitTrans(g.players, PeerBurn(g, k - 1, dt).players, PeerBurns(PeerBurn(g, k - 1, dt), k - 1, dt).players);
    }
  }

  /** In one step a player loses at most one life, a player without lives
      loses none, and one that loses a life ends the step immune for three
      seconds. */
  lemma PeerStepOneHit(g: GameState, dt: real, inputs: map<string, InputPayload>, rolls: (int, int) -> real, adRoll: real)
    ensures var before, after := g.players, PeerStep(g, dt, inputs, rolls, adRoll).players;
      && |after| == |before|
      && forall k :: 0 <= k < |before| ==>
           || after[k].lives == before[k].lives
           || (before[k].lives > 0 && after[k].lives == before[k].lives - 1 && after[k].invincibleTimer == HIT_IMMUNITY)
  {
    if g.winner == "" {
      var g1 := PeerTurns(g, dt, inputs, 0);
      PeerFusesAgree(g1, |g1.bombs|, dt, rolls);
      var g2 := PeerFuses(g1, |g1.bombs|, dt, rolls);
      PeerBurnsAtMostOnce(g2, |g2.explosions|, dt);
      var after := PeerStep(g, dt, inputs, rolls, adRoll).players;
      assert AtMostOneHit(g2.players, after);
      forall k | 0 <= k < |g.players|
        ensures || after[k].lives == g.players[k].lives
                || (g.players[k].lives > 0 && after[k].lives == g.players[k].lives - 1 && after[k].invincibleTimer == HIT_IMMUNITY)
      {
        assert g2.players[k].lives == g1.players[k].lives == g.players[k].lives;
        assert HitOnce(g2.players[k], after[k]);
      }
    }
  }

  // ---------------------------------------------------------------------
  // A hit that must happen
  // ---------------------------------------------------------------------

  /** A living player without immunity whose logical cell is the
      explosion's: the peer's condition for a hit. */
  predicate PeerExposed(p: Player, e: Explosion) {
    p.lives > 0 && p.invincibleTimer <= 0.0 && p.gx == e.gx && p.gy == e.gy
  }

  /** Player `j`, exposed to explosion `e`, is hit by the peer damage pass
      over players `j0` onwards whenever `j0 <= j`, and hit only once. */
  lemma {:induction false} PeerDamageStrikes(g: GameState, e: Explosion, j0: nat, j: nat)
    requires j0 <= j < |g.players|
    requires PeerExposed(g.players[j], e)
    ensures var p := g.players[j];
      PeerDamage(g, e, j0).players[j] == p.(lives := p.lives - 1, invincibleTimer := HIT_IMMUNITY)
    decreases j - j0
  {
    var p := g.players[j];
    var h := PeerHit(g, e, j0);
    assert PeerDamage(g, e, j0) == PeerDamage(h, e, j0 + 1);
    if j0 < j {
      assert h.players[j] == p;
      PeerDamageStrikes(h, e, j0 + 1, j);
    } else {
      assert h.players[j] == p.(lives := p.lives - 1, invincibleTimer := HIT_IMMUNITY);
      PeerDamageAtMostOnce(h, e, j0 + 1);
      assert HitOnce(h.players[j], PeerDamage(h, e, j0 + 1).players[j]);
    }
  }

  /** The peer explosion loop over explosions `k - 1` down to 0 takes exactly
      one life from player `j` when one of those explosions, `i`, still
      burns after the countdown by `dt` and lies on the player's logical
      cell, and the player enters the loop alive and not immune. */
  lemma {:induction false} PeerBurnsStrike(g: GameState, k: nat, i: nat, j: nat, dt: real)
    requires i < k <= |g.explosions| && j < |g.players|
    requires PeerExposed(g.players[j], g.explosions[i]) && g.explosions[i].timer - dt > 0.0
    ensures var p := g.players[j];
      PeerBurns(g, k, dt).players[j] == p.(lives := p.lives - 1, invincibleTimer := HIT_IMMUNITY)
    decreases k
  {
    var p := g.players[j];
    var g1 := PeerBurn(g, k - 1, dt);
    var e := g.explosions[k - 1].(timer := g.explosions[k - 1].timer - dt);
    PeerBurnsAtMostOnce(g1, k - 1, dt);
    if i == k - 1 {
      PeerDamageStrikes(g.(explosions := g.explosions[k - 1 := e]), e, 0, j);
      assert HitOnce(g1.players[j], PeerBurns(g1, k - 1, dt).players[j]);
    } else {
      if e.timer > 0.0 {
        PeerDamageAtMostOnce(g.(explosions := g.explosions[k - 1 := e]), e, 0);
      }
      assert HitOnce(p, g1.players[j]);
      assert g1.explosions[i] == g1.explosions[..k - 1][i] == g.explosions[..k - 1][i];
      if g1.players[j] == p {
        PeerBurnsStrike(g1, k - 1, i, j, dt);
      } else {
        assert HitOnce(g1.players[j], PeerBurns(g1, k - 1, dt).players[j]);
      }
    }
  }

  /** The lower bound beside PeerStepOneHit: while there is no winner, a
      player that reaches the explosion phase of a step (after movement and
      fuses, state `g2`) alive and not immune, on the logical cell of an
      explosion that still burns after the countdown by `dt`, ends the step
      with exactly one life less and three seconds of immunity. */
  lemma PeerStepStrikes(g: GameState, dt: real, inputs: map<string, InputPayload>,
                        rolls: (int, int) -> real, adRoll: real, i: nat, j: nat)
    ensures var g1 := PeerTurns(g, dt, inputs, 0);
      var g2 := PeerFuses(g1, |g1.bombs|, dt, rolls);
      g.winner == "" && i < |g2.explosions| && j < |g2.players| &&
      PeerExposed(g2.players[j], g2.explosions[i]) && g2.explosions[i].timer - dt > 0.0 ==>
        && j < |g.players|
        && PeerStep(g, dt, inputs, rolls, adRoll).players[j].lives == g.players[j].lives - 1
        && PeerStep(g, dt, inputs, rolls, adRoll).players[j].invincibleTimer == HIT_IMMUNITY
  {
    var g1 := PeerTurns(g, dt, inputs, 0);
    var g2 := PeerFuses(g1, |g1.bombs|, dt, rolls);
    if g.winner == "" && i < |g2.explosions| && j < |g2.players| &&
       PeerExposed(g2.players[j], g2.explosions[i]) && g2.explosions[i].timer - dt > 0.0 {
      var g3 := PeerBurns(g2, |g2.explosions|, dt);
      PeerBurnsStrike(g2, |g2.explosions|, i, j, dt);
      assert PeerStep(g, dt, inputs, rolls, adRoll).players == g3.players;
      assert g2.players[j].lives == g1.players[j].lives by {
        PeerFusesAgree(g1, |g1.bombs|, dt, rolls);
        assert BombCountsOnly(g1.players, g2.players);
      }
    }
  }

  // ---------------------------------------------------------------------
  // Where the peer copy departs from the server
  // ---------------------------------------------------------------------

  /** The peer strikes by logical cell: a living player without immunity is
      hit exactly when its (already committed) grid cell is the explosion's,
      wherever its pixel position is. */
  lemma PeerHitByCell(g: GameState, e: Explosion, j: nat)
    requires j < |g.players|
    ensures var p, q := g.players[j], PeerHit(g, e, j).players[j];
      if p.lives > 0 && p.invincibleTimer <= 0.0 && p.gx == e.gx && p.gy == e.gy
      then q == p.(lives := p.lives - 1, invincibleTimer := HIT_IMMUNITY)
      else q == p
  {
  }

  /** The server strikes by pixel position: the same player is hit exactly
      when the tile under its pixel position is the explosion's. */
  lemma ServerHitByPixel(g: GameState, e: Explosion, j: nat)
    requires j < |g.players|
    ensures var p, q := g.players[j], Hit(g, e, j).players[j];
      if p.lives > 0 && p.invincibleTimer <= 0.0 && PixelCell(p.x) == e.gx && PixelCell(p.y) == e.gy
      then q == p.(lives := p.lives - 1, invincibleTimer := HIT_IMMUNITY)
      else q == p
  {
  }

  /** A player that has just committed a step from (0, 0) to (1, 0) but is
      still drawn at the centre of (0, 0): an explosion on (1, 0) hits it in
      the peer copy and misses it on the server. */
  lemma MidStepHitDiffers()
    ensures var p := Spawned("a", 0, 0, P1_COLOR).(gx := 1, targetX := Centre(1), moving := true);
      var g := GameState(GeneratedGrid((x, y) => 1.0), [p], [], [], [], "", false);
      var e := Explosion(1, 0, EXPLOSION_TIMER);
      && PeerHit(g, e, 0).players[0].lives == INITIAL_LIVES - 1
      && Hit(g, e, 0).players[0].lives == INITIAL_LIVES
  {
    var p := Spawned("a", 0, 0, P1_COLOR).(gx := 1, targetX := Centre(1), moving := true);
    assert p.x == 20.0;
    assert PixelCell(p.x) == 0 by {
      assert p.x / (TILE_SIZE as real) == 0.5;
    }
  }

  /** The peer's step start takes the offset as sent: a diagonal offset
      moves a player diagonally where the gate allows it, while the server
      keeps only the vertical part. */
  lemma DiagonalStepDiffers(g: GameState, dt: real, inputs: map<string, InputPayload>, j: nat)
    requires j < |g.players|
    requires var p := g.players[j];
      && p.id in inputs && p.lives > 0 && !p.moving && !inputs[p.id].placeBomb
      && inputs[p.id].dx != 0 && inputs[p.id].dy != 0
      && CanEnter(g.grid, g.bombs, p.gx + inputs[p.id].dx, p.gy + inputs[p.id].dy, p.gx, p.gy)
    ensures var p, input := g.players[j], inputs[g.players[j].id];
      && PeerTurn(g, dt, inputs, j).players[j].gx == p.gx + input.dx
      && PeerTurn(g, dt, inputs, j).players[j].gy == p.gy + input.dy
      && Turn(Room(g, inputs), j).game.players[j].gx == p.gx
  {
    PeerDiagonalStep(g, dt, inputs, j);
    ServerDiagonalStep(g, inputs, j);
  }

  /** The peer half of `DiagonalStepDiffers`: the player commits to the
      diagonal neighbour. */
  lemma PeerDiagonalStep(g: GameState, dt: real, inputs: map<string, InputPayload>, j: nat)
    requires j < |g.players|
    requires var p := g.players[j];
      && p.id in inputs && p.lives > 0 && !p.moving
      && inputs[p.id].dx != 0 && inputs[p.id].dy != 0
      && CanEnter(g.grid, PeerPlace(g, inputs, j).bombs, p.gx + inputs[p.id].dx, p.gy + inputs[p.id].dy, p.gx, p.gy)
    ensures var p, input := g.players[j], inputs[g.players[j].id];
      && PeerTurn(g, dt, inputs, j).players[j].gx == p.gx + input.dx
      && PeerTurn(g, dt, inputs, j).players[j].gy == p.gy + input.dy
  {
    var p, input := g.players[j], inputs[g.players[j].id];
    var g0 := PeerPlace(g, inputs, j);
    assert g0.players[j].gx == p.gx && g0.players[j].gy == p.gy && !g0.players[j].moving;
    var q := StartStep(g0.players[j], g0.grid, g0.bombs, input.dx, input.dy);
    var g1 := PeerStart(g0, inputs, j);
    assert g1.players[j] == q && q.gx == p.gx + input.dx && q.gy == p.gy + input.dy;
    assert Glide(q, dt).gx == q.gx && Glide(q, dt).gy == q.gy;
    assert PeerAdvance(g1, dt, j).players[j].gx == q.gx;
  }

  /** The server half of `DiagonalStepDiffers`: the horizontal part of a
      diagonal input is dropped, so the player keeps its column. */
  lemma ServerDiagonalStep(g: GameState, inputs: map<string, InputPayload>, j: nat)
    requires j < |g.players|
    requires var p := g.players[j]; p.id in inputs && inputs[p.id].dy != 0
    ensures Turn(Room(g, inputs), j).game.players[j].gx == g.players[j].gx
  {
    var p, input := g.players[j], inputs[g.players[j].id];
    if p.lives > 0 {
      var g1 := if input.placeBomb then PlaceBomb(g, j) else g;
      assert g1.players[j].gx == p.gx;
      assert Normalise(input) == (0, input.dy);
      var q := StartStep(g1.players[j], g1.grid, g1.bombs, 0, input.dy);
      assert q.gx == p.gx;
      var g2 := Advance(g1.(players := g1.players[j := q]), j);
      assert g2.players[j].gx == p.gx;
      assert Move(g1, j, 0, input.dy) == Tock(g2, j);
    }
  }

  /** A player without lives is frozen on the server, but in the peer copy
      it keeps gliding towards its target and its immunity keeps running
      down. */
  lemma DeadPlayerKeepsMoving(g: GameState, dt: real, inputs: map<string, InputPayload>, j: nat)
    requires j < |g.players| && g.players[j].lives <= 0
    ensures Turn(Room(g, inputs), j) == Room(g, inputs)
    ensures var p, q := g.players[j], PeerTurn(g, dt, inputs, j).players[j];
      && q.x == Glide(p, dt).x && q.y == Glide(p, dt).y && q.moving == Glide(p, dt).moving
      && q.invincibleTimer == Cooldown(p, dt).invincibleTimer
  {
    var p := g.players[j];
    var g1 := g.(players := g.players[j := Glide(p, dt)]);
    if Arrives(p, dt) {
      var found := FirstPowerupAt(g1.powerups, p.gx, p.gy);
      if found.Some? {
        var u := g1.powerups[found.value];
        assert PeerAdvance(g, dt, j).players[j] == Collect(Glide(p, dt), u.kind);
      }
    }
  }

  /** Two players with one life each stand on the same burning cell. The
      server names the second one winner (it was still alive when the first
      fell, and nobody is left when it falls); the peer copy names the
      first one, whose lives are already gone. */
  lemma DoubleKnockoutWinners()
    ensures var a := Spawned("a", 0, 0, P1_COLOR).(lives := 1);
      var b := Spawned("b", 0, 0, P2_COLOR).(lives := 1);
      var g := GameState(GeneratedGrid((x, y) => 1.0), [a, b], [], [], [], "", false);
      var e := Explosion(0, 0, EXPLOSION_TIMER);
      && Damage(g, e, 0).winner == "b"
      && PeerDamage(g, e, 0).winner == "a"
      && PeerDamage(g, e, 0).players[0].lives == 0
  {
    var a := Spawned("a", 0, 0, P1_COLOR).(lives := 1);
    var b := Spawned("b", 0, 0, P2_COLOR).(lives := 1);
    var g := GameState(GeneratedGrid((x, y) => 1.0), [a, b], [], [], [], "", false);
    var e := Explosion(0, 0, EXPLOSION_TIMER);
    assert PixelCell(Centre(0)) == 0 by {
      assert Centre(0) / (TILE_SIZE as real) == 0.5;
    }
    var h1 := Hit(g, e, 0);
    assert h1.players[0].lives == 0;
    assert h1.winner == LastSurvivor(h1.players, "a", "") == "b";
    var h2 := Hit(h1, e, 1);
    LastSurvivorNames(h2.players, "b", "b");
    assert h2.winner == LastSurvivor(h2.players, "b", "b") == "b";
    assert Damage(g, e, 0) == Damage(h2, e, 2) == h2;
    var k1 := PeerHit(g, e, 0);
    assert FirstOther(k1.players, "a") == Some("b");
    assert k1.winner == "b";
    var k2 := PeerHit(k1, e, 1);
    assert FirstOther(k2.players, "b") == Some("a");
    assert k2.winner == "a";
    assert PeerDamage(g, e, 0) == PeerDamage(k2, e, 2) == k2;
  }
}

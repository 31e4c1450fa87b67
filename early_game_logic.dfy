/**
 * The match engine of the earlier server (Project_claude/server/game_logic.go).
 * Targeting, the Queen's heal, the mana tick and the level-up cascade are the
 * same code as in the current server and are the `GameLogic` members; what
 * differs is modelled here:
 *   - a spent mana cost is never refunded;
 *   - the guard rule is keyed on the tower's type rather than its position;
 *   - a standing tower does not strike back, and a destroyed one gives no EXP;
 *   - a timeout is decided by the tower count alone;
 *   - the endings save both players through the player store.
 */
module EarlyGameLogic {
  import opened Wrappers
  import opened Models
  import GameLogic
  import DataManager

  // ------------------------------------------------------------- the guard rule

  /** The guard rule as written here: a King Tower may be attacked only once no guard stands. */
  predicate KindGateOpen(towers: map<string, Tower>, target: Tower) {
    target.kind == KING_TOWER ==> LivingGuards(towers) == {}
  }

  /** `canAttackTarget`: refuses at the first standing guard it meets when the target is a King Tower. */
  method CanAttackTarget(defender: PlayerData, target: Tower) returns (ok: bool)
    ensures ok <==> KindGateOpen(defender.towers, target)
  {
    if target.kind == KING_TOWER {
      var towers := defender.towers;
      var rest := towers.Keys;
      while rest != {}
        invariant rest <= towers.Keys
        invariant LivingGuardsAmong(towers, towers.Keys - rest) == {}
        decreases |rest|
      {
        var pos :| pos in rest;
        LivingGuardsAmongStep(towers, towers.Keys - rest, pos);
        assert (towers.Keys - rest) + {pos} == towers.Keys - (rest - {pos});
        if (pos == GUARD1 || pos == GUARD2) && towers[pos].hp > 0.0 {
          assert pos in LivingGuards(towers);
          return false;
        }
        rest := rest - {pos};
      }
      assert towers.Keys - rest == towers.Keys;
    }
    return true;
  }

  /**
   * On a valid player's towers the type-keyed rule and the position-keyed
   * rule of the current server agree for every tower a target word names.
   */
  lemma KindGateAgrees(player: PlayerData, p: string)
    requires ValidPlayer(player) && p in player.towers
    ensures KindGateOpen(player.towers, player.towers[p]) <==> GameLogic.GateOpen(player.towers, player.towers[p])
  {
    assert ValidTower(p, player.towers[p]);
  }

  // ------------------------------------------------------------- endings

  /** The player file after saving side `n` and then the other side, as the endings do. */
  function SavedResults(records: map<string, Option<PlayerData>>, m: Match, n: int): (r: map<string, Option<PlayerData>>)
    ensures r.Keys == records.Keys + {Side(m, n).username, Opponent(m, n).username}
    ensures r[Opponent(m, n).username] == Some(Opponent(m, n))
    ensures Side(m, n).username != Opponent(m, n).username ==> r[Side(m, n).username] == Some(Side(m, n))
    ensures forall u :: u in records && u != Side(m, n).username && u != Opponent(m, n).username ==> r[u] == records[u]
  {
    records[Side(m, n).username := Some(Side(m, n))][Opponent(m, n).username := Some(Opponent(m, n))]
  }

  /** `endGame`: the current server's ending, then the winner and the loser are saved. */
  method EndGame(g: GameState, store: DataManager.PlayerStore, winnerNum: int)
    modifies g, store
    ensures g.Snapshot() == GameLogic.EndGameSpec(old(g.Snapshot()), winnerNum)
    ensures store.storage == SavedResults(old(store.storage), g.Snapshot(), winnerNum)
    ensures store.cache == SavedResults(old(store.cache), g.Snapshot(), winnerNum)
  {
    GameLogic.EndGame(g, winnerNum);
    var winner := if winnerNum == 1 then g.player1 else g.player2;
    var loser := if winnerNum == 1 then g.player2 else g.player1;
    store.SavePlayerData(winner.username, winner);
    store.SavePlayerData(loser.username, loser);
  }

  /** `endGameDraw`: the current server's draw, then player 1 and player 2 are saved. */
  method EndGameDraw(g: GameState, store: DataManager.PlayerStore)
    modifies g, store
    ensures g.Snapshot() == GameLogic.EndGameDrawSpec(old(g.Snapshot()))
    ensures store.storage == SavedResults(old(store.storage), g.Snapshot(), 1)
    ensures store.cache == SavedResults(old(store.cache), g.Snapshot(), 1)
  {
    GameLogic.EndGameDraw(g);
    store.SavePlayerData(g.player1.username, g.player1);
    store.SavePlayerData(g.player2.username, g.player2);
  }

  /** `handleTowerDestruction`: only a King Tower matters, and it ends the match; no EXP for the tower. */
  function DestructionSpec(m: Match, winnerNum: int, tower: Tower): Match {
    if tower.kind == KING_TOWER then GameLogic.EndGameSpec(m, winnerNum) else m
  }

  method HandleTowerDestruction(g: GameState, store: DataManager.PlayerStore, tower: Tower, winnerNum: int)
    modifies g, store
    ensures g.Snapshot() == DestructionSpec(old(g.Snapshot()), winnerNum, tower)
    ensures tower.kind == KING_TOWER ==> store.storage == SavedResults(old(store.storage), g.Snapshot(), winnerNum)
    ensures tower.kind == KING_TOWER ==> store.cache == SavedResults(old(store.cache), g.Snapshot(), winnerNum)
    ensures tower.kind != KING_TOWER ==> store.storage == old(store.storage) && store.cache == old(store.cache)
  {
    if tower.kind == KING_TOWER {
      EndGame(g, store, winnerNum);
    }
  }

  // ------------------------------------------------------------- timeout

  /** Who wins when time runs out here (0 for a draw): more standing towers, and nothing else. */
  function TimeoutWinner(p1: PlayerData, p2: PlayerData): int {
    var count1 := |LivingTowers(p1.towers)|;
    var count2 := |LivingTowers(p2.towers)|;
    if count1 > count2 then 1 else if count2 > count1 then 2 else 0
  }

  function TimeoutSpec(m: Match): Match {
    var w := TimeoutWinner(m.player1, m.player2);
    if w == 0 then GameLogic.EndGameDrawSpec(m) else GameLogic.EndGameSpec(m, w)
  }

  /** The count rule: more standing towers win, equal counts draw; swapping the players swaps the winner. */
  lemma TimeoutCountRule(p1: PlayerData, p2: PlayerData)
    ensures TimeoutWinner(p1, p2) == 1 <==> |LivingTowers(p1.towers)| > |LivingTowers(p2.towers)|
    ensures TimeoutWinner(p1, p2) == 2 <==> |LivingTowers(p1.towers)| < |LivingTowers(p2.towers)|
    ensures TimeoutWinner(p1, p2) == 0 <==> |LivingTowers(p1.towers)| == |LivingTowers(p2.towers)|
    ensures TimeoutWinner(p2, p1) == (if TimeoutWinner(p1, p2) == 0 then 0 else 3 - TimeoutWinner(p1, p2))
  {
  }

  /**
   * The two servers decide a timeout alike unless exactly one king has
   * fallen: then the current server gives the match to the standing king
   * while this one still counts towers.
   */
  lemma TimeoutRulesAgree(p1: PlayerData, p2: PlayerData)
    ensures (KING in LivingTowers(p1.towers)) == (KING in LivingTowers(p2.towers))
            ==> TimeoutWinner(p1, p2) == GameLogic.TimeoutWinner(p1, p2)
  {
  }

  /** Two standing guards against a lone standing king: the guards win here and lose on the current server. */
  lemma TimeoutRulesDiffer(guard: Tower, king: Tower, fallenKing: Tower, p1: PlayerData, p2: PlayerData)
    requires guard.hp > 0.0 && king.hp > 0.0 && fallenKing.hp <= 0.0
    requires p1.towers == map[KING := fallenKing, GUARD1 := guard, GUARD2 := guard]
    requires p2.towers == map[KING := king]
    ensures TimeoutWinner(p1, p2) == 1
    ensures GameLogic.TimeoutWinner(p1, p2) == 2
  {
    assert LivingTowers(p1.towers) == {GUARD1, GUARD2};
    assert LivingTowers(p2.towers) == {KING};
  }

  /** `handleGameTimeout`: count both sides' standing towers, then end or draw, saving both players. */
  method HandleGameTimeout(g: GameState, store: DataManager.PlayerStore)
    modifies g, store
    ensures g.Snapshot() == TimeoutSpec(old(g.Snapshot()))
    ensures var w := TimeoutWinner(old(g.player1), old(g.player2));
            && store.storage == SavedResults(old(store.storage), g.Snapshot(), if w == 0 then 1 else w)
            && store.cache == SavedResults(old(store.cache), g.Snapshot(), if w == 0 then 1 else w)
  {
    var p1Towers := GameLogic.GetTowerCount(g.player1);
    var p2Towers := GameLogic.GetTowerCount(g.player2);
    if p1Towers > p2Towers {
      EndGame(g, store, 1);
    } else if p2Towers > p1Towers {
      EndGame(g, store, 2);
    } else {
      EndGameDraw(g, store);
    }
  }

  /** The body of the game timer once the duration has passed. */
  method TimerExpired(g: GameState?, store: DataManager.PlayerStore)
    modifies g, store
    ensures g != null ==> g.Snapshot() == (if old(g.isGameActive) then TimeoutSpec(old(g.Snapshot())) else old(g.Snapshot()))
    ensures g == null || !old(g.isGameActive) ==> store.storage == old(store.storage) && store.cache == old(store.cache)
  {
    if g != null && g.isGameActive {
      HandleGameTimeout(g, store);
    }
  }

  /** Every timeout ends the match, keeps it valid, and pays 30 EXP to the winner or 10 to each on a draw. */
  lemma TimeoutAccounting(m: Match)
    requires ValidMatch(m)
    ensures var w := TimeoutWinner(m.player1, m.player2);
            var m' := TimeoutSpec(m);
            && !m'.isGameActive
            && ValidMatch(m')
            && GameLogic.LifetimeExp(m'.player1)
               == GameLogic.LifetimeExp(m.player1) + (if w == 1 then GameLogic.WIN_EXP else if w == 0 then GameLogic.DRAW_EXP else 0.0)
            && GameLogic.LifetimeExp(m'.player2)
               == GameLogic.LifetimeExp(m.player2) + (if w == 2 then GameLogic.WIN_EXP else if w == 0 then GameLogic.DRAW_EXP else 0.0)
  {
    var w := TimeoutWinner(m.player1, m.player2);
    if w == 0 {
      GameLogic.DrawAccounting(m);
      GameLogic.DrawKeepsValid(m);
    } else {
      GameLogic.EndGameAccounting(m, w);
      GameLogic.EndGameKeepsValid(m, w);
    }
  }

  // ------------------------------------------------------------- attack

  /** The attack landed on `pos` for `damage`: the tower's HP drops, clamped at zero, and a fallen tower is destroyed. */
  function AfterHit(m: Match, n: int, pos: string, damage: real): Match
    requires pos in Opponent(m, n).towers
  {
    var defender := Opponent(m, n);
    var tower := defender.towers[pos];
    var hit := tower.(hp := GameLogic.TakeDamage(tower.hp, damage));
    var m1 := WithOpponent(m, n, defender.(towers := defender.towers[pos := hit]));
    if hit.hp <= 0.0 then DestructionSpec(m1, n, hit) else m1
  }

  /**
   * The state change of `processAttack` by side `n`: an inactive match, a
   * troop index outside the roster or too little mana change nothing;
   * otherwise the cost is paid and stays paid. A Queen heals her side's
   * weakest standing tower; any other troop needs a standing target the word
   * names and the type-keyed guard rule, and then hits it.
   */
  ghost predicate AttackStep(m: Match, n: int, troopIndex: int, targetType: string,
                             roll: real, o: GameLogic.Outcome, m': Match)
  {
    if !m.isGameActive then o == GameLogic.GameNotActive && m' == m
    else if !(0 <= troopIndex < |Side(m, n).troops|) then o == GameLogic.InvalidTroop && m' == m
    else
      var troop := Side(m, n).troops[troopIndex];
      if ManaOf(m, n) < troop.mana then o == GameLogic.NotEnoughMana && m' == m
      else
        PaidStep(m, n, troopIndex, targetType, roll, o, m')
  }

  /** The rest of `AttackStep` once the checks have passed and the cost of troop `troopIndex` is paid. */
  ghost predicate PaidStep(m: Match, n: int, troopIndex: int, targetType: string,
                           roll: real, o: GameLogic.Outcome, m': Match)
    requires 0 <= troopIndex < |Side(m, n).troops|
  {
    var troop := Side(m, n).troops[troopIndex];
    var paid := WithMana(m, n, ManaOf(m, n) - troop.mana);
    var towers := Opponent(m, n).towers;
    if troop.name == GameLogic.QUEEN then
      && o.QueenHealed?
      && GameLogic.QueenChoice(Side(m, n).towers, o.healed)
      && m' == WithSide(paid, n, GameLogic.HealedPlayer(Side(m, n), o.healed))
    else if forall p :: !GameLogic.Selectable(towers, targetType, p) then
      o == GameLogic.InvalidTarget && m' == paid
    else
      && (o.GuardsAlive? || o.Hit?)
      && GameLogic.Selectable(towers, targetType, o.target)
      && (o.GuardsAlive? <==> !KindGateOpen(towers, towers[o.target]))
      && (o.GuardsAlive? ==> m' == paid)
      && (o.Hit? ==>
            && o.damage == GameLogic.Damage(troop.atk, towers[o.target].def,
                                            GameLogic.IsCritical(roll, GameLogic.TROOP_CRIT_CHANCE))
            && o.destroyed == (towers[o.target].hp - o.damage <= 0.0)
            && m' == AfterHit(paid, n, o.target, o.damage))
  }

  /** The attack destroyed a King Tower, which ends the match. */
  predicate KilledKing(m: Match, n: int, o: GameLogic.Outcome) {
    o.Hit? && o.destroyed && o.target in Opponent(m, n).towers && Opponent(m, n).towers[o.target].kind == KING_TOWER
  }

  /**
   * `processAttack` for side `playerNum` with troop `troopIndex` against the
   * target word `targetType`; `roll` is the critical draw. The player store
   * changes only when the attack ends the match.
   */
  method ProcessAttack(g: GameState?, store: DataManager.PlayerStore, playerNum: int, troopIndex: int,
                       targetType: string, roll: real) returns (o: GameLogic.Outcome)
    modifies g, store
    ensures g == null ==> o == GameLogic.GameNotActive
    ensures g != null ==> AttackStep(old(g.Snapshot()), playerNum, troopIndex, targetType, roll, o, g.Snapshot())
    ensures g != null && KilledKing(old(g.Snapshot()), playerNum, o) ==>
              && store.storage == SavedResults(old(store.storage), g.Snapshot(), playerNum)
              && store.cache == SavedResults(old(store.cache), g.Snapshot(), playerNum)
    ensures g == null || !KilledKing(old(g.Snapshot()), playerNum, o) ==>
              store.storage == old(store.storage) && store.cache == old(store.cache)
  {
    if g == null || !g.isGameActive {
      return GameLogic.GameNotActive;
    }
    var attacker := if playerNum == 1 then g.player1 else g.player2;
    var defender := if playerNum == 1 then g.player2 else g.player1;
    var attackerMana := if playerNum == 1 then g.player1Mana else g.player2Mana;

    if troopIndex < 0 || troopIndex >= |attacker.troops| {
      return GameLogic.InvalidTroop;
    }
    var troop := attacker.troops[troopIndex];
    if attackerMana < troop.mana {
      return GameLogic.NotEnoughMana;
    }
    ghost var m := g.Snapshot();
    g.AddMana(playerNum, -troop.mana);
    o := Strike(g, store, m, playerNum, troopIndex, targetType, roll);
  }

  /** `processAttack` after the cost of troop `troopIndex` is paid. */
  method Strike(g: GameState, store: DataManager.PlayerStore, ghost m: Match, playerNum: int,
                troopIndex: int, targetType: string, roll: real) returns (o: GameLogic.Outcome)
    requires 0 <= troopIndex < |Side(m, playerNum).troops|
    requires g.Snapshot() == WithMana(m, playerNum, ManaOf(m, playerNum) - Side(m, playerNum).troops[troopIndex].mana)
    modifies g, store
    ensures PaidStep(m, playerNum, troopIndex, targetType, roll, o, g.Snapshot())
    ensures KilledKing(m, playerNum, o) ==>
              && store.storage == SavedResults(old(store.storage), g.Snapshot(), playerNum)
              && store.cache == SavedResults(old(store.cache), g.Snapshot(), playerNum)
    ensures !KilledKing(m, playerNum, o) ==>
              store.storage == old(store.storage) && store.cache == old(store.cache)
  {
    var attacker := if playerNum == 1 then g.player1 else g.player2;
    var defender := if playerNum == 1 then g.player2 else g.player1;
    var troop := attacker.troops[troopIndex];

    if troop.name == GameLogic.QUEEN {
      var healed, after := GameLogic.HandleQueenSpecial(attacker);
      g.SetSide(playerNum, after);
      return GameLogic.QueenHealed(healed);
    }

    var target := GameLogic.FindTargetTower(defender, targetType);
    if target.None? {
      return GameLogic.InvalidTarget;
    }
    var pos := target.value;
    var tower := defender.towers[pos];
    var allowed := CanAttackTarget(defender, tower);
    if !allowed {
      return GameLogic.GuardsAlive(pos);
    }

    var damage := GameLogic.Damage(troop.atk, tower.def, GameLogic.IsCritical(roll, GameLogic.TROOP_CRIT_CHANCE));
    var destroyed := ApplyHit(g, store, playerNum, pos, damage);
    return GameLogic.Hit(pos, damage, destroyed);
  }

  /**
   * The tail of `processAttack` once a hit lands: the tower's HP drops by
   * `damage`, clamped at zero, and a destroyed tower is handled as a
   * destruction; there is no counter-attack.
   */
  method ApplyHit(g: GameState, store: DataManager.PlayerStore, playerNum: int, pos: string,
                  damage: real) returns (destroyed: bool)
    requires pos in Opponent(g.Snapshot(), playerNum).towers
    modifies g, store
    ensures destroyed == (Opponent(old(g.Snapshot()), playerNum).towers[pos].hp - damage <= 0.0)
    ensures g.Snapshot() == AfterHit(old(g.Snapshot()), playerNum, pos, damage)
    ensures destroyed && Opponent(old(g.Snapshot()), playerNum).towers[pos].kind == KING_TOWER ==>
              && store.storage == SavedResults(old(store.storage), g.Snapshot(), playerNum)
              && store.cache == SavedResults(old(store.cache), g.Snapshot(), playerNum)
    ensures !(destroyed && Opponent(old(g.Snapshot()), playerNum).towers[pos].kind == KING_TOWER) ==>
              store.storage == old(store.storage) && store.cache == old(store.cache)
  {
    var defender := if playerNum == 1 then g.player2 else g.player1;
    var tower := defender.towers[pos];
    tower := tower.(hp := tower.hp - damage);
    if tower.hp < 0.0 {
      tower := tower.(hp := 0.0);
    }
    g.SetOpponent(playerNum, defender.(towers := defender.towers[pos := tower]));

    if tower.hp <= 0.0 {
      HandleTowerDestruction(g, store, tower, playerNum);
    }
    return tower.hp <= 0.0;
  }

  /**
   * No refund: once the mana check passes, the cost stays spent whatever
   * follows, and a refused target leaves the match otherwise as it was; the
   * opponent's mana never changes.
   */
  lemma AttackNeverRefunds(m: Match, n: int, troopIndex: int, targetType: string,
                           roll: real, o: GameLogic.Outcome, m': Match)
    requires AttackStep(m, n, troopIndex, targetType, roll, o, m')
    ensures o.GameNotActive? || o.InvalidTroop? || o.NotEnoughMana? ==> m' == m
    ensures !(o.GameNotActive? || o.InvalidTroop? || o.NotEnoughMana?) ==>
              ManaOf(m', n) == ManaOf(m, n) - Side(m, n).troops[troopIndex].mana
              && (if n == 1 then m'.player2Mana == m.player2Mana else m'.player1Mana == m.player1Mana)
    ensures o.InvalidTarget? || o.GuardsAlive? ==>
              m' == WithMana(m, n, ManaOf(m, n) - Side(m, n).troops[troopIndex].mana)
  {
  }

  /** A refused target costs the troop's mana here, and costs nothing on the current server. */
  lemma RefusedTargetCosts(m: Match, n: int, troopIndex: int, targetType: string,
                           roll: real, counterRoll: real, o: GameLogic.Outcome, m': Match, o2: GameLogic.Outcome, m2: Match)
    requires AttackStep(m, n, troopIndex, targetType, roll, o, m')
    requires GameLogic.AttackStep(m, n, troopIndex, targetType, roll, counterRoll, o2, m2)
    requires o.InvalidTarget? && o2.InvalidTarget?
    ensures ManaOf(m', n) == ManaOf(m, n) - Side(m, n).troops[troopIndex].mana
    ensures m2 == m
  {
  }

  /** A hit keeps tower HP in range, and a destruction keeps the match valid. */
  lemma AfterHitKeepsValid(m: Match, n: int, pos: string, damage: real)
    requires ValidMatch(m) && damage >= 0.0
    requires pos in Opponent(m, n).towers
    ensures ValidMatch(AfterHit(m, n, pos, damage))
  {
    var defender := Opponent(m, n);
    var tower := defender.towers[pos];
    assert ValidTower(pos, tower);
    var hit := tower.(hp := GameLogic.TakeDamage(tower.hp, damage));
    var m1 := WithOpponent(m, n, defender.(towers := defender.towers[pos := hit]));
    assert ValidMatch(m1);
    if hit.hp <= 0.0 && hit.kind == KING_TOWER {
      GameLogic.EndGameKeepsValid(m1, n);
    }
  }

  /** An attack keeps a valid match valid: mana in [0, 10], HP in range. */
  lemma AttackKeepsValid(m: Match, n: int, troopIndex: int, targetType: string,
                         roll: real, o: GameLogic.Outcome, m': Match)
    requires ValidMatch(m)
    requires AttackStep(m, n, troopIndex, targetType, roll, o, m')
    ensures ValidMatch(m')
  {
    if m.isGameActive && 0 <= troopIndex < |Side(m, n).troops| {
      var troop := Side(m, n).troops[troopIndex];
      assert ValidTroop(troop);
      if ManaOf(m, n) >= troop.mana {
        var paid := WithMana(m, n, ManaOf(m, n) - troop.mana);
        assert ValidMatch(paid);
        if troop.name == GameLogic.QUEEN {
          if o.healed.Some? {
            var p := o.healed.value;
            assert ValidTower(p, Side(m, n).towers[p]);
          }
        } else if o.Hit? {
          AfterHitKeepsValid(paid, n, o.target, o.damage);
        }
      }
    }
  }

  /** The guard rule: a hit on a King Tower happens only once neither guard stands. */
  lemma KingOnlyAfterGuards(m: Match, n: int, troopIndex: int, targetType: string,
                            roll: real, o: GameLogic.Outcome, m': Match)
    requires AttackStep(m, n, troopIndex, targetType, roll, o, m')
    requires o.Hit? && o.target in Opponent(m, n).towers && Opponent(m, n).towers[o.target].kind == KING_TOWER
    ensures LivingGuards(Opponent(m, n).towers) == {}
  {
  }

  /**
   * A live match ends by an attack exactly when the attack destroys a King
   * Tower; the attacker's lifetime EXP then rises by the 30 of the win
   * alone, and the defender's does not change.
   */
  lemma AttackEndsOnlyOnKingKill(m: Match, n: int, troopIndex: int, targetType: string,
                                 roll: real, o: GameLogic.Outcome, m': Match)
    requires m.isGameActive
    requires AttackStep(m, n, troopIndex, targetType, roll, o, m')
    ensures !m'.isGameActive <==> KilledKing(m, n, o)
    ensures KilledKing(m, n, o) ==>
              && GameLogic.LifetimeExp(Side(m', n)) == GameLogic.LifetimeExp(Side(m, n)) + GameLogic.WIN_EXP
              && GameLogic.LifetimeExp(Opponent(m', n)) == GameLogic.LifetimeExp(Opponent(m, n))
  {
    if o.Hit? {
      var troop := Side(m, n).troops[troopIndex];
      var paid := WithMana(m, n, ManaOf(m, n) - troop.mana);
      var defender := Opponent(paid, n);
      var tower := defender.towers[o.target];
      var hit := tower.(hp := GameLogic.TakeDamage(tower.hp, o.damage));
      var m1 := WithOpponent(paid, n, defender.(towers := defender.towers[o.target := hit]));
      if hit.hp <= 0.0 && hit.kind == KING_TOWER {
        GameLogic.EndGameAccounting(m1, n);
      }
    }
  }
}

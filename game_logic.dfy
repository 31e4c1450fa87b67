/**
 * The match engine of the current server (server/game_logic.go): damage,
 * targeting, the Queen's heal, the counter-attack, tower destruction, the
 * level-up cascade, the mana tick, timeout resolution and the two endings.
 *
 * Every random draw is a parameter: a critical hit happens when the `roll`
 * passed in (standing for `rand.Float64()`) is below the chance. Go's random
 * map iteration is a nondeterministic choice of the next key, and no
 * property below depends on the order.
 */
module GameLogic {
  import opened Wrappers
  import opened Models

  const TROOP_CRIT_CHANCE: real := 0.05
  const CRIT_MULTIPLIER: real := 1.2
  const QUEEN := "Queen"
  /** The target word that names either guard tower. */
  const ANY_GUARD := "guard"
  const HEAL_AMOUNT: real := 300.0
  /** The starting value of the Queen's lowest-HP search. */
  const HEAL_SENTINEL: real := 99999.0
  const LEVEL_SCALE: real := 1.1
  const WIN_EXP: real := 30.0
  const DRAW_EXP: real := 10.0

  /** `rand.Float64() < chance`, with the draw passed in as `roll`. */
  predicate IsCritical(roll: real, chance: real) {
    roll < chance
  }

  // ---------------------------------------------------------------- damage

  /**
   * The damage of an attack of strength `atk` against defence `def`: the
   * attack, raised by a fifth on a critical hit, less the defence, and
   * never below zero. Troop attacks and tower counter-attacks both use it.
   */
  function Damage(atk: real, def: real, critical: bool): (d: real)
    ensures d >= 0.0
    ensures d >= (if critical then atk * CRIT_MULTIPLIER else atk) - def
    ensures d == 0.0 || d == (if critical then atk * CRIT_MULTIPLIER else atk) - def
  {
    var base := if critical then atk * CRIT_MULTIPLIER else atk;
    if base - def < 0.0 then 0.0 else base - def
  }

  /** A critical hit never deals less, and a stronger defence never lets more through. */
  lemma DamageMonotone(atk: real, def: real, def': real, critical: bool)
    requires atk >= 0.0 && def <= def'
    ensures Damage(atk, def, false) <= Damage(atk, def, true)
    ensures Damage(atk, def', critical) <= Damage(atk, def, critical)
  {
  }

  /** An attack of 150 against a defence of 100 deals 50, or 80 on a critical hit. */
  lemma DamageExample()
    ensures Damage(150.0, 100.0, false) == 50.0
    ensures Damage(150.0, 100.0, true) == 80.0
    ensures Damage(80.0, 100.0, false) == 0.0
  {
  }

  /** HP after taking `damage`, clamped at zero. */
  function TakeDamage(hp: real, damage: real): (r: real)
    ensures r >= 0.0 && r >= hp - damage
    ensures r == 0.0 || r == hp - damage
  {
    if hp - damage < 0.0 then 0.0 else hp - damage
  }

  /**
   * The tower's answer to a troop that hit it and left it standing: the
   * tower's own attack and critical chance against the troop's defence.
   * Only the troop's HP changes, and it never rises or drops below zero.
   */
  function CounterAttack(tower: Tower, troop: Troop, roll: real): (t: Troop)
    ensures t == troop.(hp := t.hp)
    ensures troop.hp >= 0.0 ==> 0.0 <= t.hp <= troop.hp
    ensures t.hp > 0.0 ==> t.hp == troop.hp - Damage(tower.atk, troop.def, IsCritical(roll, tower.crit))
  {
    var damage := Damage(tower.atk, troop.def, IsCritical(roll, tower.crit));
    troop.(hp := TakeDamage(troop.hp, damage))
  }

  // ------------------------------------------------------------- targeting

  /** Whether the target word names position `pos`; "guard" names either guard. */
  predicate Selects(targetType: string, pos: string) {
    || (targetType == KING && pos == KING)
    || (targetType == GUARD1 && pos == GUARD1)
    || (targetType == GUARD2 && pos == GUARD2)
    || (targetType == ANY_GUARD && IsGuardPosition(pos))
  }

  /** A standing tower the target word names. */
  predicate Selectable(towers: map<string, Tower>, targetType: string, pos: string) {
    pos in towers && Alive(towers[pos]) && Selects(targetType, pos)
  }

  /**
   * `findTargetTower`: some standing tower the target word names, or None
   * when there is none; which guard "guard" yields depends on map order.
   */
  method FindTargetTower(defender: PlayerData, targetType: string) returns (pos: Option<string>)
    ensures pos.Some? ==> Selectable(defender.towers, targetType, pos.value)
    ensures pos.None? ==> forall p :: !Selectable(defender.towers, targetType, p)
  {
    var rest := defender.towers.Keys;
    while rest != {}
      invariant rest <= defender.towers.Keys
      invariant forall p :: p in defender.towers && p !in rest ==> !Selectable(defender.towers, targetType, p)
      decreases |rest|
    {
      var p :| p in rest;
      rest := rest - {p};
      if defender.towers[p].hp <= 0.0 {
        continue;
      }
      if targetType == KING {
        if p == KING { return Some(p); }
      } else if targetType == GUARD1 {
        if p == GUARD1 { return Some(p); }
      } else if targetType == GUARD2 {
        if p == GUARD2 { return Some(p); }
      } else if targetType == ANY_GUARD {
        if p == GUARD1 || p == GUARD2 { return Some(p); }
      }
    }
    return None;
  }

  /** The guard rule: the king may be attacked only once no guard stands. */
  predicate GateOpen(towers: map<string, Tower>, target: Tower) {
    target.position == KING ==> LivingGuards(towers) == {}
  }

  /** `canAttackTarget`: counts the standing guards when the target is the king. */
  method CanAttackTarget(defender: PlayerData, target: Tower) returns (ok: bool)
    ensures ok <==> GateOpen(defender.towers, target)
  {
    if target.position == KING {
      var towers := defender.towers;
      var guardTowersAlive := 0;
      var rest := towers.Keys;
      while rest != {}
        invariant rest <= towers.Keys
        invariant guardTowersAlive == |LivingGuardsAmong(towers, towers.Keys - rest)|
        decreases |rest|
      {
        var pos :| pos in rest;
        LivingGuardsAmongStep(towers, towers.Keys - rest, pos);
        assert (towers.Keys - rest) + {pos} == towers.Keys - (rest - {pos});
        if (pos == GUARD1 || pos == GUARD2) && towers[pos].hp > 0.0 {
          guardTowersAlive := guardTowersAlive + 1;
        }
        rest := rest - {pos};
      }
      assert towers.Keys - rest == towers.Keys;
      if guardTowersAlive > 0 {
        assert LivingGuards(towers) != {};
        return false;
      }
    }
    return true;
  }

  /** The positions an attacker may hit next: the standing guards, else a standing king. */
  function AvailableTargets(towers: map<string, Tower>): set<string> {
    if LivingGuards(towers) != {} then LivingGuards(towers)
    else if KING in towers && Alive(towers[KING]) then {KING}
    else {}
  }

  /**
   * The available targets are exactly the standing towers at the three
   * named positions that the guard rule lets through.
   */
  lemma AvailableTargetsAreAttackable(towers: map<string, Tower>, p: string)
    requires forall q :: q in towers ==> towers[q].position == q
    ensures p in AvailableTargets(towers)
            <==> (|| Selectable(towers, KING, p)
                  || Selectable(towers, GUARD1, p)
                  || Selectable(towers, GUARD2, p))
                 && GateOpen(towers, towers[p])
  {
    if p in AvailableTargets(towers) && LivingGuards(towers) != {} {
      assert p in LivingGuards(towers);
    }
    if p in towers && Alive(towers[p]) && IsGuardPosition(p) {
      assert p in LivingGuards(towers);
    }
  }

  /** `getAvailableTargets`: lists each available position once. */
  method GetAvailableTargets(defender: PlayerData) returns (targets: seq<string>)
    ensures forall p :: p in targets <==> p in AvailableTargets(defender.towers)
    ensures Distinct(targets)
  {
    var towers := defender.towers;
    targets := [];
    var rest := towers.Keys;
    GuardScanStart(towers);
    while rest != {}
      invariant GuardScan(towers, rest, targets)
      decreases |rest|
    {
      var pos :| pos in rest;
      GuardScanStep(towers, rest, targets, pos);
      if towers[pos].hp > 0.0 {
        if pos == GUARD1 || pos == GUARD2 {
          targets := targets + [pos];
        }
      }
      rest := rest - {pos};
    }
    GuardScanDone(towers, rest, targets);
    if |targets| == 0 {
      if KING in towers && towers[KING].hp > 0.0 {
        targets := targets + [KING];
      }
    }
  }

  /**
   * The guard pass of `getAvailableTargets` with `rest` still unvisited:
   * `targets` lists, once each, the standing guards among the visited keys.
   */
  ghost predicate GuardScan(towers: map<string, Tower>, rest: set<string>, targets: seq<string>) {
    && rest <= towers.Keys
    && Elems(targets) == LivingGuardsAmong(towers, towers.Keys - rest)
    && Distinct(targets)
  }

  lemma GuardScanStart(towers: map<string, Tower>)
    ensures GuardScan(towers, towers.Keys, [])
  {
    assert LivingGuardsAmong(towers, towers.Keys - towers.Keys) == {};
    assert Elems<string>([]) == {};
  }

  lemma GuardScanStep(towers: map<string, Tower>, rest: set<string>, targets: seq<string>, pos: string)
    requires GuardScan(towers, rest, targets) && pos in rest
    ensures var found := towers[pos].hp > 0.0 && (pos == GUARD1 || pos == GUARD2);
            GuardScan(towers, rest - {pos}, if found then targets + [pos] else targets)
  {
    var done := towers.Keys - rest;
    LivingGuardsAmongStep(towers, done, pos);
    assert done + {pos} == towers.Keys - (rest - {pos});
    if towers[pos].hp > 0.0 && (pos == GUARD1 || pos == GUARD2) {
      assert pos !in Elems(targets);
      ElemsSnoc(targets, pos);
      assert pos !in targets;
      DistinctSnoc(targets, pos);
    }
  }

  lemma GuardScanDone(towers: map<string, Tower>, rest: set<string>, targets: seq<string>)
    requires GuardScan(towers, rest, targets) && rest == {}
    ensures forall p :: p in targets <==> p in LivingGuards(towers)
    ensures |targets| == 0 <==> LivingGuards(towers) == {}
  {
    assert towers.Keys - rest == towers.Keys;
    assert forall p :: p in targets <==> p in Elems(targets);
    if |targets| != 0 {
      assert targets[0] in Elems(targets);
    }
  }

  // ---------------------------------------------------------------- Queen

  /** A tower the Queen's search considers: standing and below the search's start value. */
  predicate HealCandidate(t: Tower) {
    0.0 < t.hp < HEAL_SENTINEL
  }

  /** `healed` names a candidate of least HP, or is None when there is no candidate. */
  predicate QueenChoice(towers: map<string, Tower>, healed: Option<string>) {
    match healed
    case None => forall q :: q in towers ==> !HealCandidate(towers[q])
    case Some(p) =>
      && p in towers
      && HealCandidate(towers[p])
      && forall q :: q in towers && HealCandidate(towers[q]) ==> towers[p].hp <= towers[q].hp
  }

  /** A tower after the Queen's heal: 300 HP more, but never above its maximum. */
  function Healed(t: Tower): (h: Tower)
    ensures h == t.(hp := h.hp)
    ensures h.hp <= t.hp + HEAL_AMOUNT && h.hp <= t.maxHp
    ensures h.hp == t.hp + HEAL_AMOUNT || h.hp == t.maxHp
  {
    var hp := t.hp + HEAL_AMOUNT;
    t.(hp := if hp > t.maxHp then t.maxHp else hp)
  }

  /** A tower at 950 of 1000 is healed to 1000, that is by 50. */
  lemma HealExample(t: Tower)
    requires t.hp == 950.0 && t.maxHp == 1000.0
    ensures Healed(t).hp == 1000.0 && Healed(t).hp - t.hp == 50.0
  {
  }

  /** The player after the Queen's heal: the chosen tower healed, every other unchanged. */
  function HealedPlayer(player: PlayerData, healed: Option<string>): PlayerData {
    match healed
    case None => player
    case Some(p) =>
      if p in player.towers then player.(towers := player.towers[p := Healed(player.towers[p])])
      else player
  }

  /** `handleQueenSpecial`: finds a standing tower of least HP and heals it. */
  method HandleQueenSpecial(player: PlayerData) returns (healed: Option<string>, after: PlayerData)
    ensures QueenChoice(player.towers, healed)
    ensures after == HealedPlayer(player, healed)
  {
    var towers := player.towers;
    var lowestTower: Option<string> := None;
    var lowestHP := HEAL_SENTINEL;
    var rest := towers.Keys;
    while rest != {}
      invariant rest <= towers.Keys
      invariant lowestHP <= HEAL_SENTINEL
      invariant lowestTower.None? ==> lowestHP == HEAL_SENTINEL
      invariant lowestTower.Some? ==>
        && lowestTower.value in towers
        && HealCandidate(towers[lowestTower.value])
        && lowestHP == towers[lowestTower.value].hp
      invariant forall q :: q in towers && q !in rest && Alive(towers[q]) ==> lowestHP <= towers[q].hp
      decreases |rest|
    {
      var pos :| pos in rest;
      var tower := towers[pos];
      if tower.hp > 0.0 && tower.hp < lowestHP {
        lowestHP := tower.hp;
        lowestTower := Some(pos);
      }
      rest := rest - {pos};
    }
    healed := lowestTower;
    after := player;
    if lowestTower.Some? {
      var pos := lowestTower.value;
      var tower := towers[pos];
      var hp := tower.hp + HEAL_AMOUNT;
      if hp > tower.maxHp {
        hp := tower.maxHp;
      }
      after := player.(towers := towers[pos := tower.(hp := hp)]);
    }
  }

  // -------------------------------------------------------------- levels

  /** EXP needed to leave `level`: 100 × (1.1 × level), that is 110 per level. */
  function Required(level: int): (r: real)
    ensures r == 110.0 * level as real
  {
    100.0 * (LEVEL_SCALE * level as real)
  }

  function ScaledTower(t: Tower, level: int): Tower {
    t.(hp := t.hp * LEVEL_SCALE, maxHp := t.maxHp * LEVEL_SCALE,
       atk := t.atk * LEVEL_SCALE, def := t.def * LEVEL_SCALE, level := level)
  }

  function ScaledTroop(t: Troop, level: int): Troop {
    t.(hp := t.hp * LEVEL_SCALE, maxHp := t.maxHp * LEVEL_SCALE,
       atk := t.atk * LEVEL_SCALE, def := t.def * LEVEL_SCALE, level := level)
  }

  /** One step of the cascade: pay the requirement, go up a level, every stat ×1.1. */
  function GainLevel(p: PlayerData): PlayerData {
    var level := p.level + 1;
    p.(exp := p.exp - Required(p.level),
       level := level,
       towers := map k | k in p.towers :: ScaledTower(p.towers[k], level),
       troops := seq(|p.troops|, i requires 0 <= i < |p.troops| => ScaledTroop(p.troops[i], level)))
  }

  /** A measure the cascade decreases for any starting level. */
  function LevelMeasure(p: PlayerData): nat {
    if p.level < 1 then 1 - p.level else 0
  }

  /**
   * The outcome of `checkLevelUp`: levels are gained while the EXP covers the
   * requirement of the current level. It stops with the EXP below the
   * requirement, and the level never goes down.
   */
  function LeveledUp(p: PlayerData): (r: PlayerData)
    ensures r.exp < Required(r.level)
    ensures r.level >= p.level
    ensures r.username == p.username && r.password == p.password
    ensures r.towers.Keys == p.towers.Keys && |r.troops| == |p.troops|
    decreases LevelMeasure(p), p.exp.Floor
  {
    if p.exp >= Required(p.level) then LeveledUp(GainLevel(p)) else p
  }

  /** The towers with every stat ×1.1 and the new level, as the cascade's inner loop leaves them. */
  method ScaleTowers(towers: map<string, Tower>, level: int) returns (scaled: map<string, Tower>)
    ensures scaled == map k | k in towers :: ScaledTower(towers[k], level)
  {
    scaled := towers;
    var rest := towers.Keys;
    while rest != {}
      invariant rest <= scaled.Keys == towers.Keys
      invariant forall k :: k in scaled && k !in rest ==> scaled[k] == ScaledTower(towers[k], level)
      invariant forall k :: k in rest ==> scaled[k] == towers[k]
      decreases |rest|
    {
      var k :| k in rest;
      var tower := scaled[k];
      scaled := scaled[k := tower.(hp := tower.hp * LEVEL_SCALE, maxHp := tower.maxHp * LEVEL_SCALE,
                                   atk := tower.atk * LEVEL_SCALE, def := tower.def * LEVEL_SCALE,
                                   level := level)];
      rest := rest - {k};
    }
  }

  /** The troops with every stat ×1.1 and the new level, in roster order. */
  method ScaleTroops(troops: seq<Troop>, level: int) returns (scaled: seq<Troop>)
    ensures |scaled| == |troops|
    ensures forall i :: 0 <= i < |troops| ==> scaled[i] == ScaledTroop(troops[i], level)
  {
    scaled := troops;
    var i := 0;
    while i < |scaled|
      invariant 0 <= i <= |scaled| == |troops|
      invariant forall j :: 0 <= j < i ==> scaled[j] == ScaledTroop(troops[j], level)
      invariant forall j :: i <= j < |scaled| ==> scaled[j] == troops[j]
    {
      var troop := scaled[i];
      scaled := scaled[i := troop.(hp := troop.hp * LEVEL_SCALE, maxHp := troop.maxHp * LEVEL_SCALE,
                                   atk := troop.atk * LEVEL_SCALE, def := troop.def * LEVEL_SCALE,
                                   level := level)];
      i := i + 1;
    }
  }

  /** One turn of the cascade, with the measure that makes it stop. */
  lemma GainLevelStep(p: PlayerData)
    requires p.exp >= Required(p.level)
    ensures LeveledUp(p) == LeveledUp(GainLevel(p))
    ensures LevelMeasure(GainLevel(p)) < LevelMeasure(p)
            || (LevelMeasure(GainLevel(p)) == LevelMeasure(p) && 0 <= GainLevel(p).exp.Floor < p.exp.Floor)
  {
  }

  /**
   * `checkLevelUp`: subtracts the requirement and raises the level while the
   * EXP covers it, scaling every tower and troop by 1.1 once per level.
   */
  method CheckLevelUp(player: PlayerData) returns (p: PlayerData)
    ensures p == LeveledUp(player)
  {
    p := player;
    var requiredEXP := 100.0 * (LEVEL_SCALE * p.level as real);
    while p.exp >= requiredEXP
      invariant requiredEXP == Required(p.level)
      invariant LeveledUp(p) == LeveledUp(player)
      decreases LevelMeasure(p), p.exp.Floor
    {
      ghost var before := p;
      GainLevelStep(before);
      p := p.(exp := p.exp - requiredEXP, level := p.level + 1);
      var towers := ScaleTowers(p.towers, p.level);
      var troops := ScaleTroops(p.troops, p.level);
      p := p.(towers := towers, troops := troops);
      assert p == GainLevel(before);
      requiredEXP := 100.0 * (LEVEL_SCALE * p.level as real);
    }
  }

  /** From a valid start the EXP left over is never negative. */
  lemma {:induction false} LeveledUpExpBounds(p: PlayerData)
    requires p.level >= 1 && p.exp >= 0.0
    ensures 0.0 <= LeveledUp(p).exp < Required(LeveledUp(p).level)
    decreases p.exp.Floor
  {
    if p.exp >= Required(p.level) {
      LeveledUpExpBounds(GainLevel(p));
    }
  }

  /**
   * EXP counted over a player's life: what reaching the level cost
   * (110 × (1 + … + (level − 1))) plus what is left over.
   */
  function LifetimeExp(p: PlayerData): real {
    p.exp + 55.0 * (p.level * (p.level - 1)) as real
  }

  lemma GainLevelKeepsLifetimeExp(p: PlayerData)
    ensures LifetimeExp(GainLevel(p)) == LifetimeExp(p)
  {
    var l := p.level;
    assert (l + 1) * l - l * (l - 1) == 2 * l;
  }

  /** Levelling up only converts EXP into levels: no EXP is lost or created. */
  lemma {:induction false} LeveledUpKeepsLifetimeExp(p: PlayerData)
    ensures LifetimeExp(LeveledUp(p)) == LifetimeExp(p)
    decreases LevelMeasure(p), p.exp.Floor
  {
    if p.exp >= Required(p.level) {
      GainLevelKeepsLifetimeExp(p);
      LeveledUpKeepsLifetimeExp(GainLevel(p));
    }
  }

  /** 1.1 raised to the power `n`. */
  function Growth(n: nat): real {
    if n == 0 then 1.0 else LEVEL_SCALE * Growth(n - 1)
  }

  /** `t'` is `t` with HP, maximum, attack and defence multiplied by `g`, and nothing else changed but the level. */
  predicate TowerScaledBy(t: Tower, t': Tower, g: real) {
    && t'.hp == t.hp * g && t'.maxHp == t.maxHp * g
    && t'.atk == t.atk * g && t'.def == t.def * g
    && t' == t.(hp := t'.hp, maxHp := t'.maxHp, atk := t'.atk, def := t'.def, level := t'.level)
  }

  predicate TroopScaledBy(t: Troop, t': Troop, g: real) {
    && t'.hp == t.hp * g && t'.maxHp == t.maxHp * g
    && t'.atk == t.atk * g && t'.def == t.def * g
    && t' == t.(hp := t'.hp, maxHp := t'.maxHp, atk := t'.atk, def := t'.def, level := t'.level)
  }

  lemma TowerScaledCompose(t: Tower, t1: Tower, t2: Tower, g: real)
    requires TowerScaledBy(t, t1, LEVEL_SCALE) && TowerScaledBy(t1, t2, g)
    ensures TowerScaledBy(t, t2, LEVEL_SCALE * g)
  {
    assert t.hp * LEVEL_SCALE * g == t.hp * (LEVEL_SCALE * g);
    assert t.maxHp * LEVEL_SCALE * g == t.maxHp * (LEVEL_SCALE * g);
    assert t.atk * LEVEL_SCALE * g == t.atk * (LEVEL_SCALE * g);
    assert t.def * LEVEL_SCALE * g == t.def * (LEVEL_SCALE * g);
  }

  /** One level's scaling followed by `n` more is `n + 1` levels' scaling. */
  lemma TowerScaledChain(t: Tower, t1: Tower, t2: Tower, n: nat)
    requires TowerScaledBy(t, t1, LEVEL_SCALE) && TowerScaledBy(t1, t2, Growth(n))
    ensures TowerScaledBy(t, t2, Growth(n + 1))
  {
    TowerScaledCompose(t, t1, t2, Growth(n));
  }

  lemma TroopScaledCompose(t: Troop, t1: Troop, t2: Troop, g: real)
    requires TroopScaledBy(t, t1, LEVEL_SCALE) && TroopScaledBy(t1, t2, g)
    ensures TroopScaledBy(t, t2, LEVEL_SCALE * g)
  {
    assert t.hp * LEVEL_SCALE * g == t.hp * (LEVEL_SCALE * g);
    assert t.maxHp * LEVEL_SCALE * g == t.maxHp * (LEVEL_SCALE * g);
    assert t.atk * LEVEL_SCALE * g == t.atk * (LEVEL_SCALE * g);
    assert t.def * LEVEL_SCALE * g == t.def * (LEVEL_SCALE * g);
  }

  lemma TroopScaledChain(t: Troop, t1: Troop, t2: Troop, n: nat)
    requires TroopScaledBy(t, t1, LEVEL_SCALE) && TroopScaledBy(t1, t2, Growth(n))
    ensures TroopScaledBy(t, t2, Growth(n + 1))
  {
    TroopScaledCompose(t, t1, t2, Growth(n));
  }

  /**
   * Every tower keeps its type, position, critical chance and EXP, and its
   * HP, maximum, attack and defence are multiplied by 1.1 once per level
   * gained; a tower of a player who gained a level carries the new level.
   */
  lemma {:induction false} LeveledUpScalesTowers(p: PlayerData, k: string)
    requires k in p.towers
    ensures k in LeveledUp(p).towers
    ensures TowerScaledBy(p.towers[k], LeveledUp(p).towers[k], Growth(LeveledUp(p).level - p.level))
    ensures LeveledUp(p).level > p.level ==> LeveledUp(p).towers[k].level == LeveledUp(p).level
    decreases LevelMeasure(p), p.exp.Floor
  {
    if p.exp >= Required(p.level) {
      var q := GainLevel(p);
      GainLevelStep(p);
      GainLevelTower(p, k);
      LeveledUpScalesTowers(q, k);
      var r := LeveledUp(q);
      TowerScaledChain(p.towers[k], q.towers[k], r.towers[k], r.level - q.level);
      assert r.level - p.level == r.level - q.level + 1;
    }
  }

  /** One level gained scales tower `k` once and stamps it with the new level. */
  lemma GainLevelTower(p: PlayerData, k: string)
    requires k in p.towers
    ensures k in GainLevel(p).towers
    ensures TowerScaledBy(p.towers[k], GainLevel(p).towers[k], LEVEL_SCALE)
    ensures GainLevel(p).towers[k].level == GainLevel(p).level
  {
    assert GainLevel(p).towers[k] == ScaledTower(p.towers[k], p.level + 1);
  }

  /** The same for every troop, in roster order. */
  lemma {:induction false} LeveledUpScalesTroops(p: PlayerData, i: int)
    requires 0 <= i < |p.troops|
    ensures TroopScaledBy(p.troops[i], LeveledUp(p).troops[i], Growth(LeveledUp(p).level - p.level))
    ensures LeveledUp(p).level > p.level ==> LeveledUp(p).troops[i].level == LeveledUp(p).level
    decreases LevelMeasure(p), p.exp.Floor
  {
    if p.exp >= Required(p.level) {
      var q := GainLevel(p);
      GainLevelStep(p);
      LeveledUpScalesTroops(q, i);
      var r := LeveledUp(q);
      assert TroopScaledBy(p.troops[i], q.troops[i], LEVEL_SCALE);
      TroopScaledChain(p.troops[i], q.troops[i], r.troops[i], r.level - q.level);
      assert r.level - p.level == r.level - q.level + 1;
    }
  }

  lemma GainLevelKeepsValid(p: PlayerData)
    requires ValidPlayer(p) && p.exp >= Required(p.level)
    ensures ValidPlayer(GainLevel(p))
  {
    var q := GainLevel(p);
    forall k | k in q.towers ensures ValidTower(k, q.towers[k]) {
      assert ValidTower(k, p.towers[k]);
    }
    forall i | 0 <= i < |q.troops| ensures ValidTroop(q.troops[i]) {
      assert ValidTroop(p.troops[i]);
    }
  }

  /** Levelling up keeps a player valid. */
  lemma {:induction false} LeveledUpKeepsValid(p: PlayerData)
    requires ValidPlayer(p)
    ensures ValidPlayer(LeveledUp(p))
    decreases p.exp.Floor
  {
    if p.exp >= Required(p.level) {
      GainLevelKeepsValid(p);
      LeveledUpKeepsValid(GainLevel(p));
    }
  }

  /** A player whose EXP is already below the requirement is left alone, so the cascade is idempotent. */
  lemma LeveledUpIdempotent(p: PlayerData)
    ensures LeveledUp(LeveledUp(p)) == LeveledUp(p)
  {
  }

  /** 250 EXP at level 1 ends at level 2 with 140 left, every stat scaled once. */
  lemma LevelUpExample(p: PlayerData)
    requires p.level == 1 && p.exp == 250.0
    ensures LeveledUp(p).level == 2 && LeveledUp(p).exp == 140.0
    ensures LeveledUp(p) == GainLevel(p)
  {
    var q := GainLevel(p);
    assert q.level == 2 && q.exp == 140.0;
    assert LeveledUp(q) == q;
  }

  // ------------------------------------------------------ endings and EXP

  function WithExp(p: PlayerData, amount: real): PlayerData {
    p.(exp := p.exp + amount)
  }

  /** `endGame`: the match stops, the winner gains 30 EXP, and both players level up. */
  function EndGameSpec(m: Match, winnerNum: int): Match {
    var winner := LeveledUp(WithExp(Side(m, winnerNum), WIN_EXP));
    var loser := LeveledUp(Opponent(m, winnerNum));
    WithOpponent(WithSide(m.(isGameActive := false), winnerNum, winner), winnerNum, loser)
  }

  /** `endGameDraw`: the match stops, both players gain 10 EXP and level up. */
  function EndGameDrawSpec(m: Match): Match {
    m.(isGameActive := false,
       player1 := LeveledUp(WithExp(m.player1, DRAW_EXP)),
       player2 := LeveledUp(WithExp(m.player2, DRAW_EXP)))
  }

  /** `handleTowerDestruction`: the attacker earns the tower's EXP; a King Tower ends the match. */
  function DestructionSpec(m: Match, winnerNum: int, tower: Tower): Match {
    var m1 := WithSide(m, winnerNum, WithExp(Side(m, winnerNum), tower.exp));
    if tower.kind == KING_TOWER then EndGameSpec(m1, winnerNum) else m1
  }

  method EndGame(g: GameState, winnerNum: int)
    modifies g
    ensures g.Snapshot() == EndGameSpec(old(g.Snapshot()), winnerNum)
  {
    g.isGameActive := false;
    var winner := if winnerNum == 1 then g.player1 else g.player2;
    var loser := if winnerNum == 1 then g.player2 else g.player1;
    winner := winner.(exp := winner.exp + WIN_EXP);
    winner := CheckLevelUp(winner);
    loser := CheckLevelUp(loser);
    g.SetSide(winnerNum, winner);
    g.SetOpponent(winnerNum, loser);
  }

  method EndGameDraw(g: GameState)
    modifies g
    ensures g.Snapshot() == EndGameDrawSpec(old(g.Snapshot()))
  {
    g.isGameActive := false;
    var p1 := g.player1.(exp := g.player1.exp + DRAW_EXP);
    var p2 := g.player2.(exp := g.player2.exp + DRAW_EXP);
    p1 := CheckLevelUp(p1);
    p2 := CheckLevelUp(p2);
    g.player1, g.player2 := p1, p2;
  }

  method HandleTowerDestruction(g: GameState, tower: Tower, winnerNum: int)
    modifies g
    ensures g.Snapshot() == DestructionSpec(old(g.Snapshot()), winnerNum, tower)
  {
    var winner := if winnerNum == 1 then g.player1 else g.player2;
    g.SetSide(winnerNum, winner.(exp := winner.exp + tower.exp));
    if tower.kind == KING_TOWER {
      EndGame(g, winnerNum);
    }
  }

  /**
   * A win stops the match, raises the winner's lifetime EXP by exactly 30
   * and leaves the loser's unchanged; mana, duration and turn are untouched.
   */
  lemma EndGameAccounting(m: Match, n: int)
    ensures var m' := EndGameSpec(m, n);
            && !m'.isGameActive
            && LifetimeExp(Side(m', n)) == LifetimeExp(Side(m, n)) + WIN_EXP
            && LifetimeExp(Opponent(m', n)) == LifetimeExp(Opponent(m, n))
            && m'.player1Mana == m.player1Mana && m'.player2Mana == m.player2Mana
            && m'.gameDuration == m.gameDuration && m'.turn == m.turn
  {
    LeveledUpKeepsLifetimeExp(WithExp(Side(m, n), WIN_EXP));
    LeveledUpKeepsLifetimeExp(Opponent(m, n));
  }

  /** A draw stops the match and raises each player's lifetime EXP by exactly 10. */
  lemma DrawAccounting(m: Match)
    ensures var m' := EndGameDrawSpec(m);
            && !m'.isGameActive
            && LifetimeExp(m'.player1) == LifetimeExp(m.player1) + DRAW_EXP
            && LifetimeExp(m'.player2) == LifetimeExp(m.player2) + DRAW_EXP
            && m'.player1Mana == m.player1Mana && m'.player2Mana == m.player2Mana
  {
    LeveledUpKeepsLifetimeExp(WithExp(m.player1, DRAW_EXP));
    LeveledUpKeepsLifetimeExp(WithExp(m.player2, DRAW_EXP));
  }

  lemma EndGameKeepsValid(m: Match, n: int)
    requires ValidMatch(m)
    ensures ValidMatch(EndGameSpec(m, n))
  {
    LeveledUpKeepsValid(WithExp(Side(m, n), WIN_EXP));
    LeveledUpKeepsValid(Opponent(m, n));
  }

  lemma DrawKeepsValid(m: Match)
    requires ValidMatch(m)
    ensures ValidMatch(EndGameDrawSpec(m))
  {
    LeveledUpKeepsValid(WithExp(m.player1, DRAW_EXP));
    LeveledUpKeepsValid(WithExp(m.player2, DRAW_EXP));
  }

  /**
   * Destroying a tower raises the attacker's lifetime EXP by the tower's
   * EXP, plus the 30 of a win when it is the King Tower, which alone ends
   * the match; the defender's lifetime EXP is unchanged.
   */
  lemma DestructionAccounting(m: Match, n: int, tower: Tower)
    ensures var m' := DestructionSpec(m, n, tower);
            && LifetimeExp(Side(m', n))
               == LifetimeExp(Side(m, n)) + tower.exp + (if tower.kind == KING_TOWER then WIN_EXP else 0.0)
            && LifetimeExp(Opponent(m', n)) == LifetimeExp(Opponent(m, n))
            && m'.isGameActive == (m.isGameActive && tower.kind != KING_TOWER)
  {
    var m1 := WithSide(m, n, WithExp(Side(m, n), tower.exp));
    EndGameAccounting(m1, n);
  }

  lemma DestructionKeepsValid(m: Match, n: int, tower: Tower)
    requires ValidMatch(m) && tower.exp >= 0.0
    ensures ValidMatch(DestructionSpec(m, n, tower))
  {
    var m1 := WithSide(m, n, WithExp(Side(m, n), tower.exp));
    assert ValidMatch(m1);
    EndGameKeepsValid(m1, n);
  }

  // -------------------------------------------------------------- timeout

  /**
   * Who wins when time runs out (0 for a draw): a side whose king stands
   * beats a side whose king does not; otherwise more standing towers win.
   */
  function TimeoutWinner(p1: PlayerData, p2: PlayerData): int {
    var king1 := KING in LivingTowers(p1.towers);
    var king2 := KING in LivingTowers(p2.towers);
    var count1 := |LivingTowers(p1.towers)|;
    var count2 := |LivingTowers(p2.towers)|;
    if !king1 && king2 then 2
    else if !king2 && king1 then 1
    else if count1 > count2 then 1
    else if count2 > count1 then 2
    else 0
  }

  /** `handleGameTimeout`: the winner's ending, or a draw. */
  function TimeoutSpec(m: Match): Match {
    var w := TimeoutWinner(m.player1, m.player2);
    if w == 0 then EndGameDrawSpec(m) else EndGameSpec(m, w)
  }

  /** The king rule outranks the tower count. */
  lemma TimeoutKingRule(p1: PlayerData, p2: PlayerData)
    ensures KING in LivingTowers(p1.towers) && KING !in LivingTowers(p2.towers) ==> TimeoutWinner(p1, p2) == 1
    ensures KING !in LivingTowers(p1.towers) && KING in LivingTowers(p2.towers) ==> TimeoutWinner(p1, p2) == 2
  {
  }

  /** With both kings standing, or both fallen, more standing towers win and a tie is a draw. */
  lemma TimeoutCountRule(p1: PlayerData, p2: PlayerData)
    requires (KING in LivingTowers(p1.towers)) == (KING in LivingTowers(p2.towers))
    ensures TimeoutWinner(p1, p2) == 1 <==> |LivingTowers(p1.towers)| > |LivingTowers(p2.towers)|
    ensures TimeoutWinner(p1, p2) == 2 <==> |LivingTowers(p1.towers)| < |LivingTowers(p2.towers)|
    ensures TimeoutWinner(p1, p2) == 0 <==> |LivingTowers(p1.towers)| == |LivingTowers(p2.towers)|
  {
  }

  /** Swapping the players swaps the winner: the rule favours neither side. */
  lemma TimeoutSymmetric(p1: PlayerData, p2: PlayerData)
    ensures TimeoutWinner(p2, p1) == (if TimeoutWinner(p1, p2) == 0 then 0 else 3 - TimeoutWinner(p1, p2))
  {
  }

  /**
   * Every timeout ends the match: the winner's lifetime EXP rises by 30, or
   * both rise by 10 on a draw, and a valid match stays valid.
   */
  lemma TimeoutAccounting(m: Match)
    requires ValidMatch(m)
    ensures var w := TimeoutWinner(m.player1, m.player2);
            var m' := TimeoutSpec(m);
            && !m'.isGameActive
            && ValidMatch(m')
            && LifetimeExp(m'.player1) == LifetimeExp(m.player1) + (if w == 1 then WIN_EXP else if w == 0 then DRAW_EXP else 0.0)
            && LifetimeExp(m'.player2) == LifetimeExp(m.player2) + (if w == 2 then WIN_EXP else if w == 0 then DRAW_EXP else 0.0)
  {
    var w := TimeoutWinner(m.player1, m.player2);
    if w == 0 {
      DrawAccounting(m);
      DrawKeepsValid(m);
    } else {
      EndGameAccounting(m, w);
      EndGameKeepsValid(m, w);
    }
  }

  /** The survey `handleGameTimeout` makes of one player's towers. */
  method SurveyTowers(player: PlayerData) returns (towerCount: int, kingAlive: bool)
    ensures towerCount == |LivingTowers(player.towers)|
    ensures kingAlive <==> KING in LivingTowers(player.towers)
  {
    var towers := player.towers;
    towerCount, kingAlive := 0, false;
    var rest := towers.Keys;
    while rest != {}
      invariant rest <= towers.Keys
      invariant towerCount == |LivingAmong(towers, towers.Keys - rest)|
      invariant kingAlive <==> KING in LivingAmong(towers, towers.Keys - rest)
      decreases |rest|
    {
      var pos :| pos in rest;
      LivingAmongStep(towers, towers.Keys - rest, pos);
      assert (towers.Keys - rest) + {pos} == towers.Keys - (rest - {pos});
      if towers[pos].hp > 0.0 {
        towerCount := towerCount + 1;
        if pos == KING {
          kingAlive := true;
        }
      }
      rest := rest - {pos};
    }
    assert towers.Keys - rest == towers.Keys;
  }

  method HandleGameTimeout(g: GameState)
    modifies g
    ensures g.Snapshot() == TimeoutSpec(old(g.Snapshot()))
  {
    var p1Towers, p1KingAlive := SurveyTowers(g.player1);
    var p2Towers, p2KingAlive := SurveyTowers(g.player2);
    if !p1KingAlive && p2KingAlive {
      EndGame(g, 2);
    } else if !p2KingAlive && p1KingAlive {
      EndGame(g, 1);
    } else if p1Towers > p2Towers {
      EndGame(g, 1);
    } else if p2Towers > p1Towers {
      EndGame(g, 2);
    } else {
      EndGameDraw(g);
    }
  }

  /** The body of the game timer once the duration has passed: a live match times out. */
  method TimerExpired(g: GameState?)
    modifies g
    ensures g != null ==> g.Snapshot() == (if old(g.isGameActive) then TimeoutSpec(old(g.Snapshot())) else old(g.Snapshot()))
  {
    if g != null && g.isGameActive {
      HandleGameTimeout(g);
    }
  }

  /** `getTowerCount`: how many of the player's towers still stand. */
  method GetTowerCount(player: PlayerData) returns (count: int)
    ensures count == |LivingTowers(player.towers)|
  {
    count := 0;
    var rest := player.towers.Keys;
    while rest != {}
      invariant rest <= player.towers.Keys
      invariant count == |LivingAmong(player.towers, player.towers.Keys - rest)|
      decreases |rest|
    {
      var pos :| pos in rest;
      LivingAmongStep(player.towers, player.towers.Keys - rest, pos);
      assert (player.towers.Keys - rest) + {pos} == player.towers.Keys - (rest - {pos});
      if player.towers[pos].hp > 0.0 {
        count := count + 1;
      }
      rest := rest - {pos};
    }
    assert player.towers.Keys - rest == player.towers.Keys;
  }

  /** `isKingTowerDestroyed`: a king that exists and has no HP left; a missing king is not destroyed. */
  predicate IsKingTowerDestroyed(player: PlayerData)
    ensures IsKingTowerDestroyed(player) <==> KING in player.towers && KING !in LivingTowers(player.towers)
  {
    KING in player.towers && player.towers[KING].hp <= 0.0
  }

  /**
   * A destroyed king loses a timeout against a standing one; a missing king
   * is neither destroyed nor standing, yet counts as fallen at a timeout.
   */
  lemma KingDestroyedLosesTimeout(p1: PlayerData, p2: PlayerData)
    ensures IsKingTowerDestroyed(p1) ==> KING !in LivingTowers(p1.towers)
    ensures IsKingTowerDestroyed(p1) && KING in LivingTowers(p2.towers) ==> TimeoutWinner(p1, p2) == 2
    ensures KING !in p1.towers ==> !IsKingTowerDestroyed(p1) && KING !in LivingTowers(p1.towers)
  {
  }

  // ------------------------------------------------------------ mana tick

  /** One second of regeneration for one counter: +1 below the cap of 10. */
  function Regenerated(mana: int): int {
    if mana < MANA_CAP then mana + 1 else mana
  }

  /** A tick of the mana ticker: regeneration while the match is live, nothing once it is over. */
  function ManaTickSpec(m: Match): Match {
    if m.isGameActive then m.(player1Mana := Regenerated(m.player1Mana), player2Mana := Regenerated(m.player2Mana))
    else m
  }

  /** The body of one ticker iteration; `running` is false when the ticker stops. */
  method ManaTick(g: GameState?) returns (running: bool)
    modifies g
    ensures running <==> g != null && old(g.isGameActive)
    ensures g != null ==> g.Snapshot() == ManaTickSpec(old(g.Snapshot()))
  {
    if g != null && g.isGameActive {
      if g.player1Mana < MANA_CAP {
        g.player1Mana := g.player1Mana + 1;
      }
      if g.player2Mana < MANA_CAP {
        g.player2Mana := g.player2Mana + 1;
      }
      return true;
    }
    return false;
  }

  lemma ManaTickKeepsValid(m: Match)
    requires ValidMatch(m)
    ensures ValidMatch(ManaTickSpec(m))
  {
  }

  /** A counter after `k` ticks of a live match. */
  function AfterTicks(mana: int, k: nat): int
    decreases k
  {
    if k == 0 then mana else AfterTicks(Regenerated(mana), k - 1)
  }

  /** Regeneration is one per tick until the cap: from any counter in [0, 10], `k` ticks give min(mana + k, 10). */
  lemma {:induction false} AfterTicksCapped(mana: int, k: nat)
    requires 0 <= mana <= MANA_CAP
    ensures AfterTicks(mana, k) == if mana + k < MANA_CAP then mana + k else MANA_CAP
    decreases k
  {
    if k > 0 {
      AfterTicksCapped(Regenerated(mana), k - 1);
    }
  }

  // --------------------------------------------------------------- attack

  /** What an attack command came to. */
  datatype Outcome =
    | GameNotActive
    | InvalidTroop
    | NotEnoughMana
    | QueenHealed(healed: Option<string>)
    | InvalidTarget
    | GuardsAlive(target: string)
    | Hit(target: string, damage: real, destroyed: bool)

  /** The attack landed on `pos` for `damage`: the tower's HP drops, then it is destroyed or it strikes back. */
  function AfterHit(m: Match, n: int, troopIndex: int, pos: string, damage: real, counterRoll: real): Match
    requires pos in Opponent(m, n).towers
    requires 0 <= troopIndex < |Side(m, n).troops|
  {
    var defender := Opponent(m, n);
    var tower := defender.towers[pos];
    var hit := tower.(hp := TakeDamage(tower.hp, damage));
    var m1 := WithOpponent(m, n, defender.(towers := defender.towers[pos := hit]));
    if hit.hp <= 0.0 then DestructionSpec(m1, n, hit)
    else
      var attacker := Side(m1, n);
      var troop := CounterAttack(hit, attacker.troops[troopIndex], counterRoll);
      WithSide(m1, n, attacker.(troops := attacker.troops[troopIndex := troop]))
  }

  /**
   * The state change of `processAttack` by side `n`, check by check: an
   * inactive match, a troop index outside the roster or too little mana
   * change nothing; otherwise the troop's cost is paid. A Queen heals her
   * own weakest standing tower. Any other troop needs a standing target the
   * word names, and the guard rule; when either fails the cost is refunded.
   * A hit lowers the tower's HP by the damage, clamped at zero; a destroyed
   * tower is handled as a destruction, a standing one strikes back.
   */
  ghost predicate AttackStep(m: Match, n: int, troopIndex: int, targetType: string,
                             roll: real, counterRoll: real, o: Outcome, m': Match)
  {
    if !m.isGameActive then o == GameNotActive && m' == m
    else if !(0 <= troopIndex < |Side(m, n).troops|) then o == InvalidTroop && m' == m
    else
      var troop := Side(m, n).troops[troopIndex];
      if ManaOf(m, n) < troop.mana then o == NotEnoughMana && m' == m
      else
        PaidStep(m, n, troopIndex, targetType, roll, counterRoll, o, m')
  }

  /**
   * The rest of `AttackStep` once the checks have passed and the cost of
   * troop `troopIndex` is paid.
   */
  ghost predicate PaidStep(m: Match, n: int, troopIndex: int, targetType: string,
                           roll: real, counterRoll: real, o: Outcome, m': Match)
    requires 0 <= troopIndex < |Side(m, n).troops|
  {
    var troop := Side(m, n).troops[troopIndex];
    var paid := WithMana(m, n, ManaOf(m, n) - troop.mana);
    var towers := Opponent(m, n).towers;
    if troop.name == QUEEN then
      && o.QueenHealed?
      && QueenChoice(Side(m, n).towers, o.healed)
      && m' == WithSide(paid, n, HealedPlayer(Side(m, n), o.healed))
    else if forall p :: !Selectable(towers, targetType, p) then
      o == InvalidTarget && m' == m
    else
      && (o.GuardsAlive? || o.Hit?)
      && Selectable(towers, targetType, o.target)
      && (o.GuardsAlive? <==> !GateOpen(towers, towers[o.target]))
      && (o.GuardsAlive? ==> m' == m)
      && (o.Hit? ==>
            && o.damage == Damage(troop.atk, towers[o.target].def, IsCritical(roll, TROOP_CRIT_CHANCE))
            && o.destroyed == (towers[o.target].hp - o.damage <= 0.0)
            && m' == AfterHit(paid, n, troopIndex, o.target, o.damage, counterRoll))
  }

  /**
   * `processAttack` for side `playerNum` (1, or anything else for side 2)
   * with troop `troopIndex` against the target word `targetType`; `roll`
   * is the troop's critical draw and `counterRoll` the tower's.
   */
  method ProcessAttack(g: GameState?, playerNum: int, troopIndex: int, targetType: string,
                       roll: real, counterRoll: real) returns (o: Outcome)
    modifies g
    ensures g == null ==> o == GameNotActive
    ensures g != null ==> AttackStep(old(g.Snapshot()), playerNum, troopIndex, targetType, roll, counterRoll, o, g.Snapshot())
  {
    if g == null || !g.isGameActive {
      return GameNotActive;
    }
    var attacker := if playerNum == 1 then g.player1 else g.player2;
    var defender := if playerNum == 1 then g.player2 else g.player1;
    var attackerMana := if playerNum == 1 then g.player1Mana else g.player2Mana;

    if troopIndex < 0 || troopIndex >= |attacker.troops| {
      return InvalidTroop;
    }
    var troop := attacker.troops[troopIndex];
    if attackerMana < troop.mana {
      return NotEnoughMana;
    }
    ghost var m := g.Snapshot();
    g.AddMana(playerNum, -troop.mana);
    o := Strike(g, m, playerNum, troopIndex, targetType, roll, counterRoll);
  }

  /** `processAttack` after the cost of troop `troopIndex` is paid. */
  method Strike(g: GameState, ghost m: Match, playerNum: int, troopIndex: int, targetType: string,
                roll: real, counterRoll: real) returns (o: Outcome)
    requires 0 <= troopIndex < |Side(m, playerNum).troops|
    requires g.Snapshot() == WithMana(m, playerNum, ManaOf(m, playerNum) - Side(m, playerNum).troops[troopIndex].mana)
    modifies g
    ensures PaidStep(m, playerNum, troopIndex, targetType, roll, counterRoll, o, g.Snapshot())
  {
    var attacker := if playerNum == 1 then g.player1 else g.player2;
    var defender := if playerNum == 1 then g.player2 else g.player1;
    var troop := attacker.troops[troopIndex];

    if troop.name == QUEEN {
      var healed, after := HandleQueenSpecial(attacker);
      g.SetSide(playerNum, after);
      return QueenHealed(healed);
    }

    var target := FindTargetTower(defender, targetType);
    if target.None? {
      g.AddMana(playerNum, troop.mana);
      return InvalidTarget;
    }
    var pos := target.value;
    var tower := defender.towers[pos];
    var allowed := CanAttackTarget(defender, tower);
    if !allowed {
      g.AddMana(playerNum, troop.mana);
      return GuardsAlive(pos);
    }

    var damage := Damage(troop.atk, tower.def, IsCritical(roll, TROOP_CRIT_CHANCE));
    var destroyed := ApplyHit(g, playerNum, troopIndex, pos, damage, counterRoll);
    return Hit(pos, damage, destroyed);
  }

  /**
   * The tail of `processAttack` once a hit lands: the tower's HP drops by
   * `damage`, clamped at zero; a destroyed tower is handled as a
   * destruction, a standing one strikes back at the troop.
   */
  method ApplyHit(g: GameState, playerNum: int, troopIndex: int, pos: string, damage: real,
                  counterRoll: real) returns (destroyed: bool)
    requires pos in Opponent(g.Snapshot(), playerNum).towers
    requires 0 <= troopIndex < |Side(g.Snapshot(), playerNum).troops|
    modifies g
    ensures destroyed == (Opponent(old(g.Snapshot()), playerNum).towers[pos].hp - damage <= 0.0)
    ensures g.Snapshot() == AfterHit(old(g.Snapshot()), playerNum, troopIndex, pos, damage, counterRoll)
  {
    var defender := if playerNum == 1 then g.player2 else g.player1;
    var troop := if playerNum == 1 then g.player1.troops[troopIndex] else g.player2.troops[troopIndex];
    var tower := defender.towers[pos];
    tower := tower.(hp := tower.hp - damage);
    if tower.hp < 0.0 {
      tower := tower.(hp := 0.0);
    }
    g.SetOpponent(playerNum, defender.(towers := defender.towers[pos := tower]));

    if tower.hp <= 0.0 {
      HandleTowerDestruction(g, tower, playerNum);
    }
    if tower.hp > 0.0 {
      var current := if playerNum == 1 then g.player1 else g.player2;
      var countered := CounterAttack(tower, troop, counterRoll);
      g.SetSide(playerNum, current.(troops := current.troops[troopIndex := countered]));
    }
    return tower.hp <= 0.0;
  }

  /** A hit keeps towers and troops in range, and a destruction keeps the match valid. */
  lemma AfterHitKeepsValid(m: Match, n: int, troopIndex: int, pos: string, damage: real, counterRoll: real)
    requires ValidMatch(m) && damage >= 0.0
    requires pos in Opponent(m, n).towers
    requires 0 <= troopIndex < |Side(m, n).troops|
    ensures ValidMatch(AfterHit(m, n, troopIndex, pos, damage, counterRoll))
  {
    var defender := Opponent(m, n);
    var tower := defender.towers[pos];
    assert ValidTower(pos, tower);
    var hit := tower.(hp := TakeDamage(tower.hp, damage));
    var m1 := WithOpponent(m, n, defender.(towers := defender.towers[pos := hit]));
    assert ValidMatch(m1);
    if hit.hp <= 0.0 {
      DestructionKeepsValid(m1, n, hit);
    } else {
      assert ValidTroop(Side(m1, n).troops[troopIndex]);
    }
  }

  /** An attack, whatever its outcome, keeps a valid match valid: mana stays in [0, 10], HP in range. */
  lemma AttackKeepsValid(m: Match, n: int, troopIndex: int, targetType: string,
                         roll: real, counterRoll: real, o: Outcome, m': Match)
    requires ValidMatch(m)
    requires AttackStep(m, n, troopIndex, targetType, roll, counterRoll, o, m')
    ensures ValidMatch(m')
  {
    if m.isGameActive && 0 <= troopIndex < |Side(m, n).troops| {
      var troop := Side(m, n).troops[troopIndex];
      if ManaOf(m, n) >= troop.mana {
        PaidStepKeepsValid(m, n, troopIndex, targetType, roll, counterRoll, o, m');
      }
    }
  }

  lemma PaidStepKeepsValid(m: Match, n: int, troopIndex: int, targetType: string,
                           roll: real, counterRoll: real, o: Outcome, m': Match)
    requires ValidMatch(m) && 0 <= troopIndex < |Side(m, n).troops|
    requires ManaOf(m, n) >= Side(m, n).troops[troopIndex].mana
    requires PaidStep(m, n, troopIndex, targetType, roll, counterRoll, o, m')
    ensures ValidMatch(m')
  {
    var troop := Side(m, n).troops[troopIndex];
    var paid := PaidKeepsValid(m, n, troopIndex);
    if troop.name == QUEEN {
      HealedPlayerValid(Side(m, n), o.healed);
      assert ValidMatch(WithSide(paid, n, HealedPlayer(Side(m, n), o.healed)));
    } else if o.Hit? {
      AfterHitKeepsValid(paid, n, troopIndex, o.target, o.damage, counterRoll);
    }
  }

  /** Paying a troop's cost from enough mana keeps the match valid. */
  lemma PaidKeepsValid(m: Match, n: int, troopIndex: int) returns (paid: Match)
    requires ValidMatch(m) && 0 <= troopIndex < |Side(m, n).troops|
    requires ManaOf(m, n) >= Side(m, n).troops[troopIndex].mana
    ensures paid == WithMana(m, n, ManaOf(m, n) - Side(m, n).troops[troopIndex].mana)
    ensures ValidMatch(paid)
  {
    assert ValidTroop(Side(m, n).troops[troopIndex]);
    paid := WithMana(m, n, ManaOf(m, n) - Side(m, n).troops[troopIndex].mana);
  }

  /** The Queen's heal keeps a valid player valid. */
  lemma HealedPlayerValid(p: PlayerData, healed: Option<string>)
    requires ValidPlayer(p)
    ensures ValidPlayer(HealedPlayer(p, healed))
  {
    if healed.Some? && healed.value in p.towers {
      assert ValidTower(healed.value, p.towers[healed.value]);
    }
  }

  /**
   * Mana is spent only by a Queen's heal or a hit; every other outcome,
   * including the refunded ones, leaves the whole match as it was.
   */
  lemma AttackMana(m: Match, n: int, troopIndex: int, targetType: string,
                   roll: real, counterRoll: real, o: Outcome, m': Match)
    requires AttackStep(m, n, troopIndex, targetType, roll, counterRoll, o, m')
    ensures !(o.Hit? || o.QueenHealed?) ==> m' == m
    ensures o.Hit? || o.QueenHealed? ==>
              ManaOf(m', n) == ManaOf(m, n) - Side(m, n).troops[troopIndex].mana
              && (if n == 1 then m'.player2Mana == m.player2Mana else m'.player1Mana == m.player1Mana)
  {
  }

  /** The guard rule: a hit on the king happens only once neither guard stands. */
  lemma KingOnlyAfterGuards(m: Match, n: int, troopIndex: int, targetType: string,
                            roll: real, counterRoll: real, o: Outcome, m': Match)
    requires ValidMatch(m)
    requires AttackStep(m, n, troopIndex, targetType, roll, counterRoll, o, m')
    requires o.Hit? && o.target == KING
    ensures LivingGuards(Opponent(m, n).towers) == {}
  {
    assert ValidTower(KING, Opponent(m, n).towers[KING]);
  }

  /**
   * A live match ends by an attack exactly when the attack destroys the
   * King Tower; that attacker's lifetime EXP then rises by the tower's EXP
   * and by the 30 of the win, and the defender's does not change.
   */
  lemma AttackEndsOnlyOnKingKill(m: Match, n: int, troopIndex: int, targetType: string,
                                 roll: real, counterRoll: real, o: Outcome, m': Match)
    requires m.isGameActive
    requires AttackStep(m, n, troopIndex, targetType, roll, counterRoll, o, m')
    ensures var killedKing := o.Hit? && o.destroyed && Opponent(m, n).towers[o.target].kind == KING_TOWER;
            && (!m'.isGameActive <==> killedKing)
            && (killedKing ==>
                  LifetimeExp(Side(m', n))
                  == LifetimeExp(Side(m, n)) + Opponent(m, n).towers[o.target].exp + WIN_EXP)
            && (killedKing ==> LifetimeExp(Opponent(m', n)) == LifetimeExp(Opponent(m, n)))
  {
    if o.Hit? {
      var troop := Side(m, n).troops[troopIndex];
      var paid := WithMana(m, n, ManaOf(m, n) - troop.mana);
      var defender := Opponent(paid, n);
      var tower := defender.towers[o.target];
      var hit := tower.(hp := TakeDamage(tower.hp, o.damage));
      var m1 := WithOpponent(paid, n, defender.(towers := defender.towers[o.target := hit]));
      if hit.hp <= 0.0 {
        DestructionAccounting(m1, n, hit);
      }
    }
  }
}

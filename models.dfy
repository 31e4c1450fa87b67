/**
 * The records of the match engine (server/models.go): towers, troops, a
 * player's saved data, and the mutable state of the one running match.
 * HP, ATK, DEF and EXP are exact reals; mana and mana costs are integers.
 */
module Models {

  /** Map keys of a player's three towers. */
  const KING := "king"
  const GUARD1 := "guard1"
  const GUARD2 := "guard2"

  /** Tower type names, as the templates spell them. */
  const KING_TOWER := "King Tower"
  const GUARD_TOWER := "Guard Tower"

  /** A defensive building; `position` repeats the key it is stored under. */
  datatype Tower = Tower(
    kind: string,
    hp: real,
    maxHp: real,
    atk: real,
    def: real,
    crit: real,
    exp: real,
    level: int,
    position: string)

  /** An attacking unit; `mana` is its deployment cost. */
  datatype Troop = Troop(
    name: string,
    hp: real,
    maxHp: real,
    atk: real,
    def: real,
    mana: int,
    exp: real,
    level: int,
    special: string)

  /** One account: towers keyed by position, troops in roster order. */
  datatype PlayerData = PlayerData(
    username: string,
    password: string,
    exp: real,
    level: int,
    towers: map<string, Tower>,
    troops: seq<Troop>)

  predicate Alive(t: Tower) {
    t.hp > 0.0
  }

  predicate IsGuardPosition(pos: string) {
    pos == GUARD1 || pos == GUARD2
  }

  /** The positions, among `keys`, of towers still standing. */
  function LivingAmong(towers: map<string, Tower>, keys: set<string>): set<string> {
    set p | p in keys && p in towers && Alive(towers[p])
  }

  /** The positions of all towers still standing. */
  function LivingTowers(towers: map<string, Tower>): set<string> {
    LivingAmong(towers, towers.Keys)
  }

  /** The guard positions, among `keys`, whose tower still stands. */
  function LivingGuardsAmong(towers: map<string, Tower>, keys: set<string>): set<string> {
    set p | p in keys && p in towers && IsGuardPosition(p) && Alive(towers[p])
  }

  function LivingGuards(towers: map<string, Tower>): set<string> {
    LivingGuardsAmong(towers, towers.Keys)
  }

  /** Counting one more key adds one exactly when it is a standing tower. */
  lemma LivingAmongStep(towers: map<string, Tower>, done: set<string>, p: string)
    requires p !in done && p in towers
    ensures LivingAmong(towers, done + {p})
            == LivingAmong(towers, done) + (if Alive(towers[p]) then {p} else {})
    ensures |LivingAmong(towers, done + {p})|
            == |LivingAmong(towers, done)| + (if Alive(towers[p]) then 1 else 0)
  {
    assert LivingAmong(towers, done + {p})
           == LivingAmong(towers, done) + (if Alive(towers[p]) then {p} else {});
  }

  /** Counting one more key adds one exactly when it is a standing guard. */
  lemma LivingGuardsAmongStep(towers: map<string, Tower>, done: set<string>, p: string)
    requires p !in done && p in towers
    ensures LivingGuardsAmong(towers, done + {p})
            == LivingGuardsAmong(towers, done)
               + (if IsGuardPosition(p) && Alive(towers[p]) then {p} else {})
    ensures |LivingGuardsAmong(towers, done + {p})|
            == |LivingGuardsAmong(towers, done)|
               + (if IsGuardPosition(p) && Alive(towers[p]) then 1 else 0)
  {
    assert LivingGuardsAmong(towers, done + {p})
           == LivingGuardsAmong(towers, done)
              + (if IsGuardPosition(p) && Alive(towers[p]) then {p} else {});
  }

  /** The values a sequence holds. */
  function Elems<T>(s: seq<T>): set<T> {
    set x | x in s
  }

  lemma ElemsSnoc<T>(s: seq<T>, x: T)
    ensures Elems(s + [x]) == Elems(s) + {x}
  {
    assert forall y :: y in s + [x] <==> y in s || y == x;
  }

  /** No value occurs twice. */
  predicate Distinct<T(==)>(s: seq<T>) {
    forall i, j :: 0 <= i < j < |s| ==> s[i] != s[j]
  }

  /** Appending a value not yet present keeps a sequence free of repeats. */
  lemma DistinctSnoc<T>(s: seq<T>, x: T)
    requires Distinct(s) && x !in s
    ensures Distinct(s + [x])
  {
    forall i, j | 0 <= i < j < |s + [x]|
      ensures (s + [x])[i] != (s + [x])[j]
    {
      if j == |s| {
        assert (s + [x])[i] == s[i];
      }
    }
  }

  /** A tower stored under `pos`: its bookkeeping agrees with its key and its HP is in range. */
  predicate ValidTower(pos: string, t: Tower) {
    && t.position == pos
    && (t.kind == KING_TOWER <==> pos == KING)
    && 0.0 <= t.hp <= t.maxHp
    && t.exp >= 0.0
  }

  predicate ValidTroop(t: Troop) {
    0.0 <= t.hp <= t.maxHp && t.mana >= 0
  }

  /** The invariant every stored player keeps: level at least 1, EXP never negative. */
  predicate ValidPlayer(p: PlayerData) {
    && p.level >= 1
    && p.exp >= 0.0
    && (forall pos :: pos in p.towers ==> ValidTower(pos, p.towers[pos]))
    && (forall i :: 0 <= i < |p.troops| ==> ValidTroop(p.troops[i]))
  }

  /** The value of a `GameState` at one moment. */
  datatype Match = Match(
    player1: PlayerData,
    player2: PlayerData,
    player1Mana: int,
    player2Mana: int,
    gameDuration: int,
    isGameActive: bool,
    turn: int)

  const MANA_CAP := 10

  /** The invariant of a match: both players valid, both mana counters in [0, 10]. */
  predicate ValidMatch(m: Match) {
    && ValidPlayer(m.player1)
    && ValidPlayer(m.player2)
    && 0 <= m.player1Mana <= MANA_CAP
    && 0 <= m.player2Mana <= MANA_CAP
  }

  /** The player on side `n` (1 is player 1, anything else player 2, as the Go code branches). */
  function Side(m: Match, n: int): PlayerData {
    if n == 1 then m.player1 else m.player2
  }

  /** The player facing side `n`. */
  function Opponent(m: Match, n: int): PlayerData {
    if n == 1 then m.player2 else m.player1
  }

  function ManaOf(m: Match, n: int): int {
    if n == 1 then m.player1Mana else m.player2Mana
  }

  function WithSide(m: Match, n: int, p: PlayerData): Match {
    if n == 1 then m.(player1 := p) else m.(player2 := p)
  }

  function WithOpponent(m: Match, n: int, p: PlayerData): Match {
    if n == 1 then m.(player2 := p) else m.(player1 := p)
  }

  function WithMana(m: Match, n: int, mana: int): Match {
    if n == 1 then m.(player1Mana := mana) else m.(player2Mana := mana)
  }

  /** The shared, mutable state of the running match (`*GameState`). */
  class GameState {
    var player1: PlayerData
    var player2: PlayerData
    var player1Mana: int
    var player2Mana: int
    var gameDuration: int
    var isGameActive: bool
    var turn: int

    function Snapshot(): Match
      reads this
    {
      Match(player1, player2, player1Mana, player2Mana, gameDuration, isGameActive, turn)
    }

    constructor (m: Match)
      ensures Snapshot() == m
    {
      player1, player2 := m.player1, m.player2;
      player1Mana, player2Mana := m.player1Mana, m.player2Mana;
      gameDuration, isGameActive, turn := m.gameDuration, m.isGameActive, m.turn;
    }

    /** Replaces the record of side `n` (the Go code writes through the `*PlayerData`). */
    method SetSide(n: int, p: PlayerData)
      modifies this
      ensures Snapshot() == WithSide(old(Snapshot()), n, p)
    {
      if n == 1 { player1 := p; } else { player2 := p; }
    }

    method SetOpponent(n: int, p: PlayerData)
      modifies this
      ensures Snapshot() == WithOpponent(old(Snapshot()), n, p)
    {
      if n == 1 { player2 := p; } else { player1 := p; }
    }

    /** Adds `delta` to side `n`'s mana counter (the Go code writes through `attackerMana`). */
    method AddMana(n: int, delta: int)
      modifies this
      ensures Snapshot() == WithMana(old(Snapshot()), n, ManaOf(old(Snapshot()), n) + delta)
    {
      if n == 1 { player1Mana := player1Mana + delta; } else { player2Mana := player2Mana + delta; }
    }
  }
}

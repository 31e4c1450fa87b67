/**
 * Player records of the earlier server (Project_claude/server/data_manager.go):
 * building a new player from the game templates, and the log-in, load and
 * save operations over the in-memory cache and the stored player file.
 *
 * The stored file is a map from user name to a record, where None stands
 * for a JSON `null` (a nil `*PlayerData`). The troop picks of `rand.Intn`
 * are passed in as a sequence.
 */
module DataManager {
  import opened Wrappers
  import opened Models

  datatype TroopTemplate = TroopTemplate(
    name: string, hp: real, atk: real, def: real, mana: int, exp: real, special: string)

  datatype TowerTemplate = TowerTemplate(
    kind: string, hp: real, atk: real, def: real, crit: real, exp: real)

  datatype GameTemplates = GameTemplates(troops: seq<TroopTemplate>, towers: seq<TowerTemplate>)

  /** How many troops a new player receives. */
  const TROOPS_PER_PLAYER := 3

  /** The templates written to a fresh templates file. */
  const DEFAULT_TEMPLATES := GameTemplates(
    [ TroopTemplate("Pawn", 50.0, 150.0, 100.0, 3, 5.0, ""),
      TroopTemplate("Bishop", 100.0, 200.0, 150.0, 4, 10.0, ""),
      TroopTemplate("Rook", 250.0, 200.0, 200.0, 5, 25.0, ""),
      TroopTemplate("Knight", 200.0, 300.0, 150.0, 5, 25.0, ""),
      TroopTemplate("Prince", 500.0, 400.0, 300.0, 6, 50.0, ""),
      TroopTemplate("Queen", 99.0, 0.0, 0.0, 5, 30.0, "Heal 300 to lowest HP tower") ],
    [ TowerTemplate(KING_TOWER, 2000.0, 500.0, 300.0, 0.1, 200.0),
      TowerTemplate(GUARD_TOWER, 1000.0, 300.0, 100.0, 0.05, 100.0) ])

  /** A level-1 tower at full HP built from its template. */
  function TowerFrom(t: TowerTemplate, pos: string): Tower {
    Tower(t.kind, t.hp, t.hp, t.atk, t.def, t.crit, t.exp, 1, pos)
  }

  /** A level-1 troop at full HP built from its template. */
  function TroopFrom(t: TroopTemplate): Troop {
    Troop(t.name, t.hp, t.hp, t.atk, t.def, t.mana, t.exp, 1, t.special)
  }

  /** One template's contribution: a King Tower template fills "king", a Guard Tower one both guards. */
  function AddTowers(towers: map<string, Tower>, t: TowerTemplate): map<string, Tower> {
    if t.kind == KING_TOWER then towers[KING := TowerFrom(t, KING)]
    else if t.kind == GUARD_TOWER then towers[GUARD1 := TowerFrom(t, GUARD1)][GUARD2 := TowerFrom(t, GUARD2)]
    else towers
  }

  /** The towers built from the templates in order; a later template of a type replaces an earlier one. */
  function TowersFrom(ts: seq<TowerTemplate>): map<string, Tower>
    decreases |ts|
  {
    if ts == [] then map[] else AddTowers(TowersFrom(ts[..|ts| - 1]), ts[|ts| - 1])
  }

  /** The last template of type `kind` in `ts`, if there is one. */
  function LastOfKind(ts: seq<TowerTemplate>, kind: string): (r: Option<TowerTemplate>)
    ensures r.Some? ==> r.value.kind == kind
    decreases |ts|
  {
    if ts == [] then None
    else if ts[|ts| - 1].kind == kind then Some(ts[|ts| - 1])
    else LastOfKind(ts[..|ts| - 1], kind)
  }

  /**
   * `LastOfKind` finds a template exactly when one of that type exists, and
   * then one that no later template of the type follows.
   */
  lemma {:induction false} LastOfKindIsLast(ts: seq<TowerTemplate>, kind: string)
    ensures var r := LastOfKind(ts, kind);
            && (r.None? <==> forall i :: 0 <= i < |ts| ==> ts[i].kind != kind)
            && (r.Some? ==> exists i :: 0 <= i < |ts| && ts[i] == r.value
                                        && forall j :: i < j < |ts| ==> ts[j].kind != kind)
    decreases |ts|
  {
    if ts != [] && ts[|ts| - 1].kind != kind {
      var front := ts[..|ts| - 1];
      LastOfKindIsLast(front, kind);
      assert forall i :: 0 <= i < |front| ==> front[i] == ts[i];
    }
  }

  /**
   * The towers a template list yields: a "king" exactly when there is a
   * King Tower template, "guard1" and "guard2" exactly when there is a
   * Guard Tower template, nothing else; each built, at full HP and level 1,
   * from the last template of its type and stored under its own position.
   */
  lemma {:induction false} TowersFromShape(ts: seq<TowerTemplate>)
    ensures var towers := TowersFrom(ts);
            && (forall p :: p in towers ==> p == KING || IsGuardPosition(p))
            && (KING in towers <==> LastOfKind(ts, KING_TOWER).Some?)
            && (KING in towers ==> towers[KING] == TowerFrom(LastOfKind(ts, KING_TOWER).value, KING))
            && (forall p :: IsGuardPosition(p) ==> (p in towers <==> LastOfKind(ts, GUARD_TOWER).Some?))
            && (forall p :: IsGuardPosition(p) && p in towers ==>
                  towers[p] == TowerFrom(LastOfKind(ts, GUARD_TOWER).value, p))
    decreases |ts|
  {
    if ts != [] {
      TowersFromShape(ts[..|ts| - 1]);
    }
  }

  /**
   * The troop picks `createNewPlayer` keeps, in order: each pick not kept
   * before, until three are kept.
   */
  function Choose(picks: seq<int>, chosen: seq<int>): seq<int>
    decreases |picks|
  {
    if |chosen| >= TROOPS_PER_PLAYER || picks == [] then chosen
    else if picks[0] in chosen then Choose(picks[1..], chosen)
    else Choose(picks[1..], chosen + [picks[0]])
  }


  /** What `Choose` keeps extends what was kept, comes from the picks, and repeats nothing. */
  lemma {:induction false} ChooseProperties(picks: seq<int>, chosen: seq<int>)
    requires Distinct(chosen)
    ensures var r := Choose(picks, chosen);
            && |chosen| <= |r| && r[..|chosen|] == chosen
            && (|chosen| <= TROOPS_PER_PLAYER ==> |r| <= TROOPS_PER_PLAYER)
            && Distinct(r)
            && (forall i :: |chosen| <= i < |r| ==> r[i] in picks)
    decreases |picks|
  {
    if |chosen| < TROOPS_PER_PLAYER && picks != [] {
      if picks[0] in chosen {
        ChooseProperties(picks[1..], chosen);
      } else {
        ChooseProperties(picks[1..], chosen + [picks[0]]);
        assert (chosen + [picks[0]])[..|chosen|] == chosen;
      }
    }
  }

  /** Picks `rand.Intn(n)` can produce, with at least three different values among them. */
  predicate ValidPicks(n: int, picks: seq<int>) {
    && (forall i :: 0 <= i < |picks| ==> 0 <= picks[i] < n)
    && |set x | x in picks| >= TROOPS_PER_PLAYER
  }

  /** The troops built from the chosen template indices. */
  function TroopsFrom(templates: seq<TroopTemplate>, indices: seq<int>): seq<Troop>
    requires forall i :: 0 <= i < |indices| ==> 0 <= indices[i] < |templates|
  {
    seq(|indices|, j requires 0 <= j < |indices| => TroopFrom(templates[indices[j]]))
  }

  /** The player `createNewPlayer` builds: level 1, no EXP, towers from the tower templates, the chosen troops. */
  function NewPlayer(username: string, password: string, t: GameTemplates, picks: seq<int>): PlayerData
    requires ValidPicks(|t.troops|, picks)
  {
    ChooseProperties(picks, []);
    PlayerData(username, password, 0.0, 1, TowersFrom(t.towers), TroopsFrom(t.troops, Choose(picks, [])))
  }

  /** What `createNewPlayer` returns: nothing when the templates cannot be read. */
  function CreatedPlayer(username: string, password: string, templates: Option<GameTemplates>, picks: seq<int>)
    : Option<PlayerData>
    requires templates.Some? ==> ValidPicks(|templates.value.troops|, picks)
  {
    if templates.None? then None else Some(NewPlayer(username, password, templates.value, picks))
  }

  /** The tower loop of `createNewPlayer`. */
  method BuildTowers(ts: seq<TowerTemplate>) returns (towers: map<string, Tower>)
    ensures towers == TowersFrom(ts)
  {
    towers := map[];
    var i := 0;
    while i < |ts|
      invariant 0 <= i <= |ts|
      invariant towers == TowersFrom(ts[..i])
    {
      var towerTemplate := ts[i];
      assert ts[..i + 1][..i] == ts[..i];
      ghost var before := towers;
      if towerTemplate.kind == KING_TOWER {
        towers := towers[KING := Tower(towerTemplate.kind, towerTemplate.hp, towerTemplate.hp, towerTemplate.atk,
                                       towerTemplate.def, towerTemplate.crit, towerTemplate.exp, 1, KING)];
      } else if towerTemplate.kind == GUARD_TOWER {
        var g := 1;
        while g <= 2
          invariant 1 <= g <= 3
          invariant towers == if g == 1 then before
                              else if g == 2 then before[GUARD1 := TowerFrom(towerTemplate, GUARD1)]
                              else before[GUARD1 := TowerFrom(towerTemplate, GUARD1)][GUARD2 := TowerFrom(towerTemplate, GUARD2)]
        {
          var pos := if g == 1 then GUARD1 else GUARD2;
          towers := towers[pos := Tower(towerTemplate.kind, towerTemplate.hp, towerTemplate.hp, towerTemplate.atk,
                                        towerTemplate.def, towerTemplate.crit, towerTemplate.exp, 1, pos)];
          g := g + 1;
        }
      }
      i := i + 1;
    }
    assert ts[..i] == ts;
  }

  /**
   * The troop loop of `createNewPlayer`: draws picks until three different
   * templates are selected.
   */
  method PickTroops(templates: seq<TroopTemplate>, picks: seq<int>) returns (troops: seq<Troop>)
    requires ValidPicks(|templates|, picks)
    ensures |Choose(picks, [])| == TROOPS_PER_PLAYER
    ensures forall j :: 0 <= j < |Choose(picks, [])| ==> 0 <= Choose(picks, [])[j] < |templates|
    ensures troops == TroopsFrom(templates, Choose(picks, []))
  {
    ChooseProperties(picks, []);
    var selectedTroops: set<int> := {};
    troops := [];
    ghost var chosen: seq<int> := [];
    var k := 0;
    PickStart(templates, picks);
    while |troops| < TROOPS_PER_PLAYER
      invariant PickInv(templates, picks, k, selectedTroops, chosen, troops)
      decreases |picks| - k
    {
      PickAdvance(templates, picks, k, selectedTroops, chosen, troops);
      var idx := picks[k];
      k := k + 1;
      if idx !in selectedTroops {
        selectedTroops := selectedTroops + {idx};
        troops := troops + [TroopFrom(templates[idx])];
        chosen := chosen + [idx];
      }
    }
    PickDone(templates, picks, k, selectedTroops, chosen, troops);
  }

  /**
   * The state of the troop loop after reading `k` picks: `selected` holds
   * exactly the chosen indices, every pick read so far is among them, the
   * troops are those of the chosen templates, and `Choose` continued from
   * here gives the overall choice.
   */
  ghost predicate PickInv(templates: seq<TroopTemplate>, picks: seq<int>, k: int,
                          selected: set<int>, chosen: seq<int>, troops: seq<Troop>)
  {
    && ValidPicks(|templates|, picks)
    && 0 <= k <= |picks|
    && selected == Elems(chosen)
    && Elems(picks[..k]) <= selected
    && |selected| == |chosen| == |troops| <= TROOPS_PER_PLAYER
    && Choose(picks[k..], chosen) == Choose(picks, [])
    && (forall j :: 0 <= j < |chosen| ==> 0 <= chosen[j] < |templates|)
    && troops == TroopsFrom(templates, chosen)
    && (|troops| < TROOPS_PER_PLAYER ==> k < |picks|)
  }

  lemma PickStart(templates: seq<TroopTemplate>, picks: seq<int>)
    requires ValidPicks(|templates|, picks)
    ensures PickInv(templates, picks, 0, {}, [], [])
  {
    assert picks[0..] == picks;
    assert Elems(picks[..0]) == {};
    assert Elems<int>([]) == {};
    assert |Elems(picks)| >= TROOPS_PER_PLAYER;
  }

  /** One pass of the troop loop keeps `PickInv`. */
  lemma PickAdvance(templates: seq<TroopTemplate>, picks: seq<int>, k: int,
                    selected: set<int>, chosen: seq<int>, troops: seq<Troop>)
    requires PickInv(templates, picks, k, selected, chosen, troops) && |troops| < TROOPS_PER_PLAYER
    ensures k < |picks|
    ensures picks[k] in selected ==> PickInv(templates, picks, k + 1, selected, chosen, troops)
    ensures picks[k] !in selected ==>
              PickInv(templates, picks, k + 1, selected + {picks[k]}, chosen + [picks[k]],
                      troops + [TroopFrom(templates[picks[k]])])
  {
    var idx := picks[k];
    PickStep(picks, k, chosen);
    assert picks[..k + 1] == picks[..k] + [idx];
    ElemsSnoc(picks[..k], idx);
    if idx in selected {
      if k + 1 == |picks| {
        PicksCovered(|templates|, picks, k + 1, selected);
      }
    } else {
      ElemsSnoc(chosen, idx);
      TroopsFromSnoc(templates, chosen, idx);
      if k + 1 == |picks| {
        PicksCovered(|templates|, picks, k + 1, selected + {idx});
      }
    }
  }

  /** When three troops are in hand, `Choose` has nothing left to add. */
  lemma PickDone(templates: seq<TroopTemplate>, picks: seq<int>, k: int,
                 selected: set<int>, chosen: seq<int>, troops: seq<Troop>)
    requires PickInv(templates, picks, k, selected, chosen, troops) && |troops| >= TROOPS_PER_PLAYER
    ensures troops == TroopsFrom(templates, Choose(picks, []))
  {
  }

  /** Choosing one more template appends its fresh troop. */
  lemma TroopsFromSnoc(templates: seq<TroopTemplate>, indices: seq<int>, i: int)
    requires forall j :: 0 <= j < |indices| ==> 0 <= indices[j] < |templates|
    requires 0 <= i < |templates|
    ensures TroopsFrom(templates, indices + [i]) == TroopsFrom(templates, indices) + [TroopFrom(templates[i])]
  {
  }

  /** One draw of the troop loop, as `Choose` sees it. */
  lemma PickStep(picks: seq<int>, k: int, chosen: seq<int>)
    requires 0 <= k < |picks| && |chosen| < TROOPS_PER_PLAYER
    ensures Choose(picks[k..], chosen)
            == if picks[k] in chosen then Choose(picks[k + 1..], chosen)
               else Choose(picks[k + 1..], chosen + [picks[k]])
  {
    assert picks[k..][1..] == picks[k + 1..];
  }

  /** A set holding every pick has at least three members. */
  lemma PicksCovered(n: int, picks: seq<int>, k: int, selected: set<int>)
    requires ValidPicks(n, picks) && k == |picks|
    requires Elems(picks[..k]) <= selected
    ensures |selected| >= TROOPS_PER_PLAYER
  {
    assert picks[..k] == picks;
    var all := set x | x in picks;
    assert |all| <= |selected| by {
      assert selected == all + (selected - all);
    }
  }

  /**
   * `createNewPlayer`: None when the templates cannot be read; otherwise a
   * new player whose three troops come from three different templates.
   */
  method CreateNewPlayer(username: string, password: string, templates: Option<GameTemplates>, picks: seq<int>)
    returns (player: Option<PlayerData>)
    requires templates.Some? ==> ValidPicks(|templates.value.troops|, picks)
    ensures player == CreatedPlayer(username, password, templates, picks)
    ensures templates.Some? ==> |Choose(picks, [])| == TROOPS_PER_PLAYER
  {
    if templates.None? {
      return None;
    }
    var t := templates.value;
    var towers := BuildTowers(t.towers);
    var troops := PickTroops(t.troops, picks);
    player := Some(PlayerData(username, password, 0.0, 1, towers, troops));
  }

  /**
   * A new player has the given name and password, no EXP, level 1, and three
   * troops at full HP and level 1 built from three different templates.
   */
  lemma NewPlayerShape(username: string, password: string, t: GameTemplates, picks: seq<int>)
    requires ValidPicks(|t.troops|, picks)
    requires |Choose(picks, [])| == TROOPS_PER_PLAYER
    ensures var p := NewPlayer(username, password, t, picks);
            && p.username == username && p.password == password
            && p.exp == 0.0 && p.level == 1
            && |p.troops| == TROOPS_PER_PLAYER
            && Distinct(Choose(picks, []))
            && (forall i :: 0 <= i < |p.troops| ==> 0 <= Choose(picks, [])[i] < |t.troops|)
            && (forall i :: 0 <= i < |p.troops| ==>
                  p.troops[i] == TroopFrom(t.troops[Choose(picks, [])[i]])
                  && p.troops[i].hp == p.troops[i].maxHp && p.troops[i].level == 1)
            && p.towers == TowersFrom(t.towers)
  {
    ChooseProperties(picks, []);
  }

  /** Templates with no negative HP, EXP or cost. */
  predicate SaneTemplates(t: GameTemplates) {
    && (forall i :: 0 <= i < |t.troops| ==> t.troops[i].hp >= 0.0 && t.troops[i].mana >= 0)
    && (forall i :: 0 <= i < |t.towers| ==> t.towers[i].hp >= 0.0 && t.towers[i].exp >= 0.0)
  }

  /** A player built from sane templates satisfies the player invariant. */
  lemma NewPlayerValid(username: string, password: string, t: GameTemplates, picks: seq<int>)
    requires ValidPicks(|t.troops|, picks) && SaneTemplates(t)
    ensures ValidPlayer(NewPlayer(username, password, t, picks))
  {
    var p := NewPlayer(username, password, t, picks);
    ChooseProperties(picks, []);
    var c := Choose(picks, []);
    TowersFromShape(t.towers);
    LastOfKindIsLast(t.towers, KING_TOWER);
    LastOfKindIsLast(t.towers, GUARD_TOWER);
    forall i | 0 <= i < |p.troops| ensures ValidTroop(p.troops[i]) {
      assert p.troops[i] == TroopFrom(t.troops[c[i]]);
    }
  }

  /** The default templates are sane. */
  lemma DefaultTemplatesSane()
    ensures SaneTemplates(DEFAULT_TEMPLATES)
  {
  }

  // ------------------------------------------------------------ log-in

  /** How a log-in attempt ends as the code is written. */
  datatype Login = LoggedIn(player: PlayerData) | Refused | NilRecordDereferenced

  /**
   * `authenticatePlayer` exactly as written: an unknown name is created and
   * its result stored even when creation failed (a null record); a stored
   * null record is then read through a nil pointer.
   */
  function AuthenticateAsWritten(storage: map<string, Option<PlayerData>>, username: string, password: string,
                                 created: Option<PlayerData>): (r: (Login, map<string, Option<PlayerData>>))
    ensures username !in storage ==>
              && r.1 == storage[username := created]
              && (r.0 != Refused <==> created.Some?)
    ensures r.0 == NilRecordDereferenced <==> username in storage && storage[username].None?
    ensures r.0.LoggedIn? && username in storage ==>
              storage[username] == Some(r.0.player) && r.0.player.password == password
    ensures username in storage ==> r.1 == storage
  {
    if username !in storage then
      (if created.Some? then LoggedIn(created.value) else Refused, storage[username := created])
    else
      match storage[username]
      case None => (NilRecordDereferenced, storage)
      case Some(p) => (if p.password != password then Refused else LoggedIn(p), storage)
  }

  /**
   * `initializeDefaultData` at start-up, given the player file and the
   * templates file when they exist: a missing player file is written
   * first, with the two test accounts created from whatever templates file
   * exists at that moment; a missing templates file is written afterwards.
   */
  function InitialFiles(players: Option<map<string, Option<PlayerData>>>, templates: Option<GameTemplates>,
                        picks1: seq<int>, picks2: seq<int>): (r: (map<string, Option<PlayerData>>, GameTemplates))
    requires templates.Some? ==> ValidPicks(|templates.value.troops|, picks1)
    requires templates.Some? ==> ValidPicks(|templates.value.troops|, picks2)
    ensures players.Some? ==> r.0 == players.value
    ensures players.None? ==> r.0.Keys == {"player1", "player2"}
    ensures templates.None? ==> r.1 == DEFAULT_TEMPLATES
  {
    var stored :=
      if players.Some? then players.value
      else map["player1" := CreatedPlayer("player1", "password1", templates, picks1),
               "player2" := CreatedPlayer("player2", "password2", templates, picks2)];
    (stored, if templates.Some? then templates.value else DEFAULT_TEMPLATES)
  }

  /**
   * On a fresh installation both test accounts are stored as null records,
   * because the player file is written before any templates exist, and
   * logging in with a test account then reads a null record.
   */
  lemma FreshInstallLoginFails(picks1: seq<int>, picks2: seq<int>, created: Option<PlayerData>)
    ensures var (stored, templates) := InitialFiles(None, None, picks1, picks2);
            && stored == map["player1" := None, "player2" := None]
            && templates == DEFAULT_TEMPLATES
            && AuthenticateAsWritten(stored, "player1", "password1", created).0 == NilRecordDereferenced
            && AuthenticateAsWritten(stored, "player2", "password2", created).0 == NilRecordDereferenced
  {
  }

  /** A name whose creation failed once is stored as null, and every later log-in with it reads that null. */
  lemma FailedCreationPoisonsName(storage: map<string, Option<PlayerData>>, username: string,
                                  password: string, password': string, created: Option<PlayerData>)
    requires username !in storage
    ensures var (first, stored) := AuthenticateAsWritten(storage, username, password, None);
            && first == Refused
            && AuthenticateAsWritten(stored, username, password', created).0 == NilRecordDereferenced
  {
  }

  predicate NoNullRecords(storage: map<string, Option<PlayerData>>) {
    forall u :: u in storage ==> storage[u].Some?
  }

  /**
   * The log-in as intended: a name without a record (or with a null one)
   * is created and stored only when creation succeeds; a stored record is
   * returned when the password matches, and nothing otherwise.
   */
  function Authenticate(storage: map<string, Option<PlayerData>>, username: string, password: string,
                        created: Option<PlayerData>): (r: (Option<PlayerData>, map<string, Option<PlayerData>>))
    ensures NoNullRecords(storage) ==> NoNullRecords(r.1)
    ensures r.0.Some? ==> username in r.1 && r.1[username] == r.0
  {
    if username !in storage || storage[username].None? then
      match created
      case None => (None, storage)
      case Some(p) => (Some(p), storage[username := Some(p)])
    else if storage[username].value.password != password then (None, storage)
    else (storage[username], storage)
  }

  /**
   * Where the written log-in does not fail, the intended one agrees with it:
   * same player, same stored file, except that a failed creation is no
   * longer stored.
   */
  lemma AuthenticateRefinesAsWritten(storage: map<string, Option<PlayerData>>, username: string, password: string,
                                     created: Option<PlayerData>)
    ensures var (login, stored) := AuthenticateAsWritten(storage, username, password, created);
            var (player, stored') := Authenticate(storage, username, password, created);
            && (login != NilRecordDereferenced ==> (player.Some? <==> login.LoggedIn?))
            && (login.LoggedIn? ==> player == Some(login.player))
            && (login != NilRecordDereferenced && (username in storage || created.Some?) ==> stored' == stored)
  {
  }

  /** The password rule: a stored player is returned only to the right password, and a wrong one changes nothing. */
  lemma AuthenticatePasswordRule(storage: map<string, Option<PlayerData>>, username: string, password: string,
                                 created: Option<PlayerData>)
    requires username in storage && storage[username].Some?
    ensures var (player, stored) := Authenticate(storage, username, password, created);
            && stored == storage
            && (player.Some? <==> storage[username].value.password == password)
            && (player.Some? ==> player == storage[username])
  {
  }

  // ------------------------------------------------------------ the store

  /** Looking a name up: the cache first, then the stored file, whose entry is then cached. */
  function Load(cache: map<string, Option<PlayerData>>, storage: map<string, Option<PlayerData>>, username: string)
    : (r: (Option<PlayerData>, map<string, Option<PlayerData>>))
  {
    if username in cache then (cache[username], cache)
    else if username in storage then (storage[username], cache[username := storage[username]])
    else (None, cache)
  }

  /** Loading is stable: a second load returns what the first did and caches nothing new. */
  lemma LoadTwice(cache: map<string, Option<PlayerData>>, storage: map<string, Option<PlayerData>>, username: string)
    ensures var (first, cache') := Load(cache, storage, username);
            Load(cache', storage, username) == (first, cache')
  {
  }

  /** What is saved is what a later load returns, and other names are untouched. */
  lemma LoadAfterSave(cache: map<string, Option<PlayerData>>, storage: map<string, Option<PlayerData>>,
                      username: string, player: PlayerData, other: string)
    requires other != username
    ensures Load(cache[username := Some(player)], storage[username := Some(player)], username).0 == Some(player)
    ensures Load(cache[username := Some(player)], storage[username := Some(player)], other)
            == (var (r, c) := Load(cache, storage, other); (r, c[username := Some(player)]))
  {
    if other !in cache && other in storage {
      assert cache[username := Some(player)][other := storage[other]]
             == cache[other := storage[other]][username := Some(player)];
    }
  }

  /** The server's player records: the in-memory cache and the player file. */
  class PlayerStore {
    var cache: map<string, Option<PlayerData>>
    var storage: map<string, Option<PlayerData>>

    constructor (stored: map<string, Option<PlayerData>>)
      ensures cache == map[] && storage == stored
    {
      cache := map[];
      storage := stored;
    }

    /** Whether logging in as `username` creates a new player. */
    predicate NeedsCreation(username: string)
      reads this
    {
      username !in storage || storage[username].None?
    }

    /** `authenticatePlayer`, with the null-record failure corrected. */
    method AuthenticatePlayer(username: string, password: string, templates: Option<GameTemplates>, picks: seq<int>)
      returns (player: Option<PlayerData>)
      requires NeedsCreation(username) && templates.Some? ==> ValidPicks(|templates.value.troops|, picks)
      modifies this
      ensures var created := if old(NeedsCreation(username))
                             then CreatedPlayer(username, password, templates, picks) else None;
              (player, storage) == Authenticate(old(storage), username, password, created)
      ensures cache == old(cache)
    {
      if username !in storage || storage[username].None? {
        var created := CreateNewPlayer(username, password, templates, picks);
        if created.Some? {
          storage := storage[username := created];
        }
        return created;
      }
      var stored := storage[username].value;
      if stored.password != password {
        return None;
      }
      return Some(stored);
    }

    /** `loadPlayerData`. */
    method LoadPlayerData(username: string) returns (player: Option<PlayerData>)
      modifies this
      ensures (player, cache) == Load(old(cache), storage, username)
      ensures storage == old(storage)
    {
      if username in cache {
        return cache[username];
      }
      if username in storage {
        player := storage[username];
        cache := cache[username := player];
        return;
      }
      return None;
    }

    /** `savePlayerData`: the record goes to the cache and to the file. */
    method SavePlayerData(username: string, player: PlayerData)
      modifies this
      ensures cache == old(cache)[username := Some(player)]
      ensures storage == old(storage)[username := Some(player)]
    {
      cache := cache[username := Some(player)];
      storage := storage[username := Some(player)];
    }
  }
}

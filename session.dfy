/**
 * The connection side of the current server (server/server.go): turning a
 * command line into an action, the player numbering when a client joins,
 * starting a match, and a client leaving.
 *
 * Connections are opaque numbers. Whether the player holds the turn comes
 * from the turn keeper, which is not part of this model, and is passed in.
 */
module Session {
  import opened Wrappers
  import opened Text
  import opened Models

  type ConnId = nat

  // ------------------------------------------------------------ commands

  /** What the server does with one command line. */
  datatype Command =
    | Help
    | Status
    | NotYourTurn
    | Attack(troopIndex: int, target: string)
    | BadTroopIndex
    | Usage
    | Unknown

  /**
   * `processCommand`: the line is lower-cased and split at single spaces;
   * the first word picks the command. An attack needs the turn, exactly
   * three words and a troop number from 1 to 3, which becomes an index
   * from 0 to 2.
   */
  function ProcessCommand(input: string, holdsTurn: bool): (c: Command)
    ensures c.Attack? ==> 0 <= c.troopIndex < 3 && ' ' !in c.target && ToLower(c.target) == c.target
  {
    WordsCommand(Split(ToLower(input)), holdsTurn)
  }

  /** The choice `processCommand` makes on the words of the lower-cased line. */
  function WordsCommand(parts: seq<string>, holdsTurn: bool): (c: Command)
    requires |parts| >= 1
    ensures c.Attack? ==> |parts| == 3 && c.target == ToLower(parts[2]) && ToLower(c.target) == c.target
  {
    if parts[0] == "help" then Help
    else if parts[0] == "status" then Status
    else if parts[0] == "attack" then
      if !holdsTurn then NotYourTurn
      else if |parts| == 3 then
        var index := Atoi(parts[1]);
        if index.Some? && 1 <= index.value <= 3 then
          ToLowerIdempotent(parts[2]);
          Attack(index.value - 1, ToLower(parts[2]))
        else BadTroopIndex
      else Usage
    else Unknown
  }

  /** Command words are case-insensitive: a line and its lower-case form mean the same. */
  lemma ProcessCommandIgnoresCase(input: string, holdsTurn: bool)
    ensures ProcessCommand(ToLower(input), holdsTurn) == ProcessCommand(input, holdsTurn)
  {
    ToLowerIdempotent(input);
  }

  /** The turn only gates attacks: without it an attack is refused, and every other command is unaffected. */
  lemma TurnGatesOnlyAttacks(input: string)
    ensures Split(ToLower(input))[0] == "attack" ==> ProcessCommand(input, false) == NotYourTurn
    ensures Split(ToLower(input))[0] != "attack" ==> ProcessCommand(input, false) == ProcessCommand(input, true)
    ensures ProcessCommand(input, true) != NotYourTurn
  {
  }

  /** The command line a client sends for an attack with troop `index` (0 to 2) on `target`. */
  function AttackLine(index: int, target: string): string {
    "attack " + Itoa(index + 1) + " " + target
  }

  /**
   * Every attack line is read back as that attack: the troop number and the
   * target survive the trip through lower-casing, splitting and `Atoi`.
   */
  lemma AttackLineRoundTrip(index: int, target: string)
    requires 0 <= index < 3
    requires ' ' !in target && ToLower(target) == target
    ensures ProcessCommand(AttackLine(index, target), true) == Attack(index, target)
  {
    AttackLineWords(index, target);
    AttackWordsRead(index, target);
  }

  /** The three words of an attack line choose that attack. */
  lemma AttackWordsRead(index: int, target: string)
    requires 0 <= index < 3
    requires ToLower(target) == target
    ensures WordsCommand(["attack", Itoa(index + 1), target], true) == Attack(index, target)
  {
    AtoiItoa(index + 1);
  }

  /** An attack line is lower-case already and splits into its three words. */
  lemma AttackLineWords(index: int, target: string)
    requires 0 <= index < 3
    requires ' ' !in target && ToLower(target) == target
    ensures ToLower(AttackLine(index, target)) == AttackLine(index, target)
    ensures Split(AttackLine(index, target)) == ["attack", Itoa(index + 1), target]
  {
    var digit := Itoa(index + 1);
    var parts := ["attack", digit, target];
    AttackLineJoin(index, target);
    LowerAttackLine(digit, target);
    assert forall i :: 0 <= i < |parts| ==> ' ' !in parts[i] by {
      assert parts[0] == "attack" && parts[1] == digit && parts[2] == target;
    }
    SplitJoin(parts);
  }

  /** An attack line is its three words joined with single spaces. */
  lemma AttackLineJoin(index: int, target: string)
    requires 0 <= index < 3
    ensures var digit := Itoa(index + 1);
            && digit == [('0' as int + index + 1) as char]
            && AttackLine(index, target) == Join(["attack", digit, target])
  {
    var digit := Itoa(index + 1);
    var parts := ["attack", digit, target];
    assert Join([digit, target]) == digit + " " + target by {
      assert [digit, target][1..] == [target];
    }
    assert parts[1..] == [digit, target];
  }

  lemma LowerAttackLine(digit: string, target: string)
    requires |digit| == 1 && '1' <= digit[0] <= '3'
    requires ToLower(target) == target
    ensures ToLower("attack " + digit + " " + target) == "attack " + digit + " " + target
  {
    ToLowerAppend("attack ", digit);
    ToLowerAppend("attack " + digit, " ");
    ToLowerAppend("attack " + digit + " ", target);
  }

  /** Only the three-word form with a number from 1 to 3 yields an attack, and every such line does. */
  lemma AttackShape(input: string)
    ensures var parts := Split(ToLower(input));
            ProcessCommand(input, true).Attack?
            <==> (&& parts[0] == "attack" && |parts| == 3
                  && Atoi(parts[1]).Some? && 1 <= Atoi(parts[1]).value <= 3)
    ensures var parts := Split(ToLower(input));
            var c := ProcessCommand(input, true);
            c.Attack? ==> && |parts| == 3 && Atoi(parts[1]).Some?
                          && c.troopIndex == Atoi(parts[1]).value - 1 && c.target == ToLower(parts[2])
  {
  }

  // ------------------------------------------------------------ the command loop

  /** A line that ends the session: "quit" in any case, around white space. */
  predicate IsQuit(line: string) {
    ToLower(TrimSpace(line)) == "quit"
  }

  /** Whether some line ends the session. */
  predicate HasQuit(lines: seq<string>) {
    lines != [] && (IsQuit(lines[0]) || HasQuit(lines[1..]))
  }

  /**
   * The commands a session runs for the lines it reads: each line is
   * trimmed, a blank line is skipped and a quit line ends the session.
   * `turns[i]` says whether the player held the turn at line `i`.
   */
  function SessionCommands(lines: seq<string>, turns: seq<bool>): seq<Command>
    requires |turns| == |lines|
  {
    if lines == [] then []
    else
      var input := TrimSpace(lines[0]);
      if input == [] then SessionCommands(lines[1..], turns[1..])
      else if ToLower(input) == "quit" then []
      else [ProcessCommand(input, turns[0])] + SessionCommands(lines[1..], turns[1..])
  }

  /** One line of the session: skipped, ending it, or run before the rest. */
  lemma SessionStep(lines: seq<string>, turns: seq<bool>, k: int)
    requires |turns| == |lines| && 0 <= k < |lines|
    ensures var input := TrimSpace(lines[k]);
            var tail := SessionCommands(lines[k + 1..], turns[k + 1..]);
            && HasQuit(lines[k..]) == (IsQuit(lines[k]) || HasQuit(lines[k + 1..]))
            && (input == [] ==> !IsQuit(lines[k]) && SessionCommands(lines[k..], turns[k..]) == tail)
            && (input != [] && ToLower(input) == "quit" ==>
                  IsQuit(lines[k]) && SessionCommands(lines[k..], turns[k..]) == [])
            && (input != [] && ToLower(input) != "quit" ==>
                  !IsQuit(lines[k]) && SessionCommands(lines[k..], turns[k..]) == [ProcessCommand(input, turns[k])] + tail)
  {
    assert lines[k..][1..] == lines[k + 1..] && turns[k..][1..] == turns[k + 1..];
    assert lines[k..][0] == lines[k] && turns[k..][0] == turns[k];
  }

  /** The command loop of `handleClient`; `quit` reports whether the player typed quit. */
  method CommandLoop(lines: seq<string>, turns: seq<bool>) returns (commands: seq<Command>, quit: bool)
    requires |turns| == |lines|
    ensures commands == SessionCommands(lines, turns)
    ensures quit == HasQuit(lines)
  {
    commands, quit := [], false;
    var k := 0;
    LoopStart(lines, turns);
    while k < |lines|
      invariant LoopAt(lines, turns, k, commands)
      decreases |lines| - k
    {
      var input := TrimSpace(lines[k]);
      if input == [] {
        LoopSkip(lines, turns, k, commands);
        k := k + 1;
        continue;
      }
      if ToLower(input) == "quit" {
        LoopQuit(lines, turns, k, commands);
        quit := true;
        return;
      }
      var command := ProcessCommand(input, turns[k]);
      LoopRun(lines, turns, k, commands);
      commands := commands + [command];
      k := k + 1;
    }
    LoopEnd(lines, turns, k, commands);
  }

  /**
   * The command loop after `k` lines: the commands run so far, followed by
   * those the remaining lines give, are the session's commands, and a quit
   * line lies ahead exactly when the session has one.
   */
  ghost predicate LoopAt(lines: seq<string>, turns: seq<bool>, k: int, commands: seq<Command>) {
    && |turns| == |lines|
    && 0 <= k <= |lines|
    && commands + SessionCommands(lines[k..], turns[k..]) == SessionCommands(lines, turns)
    && HasQuit(lines[k..]) == HasQuit(lines)
  }

  lemma LoopStart(lines: seq<string>, turns: seq<bool>)
    requires |turns| == |lines|
    ensures LoopAt(lines, turns, 0, [])
  {
    assert lines[0..] == lines && turns[0..] == turns;
  }

  lemma LoopSkip(lines: seq<string>, turns: seq<bool>, k: int, commands: seq<Command>)
    requires LoopAt(lines, turns, k, commands) && k < |lines| && TrimSpace(lines[k]) == []
    ensures LoopAt(lines, turns, k + 1, commands)
  {
    SessionStep(lines, turns, k);
  }

  lemma LoopQuit(lines: seq<string>, turns: seq<bool>, k: int, commands: seq<Command>)
    requires LoopAt(lines, turns, k, commands) && k < |lines|
    requires TrimSpace(lines[k]) != [] && ToLower(TrimSpace(lines[k])) == "quit"
    ensures commands == SessionCommands(lines, turns) && HasQuit(lines)
  {
    SessionStep(lines, turns, k);
  }

  lemma LoopRun(lines: seq<string>, turns: seq<bool>, k: int, commands: seq<Command>)
    requires LoopAt(lines, turns, k, commands) && k < |lines|
    requires TrimSpace(lines[k]) != [] && ToLower(TrimSpace(lines[k])) != "quit"
    ensures LoopAt(lines, turns, k + 1, commands + [ProcessCommand(TrimSpace(lines[k]), turns[k])])
  {
    SessionStep(lines, turns, k);
    AppendOne(commands, ProcessCommand(TrimSpace(lines[k]), turns[k]), SessionCommands(lines[k + 1..], turns[k + 1..]));
  }

  /** Appending one command before a tail is appending it to the front. */
  lemma AppendOne<T>(front: seq<T>, c: T, tail: seq<T>)
    ensures front + ([c] + tail) == (front + [c]) + tail
  {
  }

  lemma LoopEnd(lines: seq<string>, turns: seq<bool>, k: int, commands: seq<Command>)
    requires LoopAt(lines, turns, k, commands) && k == |lines|
    ensures commands == SessionCommands(lines, turns) && !HasQuit(lines)
  {
    assert lines[k..] == [] && turns[k..] == [];
  }

  /** Nothing typed after a quit line is run. */
  lemma {:induction false} QuitEndsSession(lines: seq<string>, turns: seq<bool>, q: string, more: seq<string>, moreTurns: seq<bool>, t: bool)
    requires |turns| == |lines| && |moreTurns| == |more|
    requires IsQuit(q)
    requires !HasQuit(lines)
    ensures SessionCommands(lines + [q] + more, turns + [t] + moreTurns) == SessionCommands(lines, turns)
  {
    if lines == [] {
      AroundEmpty(q, more);
      AroundEmpty(t, moreTurns);
      assert TrimSpace(q) != [];
      SessionCons(q, more, t, moreTurns);
    } else {
      var rest, restTurns := lines[1..] + [q] + more, turns[1..] + [t] + moreTurns;
      AroundCons(lines, q, more);
      AroundCons(turns, t, moreTurns);
      QuitEndsSession(lines[1..], turns[1..], q, more, moreTurns, t);
      SessionCons(lines[0], rest, turns[0], restTurns);
      SessionCons(lines[0], lines[1..], turns[0], turns[1..]);
    }
  }

  /** Placing `y` between nothing and `zs`. */
  lemma AroundEmpty<T>(y: T, zs: seq<T>)
    ensures [] + [y] + zs == [y] + zs
  {
  }

  /** Placing `y` between a non-empty `xs` and `zs` keeps the head of `xs` in front. */
  lemma AroundCons<T>(xs: seq<T>, y: T, zs: seq<T>)
    requires xs != []
    ensures xs + [y] + zs == [xs[0]] + (xs[1..] + [y] + zs)
    ensures xs == [xs[0]] + xs[1..]
  {
  }

  /** The commands of a session whose first line is `line`. */
  lemma SessionCons(line: string, rest: seq<string>, turn: bool, restTurns: seq<bool>)
    requires |restTurns| == |rest|
    ensures var input := TrimSpace(line);
            SessionCommands([line] + rest, [turn] + restTurns)
            == if input == [] then SessionCommands(rest, restTurns)
               else if ToLower(input) == "quit" then []
               else [ProcessCommand(input, turn)] + SessionCommands(rest, restTurns)
  {
    assert ([line] + rest)[1..] == rest && ([turn] + restTurns)[1..] == restTurns;
  }

  // ------------------------------------------------------------ joining

  /** How a client that logged in is placed. */
  datatype JoinResult = Waiting | Starting | Full

  /** The player number a placed client plays as. */
  function PlayerNumber(r: JoinResult): int {
    match r
    case Waiting => 1
    case Starting => 2
    case Full => 0
  }

  /**
   * The numbering of `handleClient` as written: the client is entered under
   * its name, and the size of the map decides; a client turned away as the
   * third stays in the map although its session ends.
   */
  function PlaceClientAsWritten(clients: map<string, ConnId>, username: string, conn: ConnId): (r: (JoinResult, map<string, ConnId>))
    ensures r.1 == clients[username := conn]
    ensures r.0 == Full <==> |r.1| > 2
    ensures r.0 == Waiting <==> |r.1| == 1
  {
    var entered := clients[username := conn];
    if |entered| == 1 then (Waiting, entered)
    else if |entered| == 2 then (Starting, entered)
    else (Full, entered)
  }

  /**
   * The numbering as intended: a client turned away leaves the map as it
   * was, so the map holds only clients whose session runs.
   */
  function PlaceClient(clients: map<string, ConnId>, username: string, conn: ConnId): (r: (JoinResult, map<string, ConnId>))
    ensures |clients| <= 2 ==> |r.1| <= 2
    ensures r.0 != Full ==> r.1 == clients[username := conn]
    ensures r.0 == Full ==> r.1 == clients
  {
    var entered := clients[username := conn];
    if |entered| == 1 then (Waiting, entered)
    else if |entered| == 2 then (Starting, entered)
    else (Full, clients)
  }

  /** The intended numbering places a client exactly as the written one does; only the map after a refusal differs. */
  lemma PlaceClientAgreesWithWritten(clients: map<string, ConnId>, username: string, conn: ConnId)
    ensures PlaceClient(clients, username, conn).0 == PlaceClientAsWritten(clients, username, conn).0
    ensures PlaceClient(clients, username, conn).0 != Full ==> PlaceClient(clients, username, conn) == PlaceClientAsWritten(clients, username, conn)
  {
  }

  /** The first client waits as player 1, the second starts the match as player 2, a third is turned away. */
  lemma PlacementNumbering(clients: map<string, ConnId>, username: string, conn: ConnId)
    requires username !in clients && |clients| <= 2
    ensures var r := PlaceClient(clients, username, conn).0;
            && (|clients| == 0 <==> PlayerNumber(r) == 1)
            && (|clients| == 1 <==> PlayerNumber(r) == 2)
            && (|clients| == 2 <==> r == Full)
  {
  }

  /**
   * As written, a refused client is never removed. "a" and "b" play a match
   * to its end, "c" joins and is turned away, and "a" leaves. From there,
   * either "a" rejoins and is refused although only "b" is connected, or
   * instead "b" leaves and a newcomer "d" is paired with the departed "c".
   * The intended numbering lets "a" back in.
   */
  lemma RefusedClientLingers()
    ensures var (_, m1) := PlaceClientAsWritten(map[], "a", 1);
            var (_, m2) := PlaceClientAsWritten(m1, "b", 2);
            var (r3, m3) := PlaceClientAsWritten(m2, "c", 3);
            var m4 := m3 - {"a"};
            var (r5, _) := PlaceClientAsWritten(m4, "a", 4);
            var (r6, m6) := PlaceClientAsWritten(m4 - {"b"}, "d", 5);
            && r3 == Full && "c" in m3
            && m4.Keys == {"b", "c"} && r5 == Full
            && r6 == Starting && m6.Keys == {"c", "d"}
    ensures var (_, m1) := PlaceClient(map[], "a", 1);
            var (_, m2) := PlaceClient(m1, "b", 2);
            var (r3, m3) := PlaceClient(m2, "c", 3);
            var (r5, m5) := PlaceClient(m3 - {"a"}, "a", 4);
            && r3 == Full && m3.Keys == {"a", "b"} && r5 == Starting && m5.Keys == {"a", "b"}
  {
    var m1 := map["a" := 1];
    var m2 := m1["b" := 2];
    var m3 := m2["c" := 3];
    assert m3.Keys == {"a", "b", "c"};
    var m4 := m3 - {"a"};
    assert m4.Keys == {"b", "c"};
    assert m4["a" := 4].Keys == {"a", "b", "c"};
    assert (m4 - {"b"})["d" := 5].Keys == {"c", "d"};
    assert m2.Keys == {"a", "b"};
    assert (m2 - {"a"})["a" := 4].Keys == {"a", "b"};
  }

  // ------------------------------------------------------------ the match

  const START_MANA := 5
  const GAME_DURATION := 180

  /** Every tower back at its maximum HP, at the same positions. */
  function FullTowers(towers: map<string, Tower>): (r: map<string, Tower>)
    ensures r.Keys == towers.Keys
    ensures forall k :: k in r ==> r[k] == towers[k].(hp := towers[k].maxHp)
  {
    map k | k in towers :: towers[k].(hp := towers[k].maxHp)
  }

  /** Every tower of the player back at its maximum HP. */
  function FullHp(p: PlayerData): (r: PlayerData)
    ensures r.towers.Keys == p.towers.Keys
    ensures forall k :: k in r.towers ==> r.towers[k] == p.towers[k].(hp := p.towers[k].maxHp)
    ensures r == p.(towers := r.towers)
  {
    p.(towers := FullTowers(p.towers))
  }

  /** The match `startNewGame` sets up: 5 mana each, 180 seconds, live, player 1 to move, towers restored. */
  function NewMatch(p1: PlayerData, p2: PlayerData): Match {
    Match(FullHp(p1), FullHp(p2), START_MANA, START_MANA, GAME_DURATION, true, 1)
  }

  /** Restoring twice restores nothing more. */
  lemma FullHpIdempotent(p: PlayerData)
    ensures FullHp(FullHp(p)) == FullHp(p)
  {
  }

  /**
   * A new match between valid players is valid and live, and every tower
   * of positive maximum HP stands.
   */
  lemma NewMatchValid(p1: PlayerData, p2: PlayerData)
    requires ValidPlayer(p1) && ValidPlayer(p2)
    ensures ValidMatch(NewMatch(p1, p2)) && NewMatch(p1, p2).isGameActive
    ensures forall k :: k in p1.towers && p1.towers[k].maxHp > 0.0 ==> k in LivingTowers(NewMatch(p1, p2).player1.towers)
    ensures forall k :: k in p2.towers && p2.towers[k].maxHp > 0.0 ==> k in LivingTowers(NewMatch(p1, p2).player2.towers)
  {
    var m := NewMatch(p1, p2);
    forall k | k in m.player1.towers ensures ValidTower(k, m.player1.towers[k]) {
      assert ValidTower(k, p1.towers[k]);
    }
    forall k | k in m.player2.towers ensures ValidTower(k, m.player2.towers[k]) {
      assert ValidTower(k, p2.towers[k]);
    }
  }

  /** The tower loop of `resetTowersHP` over one player's towers. */
  method RestoreTowers(towers: map<string, Tower>) returns (restored: map<string, Tower>)
    ensures restored == FullTowers(towers)
  {
    restored := towers;
    var rest := towers.Keys;
    while rest != {}
      invariant rest <= towers.Keys && restored.Keys == towers.Keys
      invariant forall k :: k in towers ==> restored[k] == if k in rest then towers[k] else towers[k].(hp := towers[k].maxHp)
      decreases |rest|
    {
      var k :| k in rest;
      restored := restored[k := restored[k].(hp := restored[k].maxHp)];
      rest := rest - {k};
    }
  }

  /** The key loop of `startNewGame`: every key once, in the map's iteration order. */
  method ListNames(keys: set<string>) returns (names: seq<string>)
    ensures Elems(names) == keys && |names| == |keys| && Distinct(names)
  {
    names := [];
    var rest := keys;
    while rest != {}
      invariant NameScan(keys, rest, names)
      decreases |rest|
    {
      var u :| u in rest;
      NameScanStep(keys, rest, names, u);
      names := names + [u];
      rest := rest - {u};
    }
    assert keys - rest == keys;
  }

  /** The key loop with `rest` still unvisited: each visited key listed once. */
  ghost predicate NameScan(keys: set<string>, rest: set<string>, names: seq<string>) {
    && rest <= keys
    && Elems(names) == keys - rest
    && |names| + |rest| == |keys|
    && Distinct(names)
  }

  lemma NameScanStep(keys: set<string>, rest: set<string>, names: seq<string>, u: string)
    requires NameScan(keys, rest, names) && u in rest
    ensures NameScan(keys, rest - {u}, names + [u])
  {
    ElemsSnoc(names, u);
    assert u !in Elems(names);
    DistinctSnoc(names, u);
    assert (keys - rest) + {u} == keys - (rest - {u});
  }

  /** The server's shared state: the connected clients and the current match. */
  class Server {
    var clients: map<string, ConnId>
    var gameState: GameState?

    constructor ()
      ensures clients == map[] && gameState == null
    {
      clients := map[];
      gameState := null;
    }

    /** The numbering step of `handleClient` for a client that logged in. */
    method HandleJoin(username: string, conn: ConnId) returns (r: JoinResult)
      modifies this
      ensures (r, clients) == PlaceClient(old(clients), username, conn)
      ensures gameState == old(gameState)
    {
      var before := clients;
      clients := clients[username := conn];
      var clientCount := |clients|;
      if clientCount == 1 {
        return Waiting;
      } else if clientCount == 2 {
        return Starting;
      }
      clients := before;
      return Full;
    }

    /** `resetTowersHP`: every tower of both players back at full HP. */
    method ResetTowersHP()
      modifies gameState
      ensures gameState != null ==>
                gameState.Snapshot() == old(gameState.Snapshot()).(player1 := FullHp(old(gameState.player1)),
                                                                  player2 := FullHp(old(gameState.player2)))
    {
      if gameState == null {
        return;
      }
      var towers1 := RestoreTowers(gameState.player1.towers);
      var towers2 := RestoreTowers(gameState.player2.towers);
      gameState.player1 := gameState.player1.(towers := towers1);
      gameState.player2 := gameState.player2.(towers := towers2);
    }

    /**
     * `startNewGame`: the two connected names in map order; their stored
     * records (`loaded`, read by the player store) become a new match.
     * With other than two clients nothing happens.
     */
    method StartNewGame(loaded: map<string, PlayerData>) returns (usernames: seq<string>)
      requires clients.Keys <= loaded.Keys
      modifies this
      ensures clients == old(clients)
      ensures |usernames| == |clients| && Elems(usernames) == clients.Keys
      ensures |usernames| != 2 ==> gameState == old(gameState)
      ensures |usernames| == 2 ==>
                && usernames[0] != usernames[1]
                && gameState != null && fresh(gameState)
                && gameState.Snapshot() == NewMatch(loaded[usernames[0]], loaded[usernames[1]])
    {
      usernames := ListNames(clients.Keys);
      if |usernames| != 2 {
        return;
      }
      gameState := new GameState(Match(loaded[usernames[0]], loaded[usernames[1]], START_MANA, START_MANA,
                                       GAME_DURATION, true, 1));
      ResetTowersHP();
    }

    /** `removeClient`: the client leaves, and a live match ends with no EXP for anyone. */
    method RemoveClient(username: string)
      modifies this, gameState
      ensures clients == old(clients) - {username}
      ensures gameState == old(gameState)
      ensures gameState != null ==>
                gameState.Snapshot() == old(gameState.Snapshot()).(isGameActive := false)
    {
      clients := clients - {username};
      if gameState != null && gameState.isGameActive {
        gameState.isGameActive := false;
      }
    }
  }
}

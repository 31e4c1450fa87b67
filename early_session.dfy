/**
 * The connection side of the earlier server (Project_claude/server/server.go).
 * It reads commands like the current one, with two differences: there is
 * no turn gate on attacks, and "quit" is a command of `processCommand`
 * rather than a test in the read loop, so typing it does not end the
 * session. A new match loads both records through the player store.
 *
 * The client map, the match and the numbering are those of `Session.Server`:
 * the two files agree there line for line.
 */
module EarlySession {
  import opened Wrappers
  import opened Text
  import opened Models
  import Session
  import DataManager
  import GameLogic
  import EarlyGameLogic

  // ------------------------------------------------------------ commands

  /** What the earlier server does with one command line. */
  datatype Command =
    | Help
    | Status
    | Attack(troopIndex: int, target: string)
    | BadTroopIndex
    | Usage
    | Quit
    | Unknown

  /**
   * `processCommand`: the line is lower-cased and split at single spaces;
   * the first word picks the command. An attack needs exactly three words
   * and a troop number from 1 to 3, which becomes an index from 0 to 2.
   */
  function ProcessCommand(input: string): (c: Command)
    ensures c.Attack? ==> 0 <= c.troopIndex < 3 && ' ' !in c.target && ToLower(c.target) == c.target
    ensures c == Quit <==> Split(ToLower(input))[0] == "quit"
  {
    var parts := Split(ToLower(input));
    if parts[0] == "help" then Help
    else if parts[0] == "status" then Status
    else if parts[0] == "attack" then
      if |parts| == 3 then
        var index := Atoi(parts[1]);
        if index.Some? && 1 <= index.value <= 3 then
          ToLowerIdempotent(parts[2]);
          Attack(index.value - 1, ToLower(parts[2]))
        else BadTroopIndex
      else Usage
    else if parts[0] == "quit" then Quit
    else Unknown
  }

  /** The command the current server gives the same line, for a player who holds the turn. */
  function AsCurrent(c: Command): Session.Command {
    match c
    case Help => Session.Help
    case Status => Session.Status
    case Attack(i, t) => Session.Attack(i, t)
    case BadTroopIndex => Session.BadTroopIndex
    case Usage => Session.Usage
    case Quit => Session.Unknown
    case Unknown => Session.Unknown
  }

  /**
   * Apart from "quit", which the current server handles in its read loop
   * before `processCommand` sees it, the earlier parser reads every line as
   * the current one does for the player holding the turn.
   */
  lemma ProcessCommandMatchesCurrent(input: string)
    ensures AsCurrent(ProcessCommand(input)) == Session.ProcessCommand(input, true)
  {
  }

  /** Command words are case-insensitive here too. */
  lemma ProcessCommandIgnoresCase(input: string)
    ensures ProcessCommand(ToLower(input)) == ProcessCommand(input)
  {
    ToLowerIdempotent(input);
  }

  /** Without a turn gate, every attack line the client builds is run, whoever sends it. */
  lemma AttackLineAccepted(index: int, target: string)
    requires 0 <= index < 3
    requires ' ' !in target && ToLower(target) == target
    ensures ProcessCommand(Session.AttackLine(index, target)) == Attack(index, target)
  {
    Session.AttackLineRoundTrip(index, target);
    ProcessCommandMatchesCurrent(Session.AttackLine(index, target));
  }

  /**
   * Running one parsed command: an attack goes to `processAttack` of the
   * earlier engine; every other command, "quit" included, only writes text
   * and changes neither the match nor the player store.
   */
  method ExecuteCommand(g: GameState?, store: DataManager.PlayerStore, playerNum: int, input: string, roll: real)
    returns (c: Command, o: Option<GameLogic.Outcome>)
    modifies g, store
    ensures c == ProcessCommand(input)
    ensures c.Attack? <==> o.Some?
    ensures !c.Attack? ==>
              && (g != null ==> g.Snapshot() == old(g.Snapshot()))
              && store.cache == old(store.cache) && store.storage == old(store.storage)
    ensures c.Attack? && g != null ==>
              EarlyGameLogic.AttackStep(old(g.Snapshot()), playerNum, c.troopIndex, c.target, roll, o.value, g.Snapshot())
    ensures c.Attack? && g != null && EarlyGameLogic.KilledKing(old(g.Snapshot()), playerNum, o.value) ==>
              && store.storage == EarlyGameLogic.SavedResults(old(store.storage), g.Snapshot(), playerNum)
              && store.cache == EarlyGameLogic.SavedResults(old(store.cache), g.Snapshot(), playerNum)
    ensures c.Attack? && (g == null || !EarlyGameLogic.KilledKing(old(g.Snapshot()), playerNum, o.value)) ==>
              store.storage == old(store.storage) && store.cache == old(store.cache)
  {
    c := ProcessCommand(input);
    if c.Attack? {
      var outcome := EarlyGameLogic.ProcessAttack(g, store, playerNum, c.troopIndex, c.target, roll);
      o := Some(outcome);
    } else {
      o := None;
    }
  }

  // ------------------------------------------------------------ the command loop

  /**
   * The commands a session of the earlier server runs for the lines it
   * reads: each line is trimmed and a blank line is skipped; every other
   * line, "quit" included, is passed to `processCommand`.
   */
  function SessionCommands(lines: seq<string>): (cs: seq<Command>)
    ensures |cs| <= |lines|
  {
    if lines == [] then []
    else
      var input := TrimSpace(lines[0]);
      if input == [] then SessionCommands(lines[1..])
      else [ProcessCommand(input)] + SessionCommands(lines[1..])
  }

  /** The command loop of `handleClient`: it runs until the connection closes. */
  method CommandLoop(lines: seq<string>) returns (commands: seq<Command>)
    ensures commands == SessionCommands(lines)
  {
    commands := [];
    var k := 0;
    while k < |lines|
      invariant 0 <= k <= |lines|
      invariant commands + SessionCommands(lines[k..]) == SessionCommands(lines)
    {
      var input := TrimSpace(lines[k]);
      LoopStep(lines, k);
      if input == [] {
        k := k + 1;
        continue;
      }
      var command := ProcessCommand(input);
      Session.AppendOne(commands, command, SessionCommands(lines[k + 1..]));
      commands := commands + [command];
      k := k + 1;
    }
    assert lines[k..] == [];
  }

  lemma LoopStep(lines: seq<string>, k: int)
    requires 0 <= k < |lines|
    ensures SessionCommands(lines[k..])
            == (if TrimSpace(lines[k]) == [] then [] else [ProcessCommand(TrimSpace(lines[k]))])
               + SessionCommands(lines[k + 1..])
  {
    assert lines[k..][1..] == lines[k + 1..];
    assert lines[k..][0] == lines[k];
  }

  /**
   * A line that is not blank is run as a command and so are the lines
   * after it: a session's commands are those of its first line followed by
   * those of the rest.
   */
  lemma {:induction false} SessionCommandsAppend(lines: seq<string>, more: seq<string>)
    ensures SessionCommands(lines + more) == SessionCommands(lines) + SessionCommands(more)
  {
    if lines == [] {
      assert lines + more == more;
    } else {
      assert (lines + more)[1..] == lines[1..] + more;
      assert (lines + more)[0] == lines[0];
      SessionCommandsAppend(lines[1..], more);
    }
  }

  /**
   * "quit" does not end a session of the earlier server: it is run as a
   * command that does nothing, and the lines typed after it are still run.
   */
  lemma QuitKeepsSessionOpen(q: string, more: seq<string>)
    requires Session.IsQuit(q)
    ensures SessionCommands([q] + more) == [Quit] + SessionCommands(more)
  {
    QuitLine(q);
    assert ([q] + more)[0] == q && ([q] + more)[1..] == more;
  }

  /** The current server stops at the same line and runs nothing after it. */
  lemma CurrentStopsAtQuit(q: string, more: seq<string>, turns: seq<bool>)
    requires Session.IsQuit(q) && |turns| == |more| + 1
    ensures Session.SessionCommands([q] + more, turns) == []
  {
    QuitLine(q);
    assert ([q] + more)[0] == q;
  }

  /** A quit line is not blank and the earlier parser reads it as `Quit`. */
  lemma QuitLine(q: string)
    requires Session.IsQuit(q)
    ensures TrimSpace(q) != [] && ProcessCommand(TrimSpace(q)) == Quit
  {
    assert |ToLower(TrimSpace(q))| == 4;
    PlainWord("quit");
  }

  /** A word of lower-case letters is its own trimmed, lower-cased, one-word form. */
  lemma PlainWord(w: string)
    requires w != [] && forall i :: 0 <= i < |w| ==> 'a' <= w[i] <= 'z'
    ensures TrimSpace(w) == w && ToLower(w) == w && Split(w) == [w]
  {
    LetterNotSpace(w[0]);
    LetterNotSpace(w[|w| - 1]);
    TrimLeftOfUnpadded(w);
    TrimRightOfUnpadded(w);
    assert ' ' !in w by {
      forall i | 0 <= i < |w| ensures w[i] != ' ' {
      }
    }
    SplitWithoutSpace(w);
    LowerWord(w);
  }

  lemma LowerWord(w: string)
    requires forall i :: 0 <= i < |w| ==> 'a' <= w[i] <= 'z'
    ensures ToLower(w) == w
  {
    forall i | 0 <= i < |w|
      ensures ToLower(w)[i] == w[i]
    {
      assert LowerChar(w[i]) == w[i];
    }
  }

  // ------------------------------------------------------------ starting a match

  /** How `startNewGame` of the earlier server ends. */
  datatype StartResult =
    | NotTwo      // other than two clients: nothing happens
    | Started     // a new match between the two loaded records
    | NilRecord   // a name the store cannot load: the Go code then dereferences nil

  /**
   * The two loads of `startNewGame`, in order, through the store's cache:
   * the records found and the cache afterwards.
   */
  function LoadBoth(cache: map<string, Option<PlayerData>>, storage: map<string, Option<PlayerData>>,
                    first: string, second: string)
    : (r: (Option<PlayerData>, Option<PlayerData>, map<string, Option<PlayerData>>))
  {
    var (p1, cache1) := DataManager.Load(cache, storage, first);
    var (p2, cache2) := DataManager.Load(cache1, storage, second);
    (p1, p2, cache2)
  }

  /**
   * When neither the store nor its cache holds a null record (the corrected
   * log-in keeps it so), two names that logged in both load.
   */
  lemma LoggedInPlayersLoad(cache: map<string, Option<PlayerData>>, storage: map<string, Option<PlayerData>>,
                            first: string, second: string)
    requires DataManager.NoNullRecords(cache) && DataManager.NoNullRecords(storage)
    requires first in storage && second in storage
    ensures LoadBoth(cache, storage, first, second).0.Some?
    ensures LoadBoth(cache, storage, first, second).1.Some?
    ensures DataManager.NoNullRecords(LoadBoth(cache, storage, first, second).2)
  {
    var (p1, cache1) := DataManager.Load(cache, storage, first);
    assert DataManager.NoNullRecords(cache1);
  }

  /**
   * `startNewGame` of the earlier server: the two connected names in map
   * order, each record loaded through the store, then a new match with
   * 5 mana each, 180 seconds, live, player 1 to move, all towers restored.
   */
  method StartNewGame(s: Session.Server, store: DataManager.PlayerStore)
    returns (result: StartResult, usernames: seq<string>)
    modifies s, store
    ensures s.clients == old(s.clients) && store.storage == old(store.storage)
    ensures Elems(usernames) == s.clients.Keys && |usernames| == |s.clients|
    ensures result == NotTwo <==> |usernames| != 2
    ensures result == NotTwo ==> s.gameState == old(s.gameState) && store.cache == old(store.cache)
    ensures |usernames| == 2 ==>
              var (p1, p2, cache') := LoadBoth(old(store.cache), store.storage, usernames[0], usernames[1]);
              && store.cache == cache'
              && (result == Started <==> p1.Some? && p2.Some?)
              && (result == Started ==>
                    && s.gameState != null && fresh(s.gameState)
                    && s.gameState.Snapshot() == Session.NewMatch(p1.value, p2.value))
  {
    usernames := Session.ListNames(s.clients.Keys);
    if |usernames| != 2 {
      return NotTwo, usernames;
    }
    var player1 := store.LoadPlayerData(usernames[0]);
    var player2 := store.LoadPlayerData(usernames[1]);
    if player1.None? || player2.None? {
      return NilRecord, usernames;
    }
    s.gameState := new GameState(Match(player1.value, player2.value, Session.START_MANA, Session.START_MANA,
                                       Session.GAME_DURATION, true, 1));
    s.ResetTowersHP();
    return Started, usernames;
  }

  /**
   * The numbering step of `handleClient` in the earlier server: as in the
   * current one, and the second client starts the match at once.
   */
  method HandleJoin(s: Session.Server, store: DataManager.PlayerStore, username: string, conn: Session.ConnId)
    returns (r: Session.JoinResult, start: Option<StartResult>, usernames: seq<string>)
    modifies s, store
    ensures (r, s.clients) == Session.PlaceClient(old(s.clients), username, conn)
    ensures r == Session.Starting <==> start.Some?
    ensures r != Session.Starting ==> s.gameState == old(s.gameState) && store.cache == old(store.cache)
    ensures store.storage == old(store.storage)
    ensures r == Session.Starting ==>
              && |usernames| == 2 && Elems(usernames) == s.clients.Keys
              && var (p1, p2, cache') := LoadBoth(old(store.cache), store.storage, usernames[0], usernames[1]);
                 && store.cache == cache'
                 && (start.value == Started <==> p1.Some? && p2.Some?)
                 && (start.value == Started ==>
                       && s.gameState != null && fresh(s.gameState)
                       && s.gameState.Snapshot() == Session.NewMatch(p1.value, p2.value))
  {
    r := s.HandleJoin(username, conn);
    if r == Session.Starting {
      var result;
      result, usernames := StartNewGame(s, store);
      start := Some(result);
    } else {
      start, usernames := None, [];
    }
  }
}

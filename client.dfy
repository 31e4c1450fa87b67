/**
 * The command checks of the text client (client/client.go): whether a line
 * starts with a known command word, the normal form a line is sent in, and
 * the syntax check of an attack. They are pure string functions; the
 * lemmas relate them to how the current server reads the same line.
 */
module Client {
  import opened Wrappers
  import opened Text
  import Session

  /** The command words the client knows. */
  const VALID_COMMANDS: set<string> := {"help", "status", "attack", "quit", "exit"}

  /** The target words an attack may name. */
  const VALID_TARGETS: set<string> := {"king", "guard1", "guard2", "guard"}

  /**
   * `validateCommand`: the first word of the trimmed line, split at single
   * spaces and lower-cased, is a known command word.
   */
  function ValidateCommand(command: string): (ok: bool)
    ensures ok ==> TrimSpace(command) != []
  {
    KnownWord(Split(TrimSpace(command)))
  }

  /** The check `validateCommand` makes on the words of the trimmed line. */
  predicate KnownWord(parts: seq<string>) {
    if |parts| == 0 then false
    else ToLower(parts[0]) in VALID_COMMANDS
  }

  /** `formatCommand`: the line lower-cased and trimmed. */
  function FormatCommand(input: string): (r: string)
    ensures ToLower(r) == r && TrimSpace(r) == r
    ensures r == ToLower(TrimSpace(input))
  {
    TrimSpaceLower(input);
    ToLowerIdempotent(TrimSpace(input));
    TrimSpaceIdempotent(input);
    TrimSpaceLower(TrimSpace(input));
    TrimSpace(ToLower(input))
  }

  /** Why `isAttackCommand` rejected an attack line. */
  datatype AttackError = InvalidTroopIndex | InvalidTarget

  /**
   * `isAttackCommand`: not an attack (and no error) unless the trimmed line
   * has exactly three words, the first "attack" in any case; then the
   * troop word must be exactly "1", "2" or "3", checked before the target,
   * and the lower-cased target one of king, guard1, guard2, guard.
   */
  function IsAttackCommand(command: string): (r: (bool, Option<AttackError>))
    ensures r.0 ==> r.1 == None
  {
    AttackWords(Split(TrimSpace(command)))
  }

  /** The checks `isAttackCommand` makes on the words of the trimmed line. */
  function AttackWords(parts: seq<string>): (bool, Option<AttackError>) {
    if |parts| != 3 || ToLower(parts[0]) != "attack" then (false, None)
    else if parts[1] != "1" && parts[1] != "2" && parts[1] != "3" then (false, Some(InvalidTroopIndex))
    else if ToLower(parts[2]) !in VALID_TARGETS then (false, Some(InvalidTarget))
    else (true, None)
  }

  /** Formatting twice formats nothing more. */
  lemma FormatCommandIdempotent(input: string)
    ensures FormatCommand(FormatCommand(input)) == FormatCommand(input)
  {
  }

  /** Formatting a line does not change how the server reads it. */
  lemma FormatCommandKeepsMeaning(input: string, holdsTurn: bool)
    ensures Session.ProcessCommand(FormatCommand(input), holdsTurn)
            == Session.ProcessCommand(TrimSpace(input), holdsTurn)
  {
    Session.ProcessCommandIgnoresCase(TrimSpace(input), holdsTurn);
  }

  /**
   * The outcomes of `isAttackCommand`: no error exactly for lines that are
   * not three-word attack lines and for accepted ones; an index error
   * exactly when the troop word is wrong, whatever the target; a target
   * error only once the troop word is right.
   */
  lemma AttackCheckOrder(command: string)
    ensures var parts := Split(TrimSpace(command));
            var shaped := |parts| == 3 && ToLower(parts[0]) == "attack";
            var r := IsAttackCommand(command);
            && (r == (false, None) <==> !shaped)
            && (r.1 == Some(InvalidTroopIndex) <==> shaped && parts[1] !in {"1", "2", "3"})
            && (r.1 == Some(InvalidTarget) ==> shaped && parts[1] in {"1", "2", "3"})
            && (r.0 <==> shaped && parts[1] in {"1", "2", "3"} && ToLower(parts[2]) in VALID_TARGETS)
  {
    AttackWordsOrder(Split(TrimSpace(command)));
  }

  lemma AttackWordsOrder(parts: seq<string>)
    ensures var shaped := |parts| == 3 && ToLower(parts[0]) == "attack";
            var r := AttackWords(parts);
            && (r == (false, None) <==> !shaped)
            && (r.1 == Some(InvalidTroopIndex) <==> shaped && parts[1] !in {"1", "2", "3"})
            && (r.1 == Some(InvalidTarget) ==> shaped && parts[1] in {"1", "2", "3"})
            && (r.0 <==> shaped && parts[1] in {"1", "2", "3"} && ToLower(parts[2]) in VALID_TARGETS)
  {
  }

  /** A troop word the client accepts is lower-case and reads as its number. */
  lemma TroopWord(w: string)
    requires w == "1" || w == "2" || w == "3"
    ensures ToLower(w) == w
    ensures Atoi(w) == Some(w[0] as int - '0' as int)
    ensures 1 <= w[0] as int - '0' as int <= 3
  {
    assert ToLower(w)[0] == LowerChar(w[0]);
    assert |w| == 1 && IsDigit(w[0]) && AllDigits(w);
    assert w[..|w| - 1] == [];
    assert DigitsValue(w) == DigitsValue([]) * 10 + DigitValue(w[0]);
  }

  /**
   * An attack line the client accepts is run by the current server (for the
   * player holding the turn) as that attack: troop number minus one, and
   * the lower-cased target.
   */
  lemma AcceptedAttackIsRun(command: string)
    requires IsAttackCommand(command).0
    ensures var parts := Split(TrimSpace(command));
            && |parts| == 3 && |parts[1]| == 1
            && Session.ProcessCommand(TrimSpace(command), true)
               == Session.Attack(parts[1][0] as int - '1' as int, ToLower(parts[2]))
  {
    AcceptedWordsRun(TrimSpace(command));
  }

  lemma AcceptedWordsRun(t: string)
    requires AttackWords(Split(t)).0
    ensures var parts := Split(t);
            && |parts| == 3 && |parts[1]| == 1
            && Session.ProcessCommand(t, true) == Session.Attack(parts[1][0] as int - '1' as int, ToLower(parts[2]))
  {
    var parts := Split(t);
    var lowered := Split(ToLower(t));
    LoweredAttackWords(t);
    TroopCommand(lowered);
    ToLowerIdempotent(parts[2]);
  }

  /** The words of an accepted attack line after the server lower-cases it. */
  lemma LoweredAttackWords(t: string)
    requires AttackWords(Split(t)).0
    ensures var parts := Split(t);
            var lowered := Split(ToLower(t));
            && |parts| == 3 && |lowered| == 3 && lowered[0] == "attack"
            && lowered[1] == parts[1] && (parts[1] == "1" || parts[1] == "2" || parts[1] == "3")
            && lowered[2] == ToLower(parts[2])
  {
    var parts := Split(t);
    SplitLowerAt(t, 0);
    SplitLowerAt(t, 1);
    SplitLowerAt(t, 2);
    TroopWord(parts[1]);
  }

  /** A three-word attack line with a troop word the client accepts is that attack. */
  lemma TroopCommand(lowered: seq<string>)
    requires |lowered| == 3 && lowered[0] == "attack"
    requires lowered[1] == "1" || lowered[1] == "2" || lowered[1] == "3"
    ensures |lowered[1]| == 1
    ensures Session.WordsCommand(lowered, true) == Session.Attack(lowered[1][0] as int - '1' as int, ToLower(lowered[2]))
  {
    TroopWord(lowered[1]);
  }

  /**
   * For every command word other than quit and exit, which the client
   * handles itself, the client accepts exactly the lines the server
   * recognises.
   */
  lemma ValidatedWordsReachServer(command: string, holdsTurn: bool)
    ensures var t := TrimSpace(command);
            var word := ToLower(Split(t)[0]);
            word != "quit" && word != "exit" ==>
              (ValidateCommand(command) <==> Session.ProcessCommand(t, holdsTurn) != Session.Unknown)
  {
    KnownWordsReachServer(TrimSpace(command), holdsTurn);
  }

  lemma KnownWordsReachServer(t: string, holdsTurn: bool)
    ensures var word := ToLower(Split(t)[0]);
            word != "quit" && word != "exit" ==>
              (KnownWord(Split(t)) <==> Session.ProcessCommand(t, holdsTurn) != Session.Unknown)
  {
    SplitLowerAt(t, 0);
    FirstWordKnown(Split(ToLower(t)), holdsTurn);
  }

  /** On the lower-cased words, the server's choice and the client's word list agree. */
  lemma FirstWordKnown(lowered: seq<string>, holdsTurn: bool)
    requires |lowered| >= 1
    ensures lowered[0] != "quit" && lowered[0] != "exit" ==>
              (lowered[0] in VALID_COMMANDS <==> Session.WordsCommand(lowered, holdsTurn) != Session.Unknown)
  {
  }
}

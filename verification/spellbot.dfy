/**
 * The older single-file bot: it finds the latest game by scanning the
 * channel's recent messages, resets the player role on any game at least as
 * new as that, dispatches on the game's name alone, and carries its own
 * copy of the Connections parser and scorer.
 */
module Legacy {
  import opened Common
  import opened Text
  import opened Games
  import opened Patterns
  import opened ConnectionsScoring
  import opened ScoreParser
  import opened Roles
  import Bot

  // --------------------------------------------------- history scans

  /**
   * The largest number any message of the history carries, or 0 when none
   * carries one: the value of the two `..._from_messages` scans.
   */
  function ChannelMax(history: seq<string>, numberIn: string -> Option<nat>): (n: nat)
    ensures forall k :: 0 <= k < |history| && numberIn(history[k]).Some? ==> numberIn(history[k]).value <= n
    ensures n == 0 || exists k :: 0 <= k < |history| && numberIn(history[k]) == Some(n)
    decreases |history|
  {
    if |history| == 0 then 0
    else
      var rest := history[..|history| - 1];
      var m := ChannelMax(rest, numberIn);
      assert forall k :: 0 <= k < |rest| ==> rest[k] == history[k];
      match numberIn(history[|history| - 1])
      case None => m
      case Some(x) => if x > m then x else m
  }

  /** The scan loop: newest to oldest, keeping the maximum seen so far. */
  method HistoryMax(history: seq<string>, numberIn: string -> Option<nat>) returns (latest: nat)
    ensures latest == ChannelMax(history, numberIn)
  {
    latest := 0;
    var i := 0;
    while i < |history|
      invariant 0 <= i <= |history|
      invariant latest == ChannelMax(history[..i], numberIn)
    {
      assert history[..i + 1][..i] == history[..i];
      var found := numberIn(history[i]);
      if found.Some? && found.value > latest {
        latest := found.value;
      }
      i := i + 1;
    }
    assert history[..|history|] == history;
  }

  /** A submission already in the history is at most the channel maximum, so `>=` holds only on equality. */
  lemma OwnMessageInHistory(history: seq<string>, numberIn: string -> Option<nat>, k: nat, n: nat)
    requires k < |history| && numberIn(history[k]) == Some(n)
    ensures n <= ChannelMax(history, numberIn)
    ensures n >= ChannelMax(history, numberIn) <==> n == ChannelMax(history, numberIn)
  {
  }

  /** The legacy Wordle pattern: as the current one, but only a digit before `/6`. */
  function WordleNumberIn(t: string): (r: Option<nat>)
    ensures r.Some? <==> SearchWordle(t, IsDigit).Some?
    ensures r.Some? ==> IsNumberToken(SearchWordle(t, IsDigit).value.1.number)
    ensures r.Some? ==> r.value == GameNumberOf(SearchWordle(t, IsDigit).value.1.number)
  {
    match SearchWordle(t, IsDigit)
    case None => None
    case Some((_, tok)) => Some(GameNumberOf(tok.number))
  }

  /** A message counts for the Connections scan when it holds both words and `Puzzle #` with digits. */
  function PuzzleNumberIn(t: string): (r: Option<nat>)
    ensures r.Some? <==> Occurs(t, "Connections") && SearchPuzzleNumber(t).Some?
    ensures r.Some? ==> r.value == NumberOf(SearchPuzzleNumber(t).value.1)
  {
    if Occurs(t, "Connections") && Occurs(t, "Puzzle #") then
      match SearchPuzzleNumber(t)
      case None => None
      case Some((_, ds)) => Some(NumberOf(ds))
    else
      if SearchPuzzleNumber(t).Some? then PuzzleNumberAnchored(t); None else None
  }

  // ------------------------------------------- legacy Connections parser

  /** The puzzle token: its digits, or the placeholder `"Unknown"` when `Puzzle #` has none. */
  datatype PuzzleToken = Digits(n: nat) | Unknown

  /** The legacy `parse_connections_result`: the same header gate and guess rule, with a placeholder puzzle. */
  function LegacyParseConnections(t: string): (r: Parse<(PuzzleToken, seq<char>)>)
    ensures var lines := SplitLines(t);
      && (r.Crash? <==> Strip(lines[0]) == "Connections" && |lines| == 1)
      && (r.Parsed? <==> Strip(lines[0]) == "Connections" && |lines| >= 2 && Occurs(lines[1], "Puzzle #"))
      && (r.Parsed? ==> r.value.1 == ExtractGuesses(lines[2..]))
      && (r.Parsed? ==> (r.value.0 == Unknown <==> SearchPuzzleNumber(lines[1]).None?))
  {
    var lines := SplitLines(t);
    if Strip(lines[0]) != "Connections" then NoResult
    else if |lines| < 2 then Crash(IndexError)
    else if !Occurs(lines[1], "Puzzle #") then NoResult
    else
      var tok := match SearchPuzzleNumber(lines[1])
        case None => Unknown
        case Some((_, ds)) => Digits(NumberOf(ds));
      Parsed((tok, ExtractGuesses(lines[2..])))
  }

  /** `process_connections_result` up to scoring: `int("Unknown")` fails, so a placeholder is rejected. */
  function ProcessConnections(t: string): (r: Parse<(nat, seq<char>)>)
    ensures r.Parsed? ==>
      (LegacyParseConnections(t).Parsed? && LegacyParseConnections(t).value == (Digits(r.value.0), r.value.1))
    ensures LegacyParseConnections(t).Parsed? && LegacyParseConnections(t).value.0 == Unknown ==> r.NoResult?
  {
    match LegacyParseConnections(t)
    case Parsed((Digits(n), g)) => Parsed((n, g))
    case Parsed((Unknown, _)) => NoResult
    case NoResult => NoResult
    case Crash(f) => Crash(f)
  }

  /** The legacy and the current parser accept, reject and fail on the same messages, with the same puzzle and guesses. */
  lemma LegacyParserAgrees(t: string)
    ensures ProcessConnections(t).Parsed? <==> ParseConnections(t).Parsed?
    ensures ProcessConnections(t).Crash? <==> ParseConnections(t).Crash?
    ensures ParseConnections(t).Parsed? ==>
      ProcessConnections(t).value == (ParseConnections(t).value.puzzleNumber, ParseConnections(t).value.guesses)
  {
    var lines := SplitLines(t);
    if |lines| >= 2 && SearchPuzzleNumber(lines[1]).Some? {
      PuzzleNumberAnchored(lines[1]);
    }
  }

  // -------------------------------------------- legacy Connections scorer

  /** The legacy score tuple. */
  datatype LegacyScore = LegacyScore(totalScore: int, numGuesses: nat, purpleFirst: bool, blueFirst: bool, finished: bool)

  /**
   * The legacy `calculate_connections_score`: the same two passes as the
   * current scorer, but `finished_game` starts true and is cleared only
   * when fewer than four groups were solved.
   */
  method LegacyCalculateConnectionsScore(guesses: seq<char>) returns (s: LegacyScore)
    ensures var cur := ScoreOf(guesses);
      && s.totalScore == cur.totalScore && s.numGuesses == cur.numGuesses
      && s.purpleFirst == cur.purpleFirst && s.blueFirst == cur.blueFirst
    ensures s.finished <==> CountCorrect(guesses) >= 4
  {
    var finished := true;
    var first, correct, mistakes := TallyGuesses(guesses);
    var total := OrderBonus(first);
    var points := SumBasePoints(guesses);
    total := total + points;
    if correct == 4 && mistakes == 0 {
      total := total + 5;
    } else {
      total := total - mistakes;
    }
    if correct < 4 {
      finished := false;
    }
    s := LegacyScore(total, |guesses|, first == Some(Purple), first == Some(Blue), finished);
  }

  /** The two `finished_game` flags agree exactly when at most four groups were solved. */
  lemma FinishedFlagsAgree(g: seq<char>)
    ensures (CountCorrect(g) >= 4 <==> ScoreOf(g).finished) <==> CountCorrect(g) <= 4
  {
  }

  /** Five solved purple lines: the legacy scorer calls the game finished, the current one does not. */
  lemma FinishedFlagsDiffer()
    ensures var g := [Purple, Purple, Purple, Purple, Purple];
      CountCorrect(g) >= 4 && !ScoreOf(g).finished
  {
    var g := [Purple, Purple, Purple, Purple, Purple];
    assert forall i :: 0 <= i < |g| ==> IsCategory(g[i]);
    AllCategories(g);
  }

  // ------------------------------------------------ legacy role reset

  /**
   * The legacy role rule: any game at least as new as the channel maximum
   * revokes every holder and grants the submitter, equality included; an
   * older game changes nothing.
   */
  function LegacyRoleReset(role: Role, m: UserId, current: int, channelMax: int): (r: Role)
    ensures current >= channelMax && role.Some? ==> r == Some({m})
    ensures current < channelMax ==> r == role
    ensures role.None? ==> r == None
  {
    if current >= channelMax then
      var cleared: Role := if role.Some? then Some({}) else None;
      assert {} + {m} == {m};
      AssignRole(cleared, m).0
    else role
  }

  /** On a repeat of the latest game the legacy rule evicts the earlier holders; the current rule keeps them. */
  lemma EqualityResetsOnlyInLegacy(holders: set<UserId>, m: UserId, n: int)
    ensures LegacyRoleReset(Some(holders), m, n, n) == Some({m})
    ensures RoleAssignment(Some(holders), m, n, n).0 == Some(holders + {m})
  {
  }

  // ------------------------------------------------ legacy dispatch

  /** The legacy configuration, in order. */
  const LegacyRegistry: seq<Game> := [Wordle, Connections]

  /** The first legacy game whose lower-cased name occurs in the lower-cased message. */
  function LegacyDispatch(t: string): (r: Option<Game>)
    ensures r == Some(Wordle) <==> Occurs(LowerStr(t), "wordle")
    ensures r == Some(Connections) <==> !Occurs(LowerStr(t), "wordle") && Occurs(LowerStr(t), "connections")
    ensures r.None? <==> !Occurs(LowerStr(t), "wordle") && !Occurs(LowerStr(t), "connections")
  {
    LowerNames();
    var lt := LowerStr(t);
    if Occurs(lt, LowerStr(Name(LegacyRegistry[0]))) then Some(LegacyRegistry[0])
    else if Occurs(lt, LowerStr(Name(LegacyRegistry[1]))) then Some(LegacyRegistry[1])
    else None
  }

  lemma LowerNames()
    ensures LowerStr(Name(Wordle)) == "wordle"
    ensures LowerStr(Name(Connections)) == "connections"
  {
    assert LowerStr("Wordle") == "wordle";
    assert LowerStr("Connections") == "connections";
  }

  /**
   * Every message the current bot hands to Wordle, the legacy bot hands to
   * Wordle too; one the current bot hands to Connections, the legacy bot
   * hands to some game.
   */
  lemma LegacyDispatchCovers(t: string)
    ensures Bot.Dispatch(t) == Some(Wordle) ==> LegacyDispatch(t) == Some(Wordle)
    ensures Bot.Dispatch(t) == Some(Connections) ==> LegacyDispatch(t).Some?
  {
    AnchorsAreImplied(t);
  }
}

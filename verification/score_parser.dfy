/**
 * The per-game result parsers and recognisers: each turns a chat message into
 * a result record (or Python's `None`, or the exception the code raises), and
 * each `Is...Message` is the anchor-plus-pattern test the bot dispatches on.
 */
module ScoreParser {
  import opened Common
  import opened Text
  import opened Patterns
  import opened ConnectionsScoring

  // ---------------------------------------------------------------- Wordle

  const White: char := '⬜'

  /** The three squares of a Wordle grid. */
  predicate IsGridSymbol(c: char) {
    c == Green || c == Yellow || c == White
  }

  /** A non-empty line made only of grid squares. */
  function IsGridLine(l: string): bool {
    |l| > 0 && forall k :: 0 <= k < |l| ==> IsGridSymbol(l[k])
  }

  /** The grid lines of a message, in message order. */
  function GridLines(t: string): (g: seq<string>)
    ensures forall l :: l in g ==> l in SplitLines(t) && IsGridLine(l)
    ensures forall l :: l in SplitLines(t) && IsGridLine(l) ==> l in g
  {
    Keep(SplitLines(t), IsGridLine)
  }

  /** The grid as the parser stores it: the grid lines joined by newlines. */
  function GridOf(t: string): (grid: string)
    ensures GridLines(t) == [] ==> grid == ""
    ensures GridLines(t) != [] ==> SplitLines(grid) == GridLines(t)
  {
    GridLinesRejoin(t);
    JoinLines(GridLines(t))
  }

  /** Grid lines hold no newline, so joining and splitting them again gives them back. */
  lemma GridLinesRejoin(t: string)
    ensures GridLines(t) != [] ==> SplitLines(JoinLines(GridLines(t))) == GridLines(t)
  {
    var lines := GridLines(t);
    if lines != [] {
      forall k | 0 <= k < |lines| ensures '\n' !in lines[k] {
        assert lines[k] in SplitLines(t);
      }
      SplitJoin(lines);
    }
  }

  /** The digits of a number token once its comma is dropped. */
  lemma {:induction false} RemoveCommasDigits(tok: string)
    requires IsNumberToken(tok)
    ensures AllDigits(RemoveCommas(tok))
    ensures AllDigits(tok) ==> RemoveCommas(tok) == tok
  {
    var r := RemoveCommas(tok);
    forall k | 0 <= k < |r| ensures IsDigit(r[k]) {
      assert r[k] in r;
      assert r[k] in tok;
      var j :| 0 <= j < |tok| && tok[j] == r[k];
      if !AllDigits(tok) {
        var c :| 0 < c < |tok| - 1 && tok[c] == ',' && AllDigits(tok[..c]) && AllDigits(tok[c + 1..]);
        if j < c {
          assert tok[..c][j] == tok[j];
        } else if j > c {
          assert tok[c + 1..][j - c - 1] == tok[j];
        }
      }
    }
    if AllDigits(tok) {
      KeepEverything(tok);
    }
  }

  /** Filtering out commas leaves a comma-free string as it is. */
  lemma {:induction false} KeepEverything(s: string)
    requires AllDigits(s)
    ensures RemoveCommas(s) == s
    decreases |s|
  {
    if |s| > 0 {
      assert AllDigits(s[1..]) by {
        forall k | 0 <= k < |s[1..]| ensures IsDigit(s[1..][k]) {
          assert s[1..][k] == s[k + 1];
        }
      }
      KeepEverything(s[1..]);
      assert s == [s[0]] + s[1..];
    }
  }

  /** The game number of a number token: `int(token.replace(",", ""))`. */
  function GameNumberOf(tok: string): (n: nat)
    requires IsNumberToken(tok)
    ensures AllDigits(tok) ==> n == NumberOf(tok)
  {
    RemoveCommasDigits(tok);
    NumberOf(RemoveCommas(tok))
  }

  /** A thousands separator is dropped: `1,234` reads as `1234`. */
  lemma GameNumberWithComma(d1: string, d2: string)
    requires |d1| > 0 && |d2| > 0 && AllDigits(d1) && AllDigits(d2)
    ensures IsNumberToken(d1 + "," + d2)
    ensures GameNumberOf(d1 + "," + d2) == NumberOf(d1) * Pow10(|d2|) + NumberOf(d2)
  {
    var tok := d1 + "," + d2;
    assert tok[..|d1|] == d1 && tok[|d1| + 1..] == d2 && tok[|d1|] == ',';
    assert IsNumberToken(tok);
    CommaDropped(d1, d2);
    NumberOfAppend(d1, d2);
  }

  lemma CommaDropped(d1: string, d2: string)
    requires AllDigits(d1) && AllDigits(d2)
    ensures RemoveCommas(d1 + "," + d2) == d1 + d2
  {
    assert d1 + "," + d2 == d1 + ([','] + d2);
    KeepAppend(d1, [','] + d2, IsNotComma);
    KeepAppend([','], d2, IsNotComma);
    assert Keep([','], IsNotComma) == [];
    KeepEverything(d1);
    KeepEverything(d2);
  }

  /** What `parse_wordle_score` returns. */
  datatype WordleResult = WordleResult(
    gameNumber: nat,
    attempts: nat,
    solved: bool,
    hardMode: bool,
    skill: Option<nat>,
    luck: Option<nat>,
    grid: string)

  /**
   * The Wordle record built from the matched groups: `X` is the failure
   * sentinel 7, a digit is its value, and a lower-case `x` (accepted by the
   * case-insensitive pattern) makes `int('x')` raise.
   */
  function WordleOf(tok: WordleTokens, skillLuck: Option<(string, string)>, grid: string): (r: Parse<WordleResult>)
    requires IsNumberToken(tok.number) && IsWordleAttempt(tok.attempt)
    requires skillLuck.Some? ==> AllDigits(skillLuck.value.0) && AllDigits(skillLuck.value.1)
    ensures r.Crash? <==> tok.attempt == 'x'
    ensures r.Crash? ==> r.fault == ValueError
    ensures !r.NoResult?
    ensures r.Parsed? ==> r.value.gameNumber == GameNumberOf(tok.number)
    ensures r.Parsed? ==> r.value.attempts <= 7
    ensures r.Parsed? ==> (r.value.attempts == 7 <==> tok.attempt == 'X')
    ensures r.Parsed? && tok.attempt != 'X' ==> r.value.attempts == DigitValue(tok.attempt)
    ensures r.Parsed? ==> (r.value.solved <==> r.value.attempts <= 6)
    ensures r.Parsed? ==> (r.value.solved <==> tok.attempt != 'X')
    ensures r.Parsed? ==> r.value.hardMode == tok.hardMode
    ensures r.Parsed? ==> (r.value.skill.None? <==> skillLuck.None?) && (r.value.luck.None? <==> skillLuck.None?)
    ensures r.Parsed? && skillLuck.Some? ==>
      r.value.skill == Some(NumberOf(skillLuck.value.0)) && r.value.luck == Some(NumberOf(skillLuck.value.1))
    ensures r.Parsed? ==> r.value.grid == grid
  {
    if tok.attempt == 'x' then Crash(ValueError)
    else
      var attempts := if tok.attempt == 'X' then 7 else DigitValue(tok.attempt);
      var skill := if skillLuck.Some? then Some(NumberOf(skillLuck.value.0)) else None;
      var luck := if skillLuck.Some? then Some(NumberOf(skillLuck.value.1)) else None;
      Parsed(WordleResult(GameNumberOf(tok.number), attempts, attempts <= 6, tok.hardMode, skill, luck, grid))
  }

  /** The skill and luck digits, when the message carries a `Skill .../99 Luck .../99` line. */
  function MatchedSkillLuck(t: string): (r: Option<(string, string)>)
    ensures r.Some? <==> SearchSkillLuck(t).Some?
    ensures r.Some? ==> AllDigits(r.value.0) && AllDigits(r.value.1)
  {
    match SearchSkillLuck(t)
    case None => None
    case Some((_, v)) => Some(v)
  }

  /**
   * `parse_wordle_score`, stated on the message: `None` exactly when no
   * Wordle header is found; otherwise the attempts character right before
   * `/6` decides, and a `*` right after `/6` marks hard mode.
   */
  function ParseWordle(t: string): (r: Parse<WordleResult>)
    ensures r.NoResult? <==> forall p :: 0 <= p <= |t| ==> WordleAt(t, p, IsWordleAttempt).None?
    ensures !r.NoResult? ==>
      var tok := SearchWordle(t, IsWordleAttempt).value.1;
      && tok.pos + 3 <= |t| && t[tok.pos + 1] == '/' && t[tok.pos + 2] == '6'
      && (r.Crash? <==> t[tok.pos] == 'x')
      && (r.Parsed? ==>
        && r.value.gameNumber == GameNumberOf(tok.number)
        && (r.value.attempts == 7 <==> t[tok.pos] == 'X')
        && (t[tok.pos] != 'X' ==> r.value.attempts == DigitValue(t[tok.pos]) <= 6)
        && (r.value.solved <==> r.value.attempts <= 6)
        && (r.value.hardMode <==> tok.pos + 3 < |t| && t[tok.pos + 3] == '*')
        && (r.value.skill.Some? <==> SearchSkillLuck(t).Some?)
        && (r.value.luck.Some? <==> SearchSkillLuck(t).Some?)
        && r.value.grid == GridOf(t))
    ensures r.Parsed? && SearchSkillLuck(t).Some? ==>
      var (skill, luck) := SearchSkillLuck(t).value.1;
      r.value.skill == Some(NumberOf(skill)) && r.value.luck == Some(NumberOf(luck))
  {
    WordleFound(t);
    match SearchWordle(t, IsWordleAttempt)
    case None => NoResult
    case Some((_, tok)) => WordleOf(tok, MatchedSkillLuck(t), GridOf(t))
  }

  /** What the leftmost Wordle match says about the message. */
  lemma WordleFound(t: string)
    ensures SearchWordle(t, IsWordleAttempt).None? <==>
      forall p :: 0 <= p <= |t| ==> WordleAt(t, p, IsWordleAttempt).None?
    ensures SearchWordle(t, IsWordleAttempt).Some? ==>
      var tok := SearchWordle(t, IsWordleAttempt).value.1;
      && IsNumberToken(tok.number) && IsWordleAttempt(tok.attempt)
      && AttemptsShape(t, tok.pos, tok.attempt, tok.hardMode)
  {
    var m := SearchWordle(t, IsWordleAttempt);
    if m.Some? {
      assert WordleAt(t, m.value.0, IsWordleAttempt) == Some(m.value.1);
    }
  }

  // ----------------------------------------------------------- Connections

  /** What `parse_connections_result` returns: the puzzle, the guesses and their score. */
  datatype ConnectionsResult = ConnectionsResult(puzzleNumber: nat, guesses: seq<char>, score: ConnectionsScore)

  /** A `Puzzle #` with digits is in particular a `Puzzle #`. */
  lemma PuzzleNumberAnchored(l: string)
    requires SearchPuzzleNumber(l).Some?
    ensures Occurs(l, "Puzzle #")
  {
    var p := SearchPuzzleNumber(l).value.0;
    assert PuzzleNumberAt(l, p).Some?;
    assert HasAt(l, p, "Puzzle #");
  }

  /**
   * `parse_connections_result`: the first line, stripped, must be exactly
   * `Connections`; only then is the second line read (a one-line message
   * raises `IndexError`), and it must carry `Puzzle #` with digits. Every
   * non-blank line after it is one guess.
   */
  function ParseConnections(t: string): (r: Parse<ConnectionsResult>)
    ensures var lines := SplitLines(t);
      && (Strip(lines[0]) != "Connections" ==> r.NoResult?)
      && (r.Crash? <==> Strip(lines[0]) == "Connections" && |lines| == 1)
      && (r.Crash? ==> r.fault == IndexError)
      && (r.Parsed? <==> Strip(lines[0]) == "Connections" && |lines| >= 2 && SearchPuzzleNumber(lines[1]).Some?)
      && (r.Parsed? ==>
        && r.value.puzzleNumber == NumberOf(SearchPuzzleNumber(lines[1]).value.1)
        && r.value.guesses == ExtractGuesses(lines[2..])
        && |r.value.guesses| == |Keep(lines[2..], IsNonBlank)|
        && r.value.score == ScoreOf(r.value.guesses)
        && r.value.score.numGuesses == |Keep(lines[2..], IsNonBlank)|)
  {
    var lines := SplitLines(t);
    if Strip(lines[0]) != "Connections" then NoResult
    else if |lines| < 2 then Crash(IndexError)
    else if !Occurs(lines[1], "Puzzle #") then
      (if SearchPuzzleNumber(lines[1]).Some? then PuzzleNumberAnchored(lines[1]); NoResult else NoResult)
    else match SearchPuzzleNumber(lines[1])
      case None => NoResult
      case Some((_, ds)) =>
        var guesses := ExtractGuesses(lines[2..]);
        Parsed(ConnectionsResult(NumberOf(ds), guesses, ScoreOf(guesses)))
  }

  // ---------------------------------------------------------------- Framed

  const Red: char := '🟥'
  const Black: char := '⬛'

  /** The three squares `re.findall(r'[🟥🟩⬛]', ...)` collects. */
  function IsRevealSymbol(c: char): bool {
    c == Red || c == Green || c == Black
  }

  /** The reveal squares of a message, in message order. */
  function RevealSequence(t: string): (s: string)
    ensures |s| <= |t|
    ensures forall k :: 0 <= k < |s| ==> IsRevealSymbol(s[k])
    ensures forall c :: c in s <==> c in t && IsRevealSymbol(c)
  {
    var s := Keep(t, IsRevealSymbol);
    assert forall k :: 0 <= k < |s| ==> s[k] in s;
    s
  }

  /** The squares of two message parts are those of each part, in order. */
  lemma RevealSequenceAppend(a: string, b: string)
    ensures RevealSequence(a + b) == RevealSequence(a) + RevealSequence(b)
  {
    KeepAppend(a, b, IsRevealSymbol);
  }

  /** `list.index`: the first position of `c`, or `None` where Python raises `ValueError`. */
  function IndexOf(s: string, c: char): (r: Option<nat>)
    ensures r.Some? ==> r.value < |s| && s[r.value] == c
    ensures r.Some? ==> forall j :: 0 <= j < r.value ==> s[j] != c
    ensures r.None? <==> c !in s
    decreases |s|
  {
    if |s| == 0 then None
    else if s[0] == c then Some(0)
    else match IndexOf(s[1..], c)
      case None => None
      case Some(j) => Some(j + 1)
  }

  /** The Framed points table: 1 guess 100, then 80, 60, 40, 20, 10; anything else 0. */
  function FramedPoints(attempts: nat): (p: nat)
    ensures p in {0, 10, 20, 40, 60, 80, 100}
    ensures p > 0 <==> 1 <= attempts <= 6
    ensures 1 <= attempts <= 5 ==> p == 120 - 20 * attempts
    ensures attempts == 6 ==> p == 10
  {
    if attempts == 1 then 100
    else if attempts == 2 then 80
    else if attempts == 3 then 60
    else if attempts == 4 then 40
    else if attempts == 5 then 20
    else if attempts == 6 then 10
    else 0
  }

  /** Fewer guesses never score less. */
  lemma FramedPointsMonotone(a: nat, b: nat)
    requires 1 <= a <= b
    ensures FramedPoints(a) >= FramedPoints(b)
  {
  }

  /** What `parse_framed_score` returns. */
  datatype FramedResult = FramedResult(gameNumber: nat, attempts: nat, solved: bool, totalScore: nat)

  /**
   * `parse_framed_score`: solved exactly when a green square appears, and
   * then attempts is the 1-based position of the first one; otherwise
   * attempts is the number of squares and the score is 0.
   */
  function ParseFramed(t: string): (r: Parse<FramedResult>)
    ensures !r.Crash?
    ensures r.NoResult? <==> SearchFramed(t).None?
    ensures r.Parsed? ==>
      var s := RevealSequence(t);
      && r.value.gameNumber == NumberOf(SearchFramed(t).value.1)
      && (r.value.solved <==> Green in s)
      && (r.value.solved ==>
        && 1 <= r.value.attempts <= |s|
        && s[r.value.attempts - 1] == Green
        && forall j :: 0 <= j < r.value.attempts - 1 ==> s[j] != Green)
      && (r.value.solved ==> r.value.totalScore == FramedPoints(r.value.attempts))
      && (!r.value.solved ==> r.value.attempts == |s| && r.value.totalScore == 0)
      && r.value.totalScore in {0, 10, 20, 40, 60, 80, 100}
      && (r.value.totalScore > 0 <==> r.value.solved && r.value.attempts <= 6)
  {
    match SearchFramed(t)
    case None => NoResult
    case Some((_, ds)) =>
      var s := RevealSequence(t);
      match IndexOf(s, Green)
      case Some(i) => Parsed(FramedResult(NumberOf(ds), i + 1, true, FramedPoints(i + 1)))
      case None => Parsed(FramedResult(NumberOf(ds), |s|, false, 0))
  }

  // ---------------------------------------------------------------- Gisnep

  /** What `parse_gisnep_score` returns. */
  datatype GisnepResult = GisnepResult(gameNumber: nat, completionTime: nat)

  /** `M:SS` or `MM:SS` in seconds. */
  function ClockSeconds(mm: string, ss: string): (n: nat)
    requires 1 <= |mm| <= 2 && AllDigits(mm) && |ss| == 2 && AllDigits(ss)
    ensures n <= 99 * 60 + 99
    ensures NumberOf(mm) * 60 <= n < NumberOf(mm) * 60 + 100
  {
    NumberOfBound(mm);
    NumberOfBound(ss);
    60 * NumberOf(mm) + NumberOf(ss)
  }

  /** A well-formed clock reading is recovered from its seconds by `divmod(n, 60)`. */
  lemma ClockRoundTrip(mm: string, ss: string)
    requires 1 <= |mm| <= 2 && AllDigits(mm) && |ss| == 2 && AllDigits(ss)
    ensures NumberOf(ss) < 60 ==> ClockSeconds(mm, ss) / 60 == NumberOf(mm)
    ensures NumberOf(ss) < 60 ==> ClockSeconds(mm, ss) % 60 == NumberOf(ss)
  {
    var n := ClockSeconds(mm, ss);
    assert n == 60 * NumberOf(mm) + NumberOf(ss);
  }

  /**
   * `parse_gisnep_score`: `None` unless both the time and the `No.` number
   * are found; it never raises (the pattern always has a colon, so the
   * one-part branch of the source is unreachable).
   */
  function ParseGisnep(t: string): (r: Parse<GisnepResult>)
    ensures !r.Crash?
    ensures r.Parsed? <==> SearchGisnep(t).Some? && SearchGisnepNumber(t).Some?
    ensures r.Parsed? ==>
      var (mm, ss) := SearchGisnep(t).value.1;
      && r.value.gameNumber == NumberOf(SearchGisnepNumber(t).value.1)
      && r.value.completionTime == 60 * NumberOf(mm) + NumberOf(ss)
      && r.value.completionTime / 60 >= NumberOf(mm)
      && r.value.completionTime <= 99 * 60 + 99
      && (NumberOf(ss) < 60 ==>
           r.value.completionTime / 60 == NumberOf(mm) && r.value.completionTime % 60 == NumberOf(ss))
  {
    match (SearchGisnep(t), SearchGisnepNumber(t))
    case (Some((_, (mm, ss))), Some((_, ds))) =>
      ClockRoundTrip(mm, ss);
      Parsed(GisnepResult(NumberOf(ds), ClockSeconds(mm, ss)))
    case _ => NoResult
  }

  // ---------------------------------------------------------------- Bandle

  /** What `parse_bandle_score` returns. */
  datatype BandleResult = BandleResult(
    gameNumber: nat,
    attempts: nat,
    solved: bool,
    totalScore: nat,
    bonusCompleted: nat,
    bonusTotal: nat)

  /** `max(6 - attempts, 0) if solved else 0`. */
  function BandlePoints(solved: bool, attempts: nat): (p: nat)
    ensures p <= 6
    ensures !solved ==> p == 0
    ensures solved && attempts >= 1 ==> p <= 5
    ensures solved && attempts <= 6 ==> p + attempts == 6
    ensures attempts >= 6 ==> p == 0
  {
    if solved && attempts < 6 then 6 - attempts else 0
  }

  /**
   * The Bandle record built from the matched groups: `X` means unsolved with
   * one attempt more than the maximum; a lower-case `x` (accepted by the
   * case-insensitive pattern) makes `int('x')` raise.
   */
  function BandleOf(tok: BandleTokens, bonus: Option<(string, string)>): (r: Parse<BandleResult>)
    requires AllDigits(tok.number) && IsBandleAttempt(tok.attempt) && IsDigit(tok.maxAttempts)
    requires bonus.Some? ==> AllDigits(bonus.value.0) && AllDigits(bonus.value.1)
    ensures !r.NoResult?
    ensures r.Crash? <==> tok.attempt == 'x'
    ensures r.Crash? ==> r.fault == ValueError
    ensures r.Parsed? ==>
      && r.value.gameNumber == NumberOf(tok.number)
      && (r.value.solved <==> tok.attempt != 'X')
      && (r.value.solved ==> r.value.attempts == DigitValue(tok.attempt))
      && (!r.value.solved ==> r.value.attempts == DigitValue(tok.maxAttempts) + 1 && r.value.totalScore == 0)
      && r.value.totalScore == BandlePoints(r.value.solved, r.value.attempts)
      && (bonus.None? ==> r.value.bonusCompleted == 0 && r.value.bonusTotal == 0)
      && (bonus.Some? ==> r.value.bonusCompleted == NumberOf(bonus.value.0) && r.value.bonusTotal == NumberOf(bonus.value.1))
  {
    if tok.attempt == 'x' then Crash(ValueError)
    else
      var solved := tok.attempt != 'X';
      var attempts := if solved then DigitValue(tok.attempt) else DigitValue(tok.maxAttempts) + 1;
      var completed := if bonus.Some? then NumberOf(bonus.value.0) else 0;
      var total := if bonus.Some? then NumberOf(bonus.value.1) else 0;
      Parsed(BandleResult(NumberOf(tok.number), attempts, solved, BandlePoints(solved, attempts), completed, total))
  }

  /** The bonus line never changes the score, the attempts or the solved flag. */
  lemma BonusNeverScores(tok: BandleTokens, b1: Option<(string, string)>, b2: Option<(string, string)>)
    requires AllDigits(tok.number) && IsBandleAttempt(tok.attempt) && IsDigit(tok.maxAttempts)
    requires b1.Some? ==> AllDigits(b1.value.0) && AllDigits(b1.value.1)
    requires b2.Some? ==> AllDigits(b2.value.0) && AllDigits(b2.value.1)
    ensures BandleOf(tok, b1).Parsed? <==> BandleOf(tok, b2).Parsed?
    ensures BandleOf(tok, b1).Parsed? ==>
      && BandleOf(tok, b1).value.totalScore == BandleOf(tok, b2).value.totalScore
      && BandleOf(tok, b1).value.attempts == BandleOf(tok, b2).value.attempts
      && BandleOf(tok, b1).value.solved == BandleOf(tok, b2).value.solved
  {
  }

  function MatchedBonus(t: string): (r: Option<(string, string)>)
    ensures r.Some? <==> SearchBonus(t).Some?
    ensures r.Some? ==> AllDigits(r.value.0) && AllDigits(r.value.1)
  {
    match SearchBonus(t)
    case None => None
    case Some((_, v)) => Some(v)
  }

  /** `parse_bandle_score`, stated on the message. */
  function ParseBandle(t: string): (r: Parse<BandleResult>)
    ensures r.NoResult? <==> forall p :: 0 <= p <= |t| ==> BandleAt(t, p).None?
    ensures r.Crash? ==> r.fault == ValueError
    ensures r.Parsed? ==>
      && r.value.totalScore <= 6
      && (r.value.attempts >= 1 ==> r.value.totalScore <= 5)
      && r.value.totalScore == BandlePoints(r.value.solved, r.value.attempts)
      && (SearchBonus(t).None? ==> r.value.bonusCompleted == 0 && r.value.bonusTotal == 0)
    ensures SearchBandle(t).Some? ==> (r.Crash? <==> SearchBandle(t).value.1.attempt == 'x')
    ensures r.Parsed? ==>
      var tok := SearchBandle(t).value.1;
      && r.value.gameNumber == NumberOf(tok.number)
      && (r.value.solved <==> tok.attempt != 'X')
      && (r.value.solved ==> r.value.attempts == DigitValue(tok.attempt))
      && (!r.value.solved ==> r.value.attempts == DigitValue(tok.maxAttempts) + 1)
    ensures r.Parsed? && SearchBonus(t).Some? ==>
      var (done, total) := SearchBonus(t).value.1;
      r.value.bonusCompleted == NumberOf(done) && r.value.bonusTotal == NumberOf(total)
  {
    match SearchBandle(t)
    case None => NoResult
    case Some((_, tok)) => BandleOf(tok, MatchedBonus(t))
  }

  // ----------------------------------------------------------- recognisers

  /** `is_wordle_message`: the word `wordle` anywhere, and the Wordle pattern. */
  predicate IsWordleMessage(t: string) {
    Occurs(LowerStr(t), "wordle") && SearchWordle(t, IsWordleAttempt).Some?
  }

  /** `is_connections_message`. */
  predicate IsConnectionsMessage(t: string) {
    Occurs(LowerStr(t), "connections") && SearchConnections(t).Some?
  }

  /** `is_framed_message`. */
  predicate IsFramedMessage(t: string) {
    Occurs(LowerStr(t), "framed") && SearchFramed(t).Some?
  }

  /** `is_gisnep_message`. */
  predicate IsGisnepMessage(t: string) {
    Occurs(LowerStr(t), "#gisnep") && SearchGisnep(t).Some?
  }

  /** `is_bandle_message`. */
  predicate IsBandleMessage(t: string) {
    Occurs(LowerStr(t), "bandle") && SearchBandle(t).Some?
  }

  /** Lower-casing keeps an occurrence in place. */
  lemma LowerKeepsOccurrence(t: string, i: nat, w: string)
    requires HasAt(t, i, w)
    ensures HasAt(LowerStr(t), i, LowerStr(w))
  {
    var lt := LowerStr(t);
    forall k | 0 <= k < |w| ensures lt[i..i + |w|][k] == LowerStr(w)[k] {
      assert t[i..i + |w|][k] == t[i + k];
    }
  }

  /** Where a pattern matches, its lower-cased anchor word occurs. */
  lemma AnchorAt(t: string, p: nat, w: string)
    requires p <= |t| && WordAt(t, p, w)
    ensures Occurs(LowerStr(t), w)
  {
    WordAtMeans(t, p, w);
    assert HasAt(LowerStr(t), p, w);
  }

  lemma LowerConnections()
    ensures LowerStr("Connections") == "connections"
  {
    var w := "Connections";
    assert forall k :: 0 <= k < |w| ==> LowerStr(w)[k] == "connections"[k];
  }

  /** `connections` occurs in the lower-cased text wherever the case-sensitive Connections pattern matches. */
  lemma ConnectionsAnchor(t: string)
    ensures IsConnectionsMessage(t) <==> SearchConnections(t).Some?
  {
    if SearchConnections(t).Some? {
      var p := SearchConnections(t).value.0;
      assert HasAt(t, p, "Connections");
      LowerKeepsOccurrence(t, p, "Connections");
      LowerConnections();
      assert HasAt(LowerStr(t), p, "connections");
    }
  }

  /** `wordle` occurs in the lower-cased text wherever the Wordle pattern matches. */
  lemma WordleAnchor(t: string)
    ensures IsWordleMessage(t) <==> SearchWordle(t, IsWordleAttempt).Some?
  {
    if SearchWordle(t, IsWordleAttempt).Some? {
      AnchorAt(t, SearchWordle(t, IsWordleAttempt).value.0, "wordle");
    }
  }

  /** `framed` occurs in the lower-cased text wherever the Framed pattern matches. */
  lemma FramedAnchor(t: string)
    ensures IsFramedMessage(t) <==> SearchFramed(t).Some?
  {
    if SearchFramed(t).Some? {
      AnchorAt(t, SearchFramed(t).value.0, "framed");
    }
  }

  /** `#gisnep` occurs in the lower-cased text wherever the Gisnep pattern matches. */
  lemma GisnepAnchor(t: string)
    ensures IsGisnepMessage(t) <==> SearchGisnep(t).Some?
  {
    if SearchGisnep(t).Some? {
      AnchorAt(t, SearchGisnep(t).value.0, "#gisnep");
    }
  }

  /** `bandle` occurs in the lower-cased text wherever the Bandle pattern matches. */
  lemma BandleAnchor(t: string)
    ensures IsBandleMessage(t) <==> SearchBandle(t).Some?
  {
    if SearchBandle(t).Some? {
      AnchorAt(t, SearchBandle(t).value.0, "bandle");
    }
  }

  /**
   * The anchor word each recogniser tests first is implied by its pattern:
   * every recogniser accepts exactly the messages its pattern matches.
   */
  lemma AnchorsAreImplied(t: string)
    ensures IsWordleMessage(t) <==> SearchWordle(t, IsWordleAttempt).Some?
    ensures IsConnectionsMessage(t) <==> SearchConnections(t).Some?
    ensures IsFramedMessage(t) <==> SearchFramed(t).Some?
    ensures IsGisnepMessage(t) <==> SearchGisnep(t).Some?
    ensures IsBandleMessage(t) <==> SearchBandle(t).Some?
  {
    WordleAnchor(t);
    ConnectionsAnchor(t);
    FramedAnchor(t);
    GisnepAnchor(t);
    BandleAnchor(t);
  }

  /**
   * A recognised Wordle, Framed or Bandle message never parses to `None`
   * (though a lower-case `x` still raises), and the other way round; a
   * parsed Gisnep message is always recognised, but a recognised one lacking
   * its `No.` number parses to `None`.
   */
  lemma RecognisedMeansParsed(t: string)
    ensures IsWordleMessage(t) <==> !ParseWordle(t).NoResult?
    ensures IsFramedMessage(t) <==> ParseFramed(t).Parsed?
    ensures IsBandleMessage(t) <==> !ParseBandle(t).NoResult?
    ensures ParseGisnep(t).Parsed? <==> IsGisnepMessage(t) && SearchGisnepNumber(t).Some?
  {
    AnchorsAreImplied(t);
  }
}

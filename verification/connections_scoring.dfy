/**
 * Connections: turning the lines of a result grid into one guess per line,
 * and scoring a guess sequence (order bonus, category points, completion
 * bonus or mistake penalty).
 */
module ConnectionsScoring {
  import opened Common
  import opened Text

  const Purple: char := '🟪'
  const Blue: char := '🟦'
  const Green: char := '🟩'
  const Yellow: char := '🟨'
  /** The marker recorded for a line that is not one solved category. */
  const Miss: char := 'X'

  /** The four category colours, the keys of the points table. */
  predicate IsCategory(c: char) {
    c == Purple || c == Blue || c == Green || c == Yellow
  }

  /** Points per solved category: purple 4, blue 3, green 2, yellow 1. */
  function BasePoints(c: char): (p: nat)
    requires IsCategory(c)
    ensures 1 <= p <= 4
    ensures p == 4 <==> c == Purple
  {
    if c == Purple then 4 else if c == Blue then 3 else if c == Green then 2 else 1
  }

  /** Every character of `l` is `l[0]`: the line shows a single colour. */
  predicate AllSame(l: string) {
    forall k :: 0 <= k < |l| ==> l[k] == l[0]
  }

  function IsNonBlank(l: string): bool {
    !Blank(l)
  }

  /**
   * The guess one line records: after stripping, four squares of one symbol
   * give that symbol, any other non-empty line gives a miss, and a blank line
   * gives nothing.
   */
  function GuessOf(line: string): (g: Option<char>)
    ensures g.None? <==> Blank(line)
    ensures g.Some? && g.value != Miss ==> |Strip(line)| == 4 && AllSame(Strip(line)) && g.value == Strip(line)[0]
    ensures |Strip(line)| == 4 && AllSame(Strip(line)) ==> g == Some(Strip(line)[0])
    ensures |Strip(line)| > 0 && (|Strip(line)| != 4 || !AllSame(Strip(line))) ==> g == Some(Miss)
  {
    var l := Strip(line);
    if |l| == 4 then
      if AllSame(l) then Some(l[0]) else Some(Miss)
    else if |l| > 0 then Some(Miss)
    else None
  }

  /** The guesses of a sequence of result lines, one per non-blank line, in order. */
  function ExtractGuesses(lines: seq<string>): (g: seq<char>)
    ensures |g| == |Keep(lines, IsNonBlank)|
    decreases |lines|
  {
    if |lines| == 0 then []
    else
      var rest := ExtractGuesses(lines[1..]);
      match GuessOf(lines[0])
      case Some(c) => [c] + rest
      case None => rest
  }

  /** Guesses are extracted line by line, so extraction distributes over concatenation. */
  lemma {:induction false} ExtractGuessesAppend(a: seq<string>, b: seq<string>)
    ensures ExtractGuesses(a + b) == ExtractGuesses(a) + ExtractGuesses(b)
    decreases |a|
  {
    if |a| == 0 {
      assert a + b == b;
    } else {
      assert (a + b)[0] == a[0];
      assert (a + b)[1..] == a[1..] + b;
      ExtractGuessesAppend(a[1..], b);
    }
  }

  /** The `k`-th guess is the guess of the `k`-th non-blank line. */
  lemma {:induction false} GuessPerLine(lines: seq<string>)
    ensures forall k :: 0 <= k < |ExtractGuesses(lines)| ==>
      Some(ExtractGuesses(lines)[k]) == GuessOf(Keep(lines, IsNonBlank)[k])
    decreases |lines|
  {
    if |lines| > 0 {
      var rest := lines[1..];
      GuessPerLine(rest);
      var g, kept := ExtractGuesses(lines), Keep(lines, IsNonBlank);
      if IsNonBlank(lines[0]) {
        assert kept == [lines[0]] + Keep(rest, IsNonBlank);
        assert g == [GuessOf(lines[0]).value] + ExtractGuesses(rest);
        forall k | 0 < k < |g| ensures Some(g[k]) == GuessOf(kept[k]) {
          assert g[k] == ExtractGuesses(rest)[k - 1];
          assert kept[k] == Keep(rest, IsNonBlank)[k - 1];
        }
      } else {
        assert kept == Keep(rest, IsNonBlank);
        assert g == ExtractGuesses(rest);
      }
    }
  }

  // ------------------------------------------------ reference definition

  function CountCorrect(g: seq<char>): (n: nat)
    ensures n <= |g|
    decreases |g|
  {
    if |g| == 0 then 0
    else CountCorrect(g[..|g| - 1]) + (if IsCategory(g[|g| - 1]) then 1 else 0)
  }

  function CountMistakes(g: seq<char>): (n: nat)
    ensures n + CountCorrect(g) <= |g|
    decreases |g|
  {
    if |g| == 0 then 0
    else CountMistakes(g[..|g| - 1]) + (if g[|g| - 1] == Miss then 1 else 0)
  }

  function BaseSum(g: seq<char>): (n: nat)
    ensures CountCorrect(g) <= n <= 4 * CountCorrect(g)
    decreases |g|
  {
    if |g| == 0 then 0
    else BaseSum(g[..|g| - 1]) + (if IsCategory(g[|g| - 1]) then BasePoints(g[|g| - 1]) else 0)
  }

  /** The first category colour in the sequence, if any. */
  function FirstCorrect(g: seq<char>): (r: Option<char>)
    ensures r.Some? ==> IsCategory(r.value) && r.value in g
    ensures r.Some? ==> exists i :: 0 <= i < |g| && g[i] == r.value && forall j :: 0 <= j < i ==> !IsCategory(g[j])
    ensures r.None? ==> forall i :: 0 <= i < |g| ==> !IsCategory(g[i])
    decreases |g|
  {
    if |g| == 0 then None
    else
      var f := FirstCorrect(g[..|g| - 1]);
      if f.Some? then f
      else if IsCategory(g[|g| - 1]) then Some(g[|g| - 1])
      else None
  }

  /** The score details `calculate_connections_score` returns. */
  datatype ConnectionsScore = ConnectionsScore(
    totalScore: int,
    numGuesses: nat,
    purpleFirst: bool,
    blueFirst: bool,
    finished: bool,
    correct: nat,
    mistakes: nat)

  function OrderBonus(first: Option<char>): (b: nat)
    ensures b <= 2
  {
    if first == Some(Purple) then 2 else if first == Some(Blue) then 1 else 0
  }

  /** The score of a guess sequence, stated with the counting functions above. */
  function ScoreOf(g: seq<char>): (s: ConnectionsScore)
    ensures s.numGuesses == |g|
    ensures s.correct == CountCorrect(g) && s.mistakes == CountMistakes(g)
    ensures s.correct + s.mistakes <= |g|
    ensures s.purpleFirst <==> FirstCorrect(g) == Some(Purple)
    ensures s.blueFirst <==> FirstCorrect(g) == Some(Blue)
    ensures !(s.purpleFirst && s.blueFirst)
    ensures s.finished <==> s.correct == 4
    ensures s.totalScore ==
      OrderBonus(FirstCorrect(g)) + BaseSum(g) + (if s.correct == 4 && s.mistakes == 0 then 5 else -(s.mistakes as int))
  {
    var correct := CountCorrect(g);
    var mistakes := CountMistakes(g);
    var first := FirstCorrect(g);
    var adjustment: int := if correct == 4 && mistakes == 0 then 5 else -(mistakes as int);
    ConnectionsScore(
      OrderBonus(first) + BaseSum(g) + adjustment,
      |g|,
      first == Some(Purple),
      first == Some(Blue),
      correct == 4,
      correct,
      mistakes)
  }

  /** Score bounds: never below correct-minus-mistakes, never above the best possible. */
  lemma ScoreBounds(g: seq<char>)
    ensures var s := ScoreOf(g);
      s.correct - s.mistakes <= s.totalScore <= 4 * s.correct + 7
  {
  }

  /** A clean sweep of the four colours scores 15 plus the order bonus. */
  lemma CleanSweep(g: seq<char>)
    requires |g| == 4
    requires Purple in g && Blue in g && Green in g && Yellow in g
    ensures var s := ScoreOf(g);
      && s.finished && s.mistakes == 0
      && s.totalScore == 15 + OrderBonus(FirstCorrect(g))
      && 15 <= s.totalScore <= 17
  {
    var p :| 0 <= p < 4 && g[p] == Purple;
    var b :| 0 <= b < 4 && g[b] == Blue;
    var n :| 0 <= n < 4 && g[n] == Green;
    var y :| 0 <= y < 4 && g[y] == Yellow;
    assert IsCategory(g[0]) && IsCategory(g[1]) && IsCategory(g[2]) && IsCategory(g[3]);
    assert forall i :: 0 <= i < 4 ==> IsCategory(g[i]);
    AllCategories(g);
    assert g[..3][..2] == g[..2] && g[..2][..1] == g[..1] && g[..1][..0] == [];
    assert BaseSum(g[..1]) == BasePoints(g[0]);
    assert BaseSum(g[..2]) == BasePoints(g[0]) + BasePoints(g[1]);
    assert BaseSum(g[..3]) == BasePoints(g[0]) + BasePoints(g[1]) + BasePoints(g[2]);
    assert BaseSum(g) == 10;
  }

  /** A sequence of solved colours only: every guess is correct and none is a miss. */
  lemma {:induction false} AllCategories(g: seq<char>)
    requires forall i :: 0 <= i < |g| ==> IsCategory(g[i])
    ensures CountCorrect(g) == |g| && CountMistakes(g) == 0
    decreases |g|
  {
    if |g| > 0 {
      AllCategories(g[..|g| - 1]);
    }
  }

  // -------------------------------------------- the source's two loops

  /**
   * `calculate_connections_score`: one pass finds the first solved colour and
   * counts solved and missed guesses, a second pass adds the category points.
   */
  method CalculateConnectionsScore(guesses: seq<char>) returns (s: ConnectionsScore)
    ensures s == ScoreOf(guesses)
  {
    var first, correct, mistakes := TallyGuesses(guesses);
    var total := OrderBonus(first);
    var points := SumBasePoints(guesses);
    total := total + points;
    if correct == 4 && mistakes == 0 {
      total := total + 5;
    } else {
      total := total - mistakes;
    }
    s := ConnectionsScore(total, |guesses|, first == Some(Purple), first == Some(Blue), correct == 4, correct, mistakes);
  }

  /** The first pass: the first solved colour, the solved groups and the mistakes. */
  method TallyGuesses(guesses: seq<char>) returns (first: Option<char>, correct: nat, mistakes: nat)
    ensures first == FirstCorrect(guesses)
    ensures correct == CountCorrect(guesses)
    ensures mistakes == CountMistakes(guesses)
  {
    first, correct, mistakes := None, 0, 0;
    var i := 0;
    while i < |guesses|
      invariant 0 <= i <= |guesses|
      invariant first == FirstCorrect(guesses[..i])
      invariant correct == CountCorrect(guesses[..i])
      invariant mistakes == CountMistakes(guesses[..i])
    {
      assert guesses[..i + 1][..i] == guesses[..i];
      var guess := guesses[i];
      if IsCategory(guess) {
        if first.None? {
          first := Some(guess);
        }
        correct := correct + 1;
      } else if guess == Miss {
        mistakes := mistakes + 1;
      }
      i := i + 1;
    }
    assert guesses[..|guesses|] == guesses;
  }

  /** The second pass: the base points of every solved line. */
  method SumBasePoints(guesses: seq<char>) returns (points: int)
    ensures points == BaseSum(guesses)
  {
    points := 0;
    var i := 0;
    while i < |guesses|
      invariant 0 <= i <= |guesses|
      invariant points == BaseSum(guesses[..i])
    {
      assert guesses[..i + 1][..i] == guesses[..i];
      if IsCategory(guesses[i]) {
        points := points + BasePoints(guesses[i]);
      }
      i := i + 1;
    }
    assert guesses[..|guesses|] == guesses;
  }

  /** An example: purple, green, yellow, blue with no misses scores 17. */
  lemma WorkedExample()
    ensures var s := ScoreOf([Purple, Green, Yellow, Blue]);
      s.totalScore == 17 && s.finished && s.purpleFirst && s.numGuesses == 4
  {
    var g := [Purple, Green, Yellow, Blue];
    assert g[..3] == [Purple, Green, Yellow];
    assert g[..3][..2] == [Purple, Green];
    assert g[..3][..2][..1] == [Purple];
    assert g[..3][..2][..1][..0] == [];
    assert FirstCorrect([Purple]) == Some(Purple);
    assert FirstCorrect([Purple, Green]) == Some(Purple);
    assert FirstCorrect([Purple, Green, Yellow]) == Some(Purple);
    assert FirstCorrect(g) == Some(Purple);
    CleanSweep(g);
  }
}

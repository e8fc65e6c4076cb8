/**
 * Deterministic scanners for the fixed message templates of the bot. Each
 * `...At(t, i)` decides whether the template's regular expression matches
 * `t` at position `i` and returns its capture groups; `Search...(t)` is
 * `re.search`, the leftmost position that matches.
 *
 * Every template here is written so that a regex engine has no real choice:
 * each `\s+` and `\d+` is followed by a character it cannot consume, an
 * optional `#` or `,\d+` is taken exactly when present, so the scanners below
 * compute the same groups the backtracking engine does. Case-insensitive
 * literals are compared on the ASCII-lower-cased text.
 */
module Patterns {
  import opened Common
  import opened Text

  /** The maximal non-empty run of digits at `i` (`(\d+)` followed by a non-digit). */
  function DigitsAt(t: string, i: nat): (r: Option<string>)
    ensures r.Some? ==> |r.value| > 0 && AllDigits(r.value) && HasAt(t, i, r.value)
    ensures r.Some? ==> i + |r.value| == |t| || !IsDigit(t[i + |r.value|])
    ensures r.None? ==> i >= |t| || !IsDigit(t[i])
  {
    var n := Run(t, i, IsDigit);
    if n == 0 then None else Some(t[i..i + n])
  }

  /** A case-insensitive literal at `i` (`w` is given in lower case), compared one character at a time. */
  predicate WordAt(t: string, i: nat, w: string)
    decreases |w|
  {
    i + |w| <= |t| && (|w| == 0 || (Lower(t[i]) == w[0] && WordAt(t, i + 1, w[1..])))
  }

  /** The literal occurs at `i` of the lower-cased text exactly when `WordAt` holds. */
  lemma {:induction false} WordAtMeans(t: string, i: nat, w: string)
    ensures WordAt(t, i, w) <==> HasAt(LowerStr(t), i, w)
    decreases |w|
  {
    var lt := LowerStr(t);
    if |w| > 0 {
      WordAtMeans(t, i + 1, w[1..]);
      if i + |w| <= |t| {
        assert lt[i] == Lower(t[i]);
        assert lt[i..i + |w|] == [lt[i]] + lt[i + 1..i + 1 + |w[1..]|];
        assert w == [w[0]] + w[1..];
      }
    }
  }

  /** Position after `\s+` at `i`, or `None` if there is no whitespace there. */
  function SpacesAt(t: string, i: nat): (r: Option<nat>)
    ensures r.Some? ==> i < r.value <= |t|
    ensures r.Some? ==> forall k :: i <= k < r.value ==> IsSpace(t[k])
    ensures r.Some? ==> r.value == |t| || !IsSpace(t[r.value])
  {
    var n := Run(t, i, IsSpace);
    if n == 0 then None else Some(i + n)
  }

  /** Position after an optional `#` at `i`. */
  function SkipHash(t: string, i: nat): (j: nat)
    requires i <= |t|
    ensures j == (if i < |t| && t[i] == '#' then i + 1 else i)
  {
    if i < |t| && t[i] == '#' then i + 1 else i
  }

  /** Digits, optionally followed by one comma and more digits: `\d+(?:,\d+)?`. */
  predicate IsNumberToken(s: string) {
    || (|s| > 0 && AllDigits(s))
    || exists k :: 0 < k < |s| - 1 && s[k] == ',' && AllDigits(s[..k]) && AllDigits(s[k + 1..])
  }

  function NumberTokenAt(t: string, i: nat): (r: Option<string>)
    ensures r.Some? ==> IsNumberToken(r.value) && HasAt(t, i, r.value)
  {
    match DigitsAt(t, i)
    case None => None
    case Some(d1) =>
      var e := i + |d1|;
      if e < |t| && t[e] == ',' then
        match DigitsAt(t, e + 1)
        case Some(d2) =>
          CommaToken(t, i, d1, d2);
          Some(d1 + "," + d2)
        case None => Some(d1)
      else Some(d1)
  }

  /** Two digit runs around a comma at `i` form one number token there. */
  lemma CommaToken(t: string, i: nat, d1: string, d2: string)
    requires |d1| > 0 && AllDigits(d1) && HasAt(t, i, d1)
    requires i + |d1| < |t| && t[i + |d1|] == ','
    requires |d2| > 0 && AllDigits(d2) && HasAt(t, i + |d1| + 1, d2)
    ensures IsNumberToken(d1 + "," + d2) && HasAt(t, i, d1 + "," + d2)
  {
    var tok := d1 + "," + d2;
    var e := i + |d1|;
    assert tok[..|d1|] == d1 && tok[|d1| + 1..] == d2 && tok[|d1|] == ',';
    assert t[i..i + |tok|] == t[i..e] + [t[e]] + t[e + 1..e + 1 + |d2|];
  }

  // ---------------------------------------------------------------- Wordle

  /** The groups of `WORDLE_PATTERN`, plus the index `pos` of the attempts character. */
  datatype WordleTokens = WordleTokens(number: string, attempt: char, pos: nat, hardMode: bool)

  /** The attempts class `[0-6X]` under IGNORECASE. */
  predicate IsWordleAttempt(c: char) {
    ('0' <= c <= '6') || c == 'X' || c == 'x'
  }

  /** The text at `k` reads `c/6`, followed by a `*` exactly when `hard`. */
  predicate AttemptsShape(t: string, k: nat, c: char, hard: bool) {
    && k + 3 <= |t|
    && t[k] == c && t[k + 1] == '/' && t[k + 2] == '6'
    && (hard <==> k + 3 < |t| && t[k + 3] == '*')
  }

  /** `(<attempt>)/6(\*?)` at `k`: the attempts character and whether a `*` follows. */
  function AttemptsAt(t: string, k: nat, attempt: char -> bool): (r: Option<(char, bool)>)
    ensures r.Some? ==> attempt(r.value.0) && AttemptsShape(t, k, r.value.0, r.value.1)
  {
    if k + 3 <= |t| && attempt(t[k]) && t[k + 1] == '/' && t[k + 2] == '6' then
      Some((t[k], k + 3 < |t| && t[k + 3] == '*'))
    else None
  }

  /** The tokens of an attempts field at `k` that follows the number token `num`. */
  function AttemptsTokens(t: string, num: string, k: nat, attempt: char -> bool): (r: Option<WordleTokens>)
    ensures r.Some? ==> r.value.number == num && r.value.pos == k
    ensures r.Some? ==> attempt(r.value.attempt) && AttemptsShape(t, k, r.value.attempt, r.value.hardMode)
  {
    match AttemptsAt(t, k, attempt)
    case None => None
    case Some((c, hard)) => Some(WordleTokens(num, c, k, hard))
  }

  /** `(\d+(?:,\d+)?)\s+(<attempt>)/6(\*?)` at `d`. */
  function WordleBodyAt(t: string, d: nat, attempt: char -> bool): (r: Option<WordleTokens>)
    ensures r.Some? ==> IsNumberToken(r.value.number)
    ensures r.Some? ==> attempt(r.value.attempt) && AttemptsShape(t, r.value.pos, r.value.attempt, r.value.hardMode)
  {
    match NumberTokenAt(t, d)
    case None => None
    case Some(num) =>
      match SpacesAt(t, d + |num|)
      case None => None
      case Some(k) => AttemptsTokens(t, num, k, attempt)
  }

  /**
   * `Wordle\s+(?:#?\s*)(\d+(?:,\d+)?)\s+(<attempt>)/6(\*?)`, case-insensitive,
   * matched at `i`; `attempt` is the attempts class (the legacy bot's is `\d`).
   */
  function WordleAt(t: string, i: nat, attempt: char -> bool): (r: Option<WordleTokens>)
    ensures r.Some? ==> WordAt(t, i, "wordle")
    ensures r.Some? ==> IsNumberToken(r.value.number)
    ensures r.Some? ==> attempt(r.value.attempt) && AttemptsShape(t, r.value.pos, r.value.attempt, r.value.hardMode)
  {
    if !WordAt(t, i, "wordle") then None
    else match SpacesAt(t, i + 6)
      case None => None
      case Some(b) =>
        var d := SkipHash(t, b);
        WordleBodyAt(t, d + Run(t, d, IsSpace), attempt)
  }

  /** `re.search`: the leftmost position where the pattern matches, with its groups. */
  function SearchWordle(t: string, attempt: char -> bool): (r: Option<(nat, WordleTokens)>)
    ensures r.Some? ==> r.value.0 <= |t| && WordleAt(t, r.value.0, attempt) == Some(r.value.1)
    ensures r.Some? ==> forall q :: 0 <= q < r.value.0 ==> WordleAt(t, q, attempt).None?
    ensures r.None? <==> forall q :: 0 <= q <= |t| ==> WordleAt(t, q, attempt).None?
  {
    var at := (p: nat) => WordleAt(t, p, attempt);
    assert forall q: nat :: at(q) == WordleAt(t, q, attempt);
    SearchFrom(t, 0, at)
  }

  /** `Skill\s+(\d+)/99\s+Luck\s+(\d+)/99`, case-insensitive, at `i`. */
  function SkillLuckAt(t: string, i: nat): (r: Option<(string, string)>)
    ensures r.Some? ==> WordAt(t, i, "skill")
    ensures r.Some? ==> |r.value.0| > 0 && AllDigits(r.value.0) && |r.value.1| > 0 && AllDigits(r.value.1)
  {
    if !WordAt(t, i, "skill") then None
    else match SpacesAt(t, i + 5)
      case None => None
      case Some(b) =>
        match DigitsAt(t, b)
        case None => None
        case Some(skill) =>
          var c := b + |skill|;
          if !HasAt(t, c, "/99") then None
          else match SpacesAt(t, c + 3)
            case None => None
            case Some(e) =>
              if !WordAt(t, e, "luck") then None
              else match SpacesAt(t, e + 4)
                case None => None
                case Some(g) =>
                  match DigitsAt(t, g)
                  case None => None
                  case Some(luck) =>
                    if HasAt(t, g + |luck|, "/99") then Some((skill, luck)) else None
  }

  /** `re.search`: the leftmost position where the pattern matches, with its groups. */
  function SearchSkillLuck(t: string): (r: Option<(nat, (string, string))>)
    ensures r.Some? ==> r.value.0 <= |t| && SkillLuckAt(t, r.value.0) == Some(r.value.1)
    ensures r.Some? ==> forall q :: 0 <= q < r.value.0 ==> SkillLuckAt(t, q).None?
    ensures r.None? <==> forall q :: 0 <= q <= |t| ==> SkillLuckAt(t, q).None?
  {
    var at := (p: nat) => SkillLuckAt(t, p);
    assert forall q: nat :: at(q) == SkillLuckAt(t, q);
    SearchFrom(t, 0, at)
  }

  // ----------------------------------------------------------- Connections

  /** `Puzzle #(\d+)` (case-sensitive) at `i`. */
  function PuzzleNumberAt(t: string, i: nat): (r: Option<string>)
    ensures r.Some? ==> HasAt(t, i, "Puzzle #")
    ensures r.Some? ==> |r.value| > 0 && AllDigits(r.value)
  {
    if HasAt(t, i, "Puzzle #") then DigitsAt(t, i + 8) else None
  }

  /** `re.search`: the leftmost position where the pattern matches, with its groups. */
  function SearchPuzzleNumber(t: string): (r: Option<(nat, string)>)
    ensures r.Some? ==> r.value.0 <= |t| && PuzzleNumberAt(t, r.value.0) == Some(r.value.1)
    ensures r.Some? ==> forall q :: 0 <= q < r.value.0 ==> PuzzleNumberAt(t, q).None?
    ensures r.None? <==> forall q :: 0 <= q <= |t| ==> PuzzleNumberAt(t, q).None?
  {
    var at := (p: nat) => PuzzleNumberAt(t, p);
    assert forall q: nat :: at(q) == PuzzleNumberAt(t, q);
    SearchFrom(t, 0, at)
  }

  /** `Connections\nPuzzle #(\d+)` (case-sensitive) at `i`. */
  function ConnectionsAt(t: string, i: nat): (r: Option<string>)
    ensures r.Some? ==> HasAt(t, i, "Connections")
  {
    if HasAt(t, i, "Connections\n") then
      assert t[i..i + 11] == t[i..i + 12][..11];
      PuzzleNumberAt(t, i + 12)
    else None
  }

  /** `re.search`: the leftmost position where the pattern matches, with its groups. */
  function SearchConnections(t: string): (r: Option<(nat, string)>)
    ensures r.Some? ==> r.value.0 <= |t| && ConnectionsAt(t, r.value.0) == Some(r.value.1)
    ensures r.Some? ==> forall q :: 0 <= q < r.value.0 ==> ConnectionsAt(t, q).None?
    ensures r.None? <==> forall q :: 0 <= q <= |t| ==> ConnectionsAt(t, q).None?
  {
    var at := (p: nat) => ConnectionsAt(t, p);
    assert forall q: nat :: at(q) == ConnectionsAt(t, q);
    SearchFrom(t, 0, at)
  }

  // ---------------------------------------------------------------- Framed

  /** `Framed\s+#?(\d+)`, case-insensitive, at `i`. */
  function FramedAt(t: string, i: nat): (r: Option<string>)
    ensures r.Some? ==> WordAt(t, i, "framed")
    ensures r.Some? ==> |r.value| > 0 && AllDigits(r.value)
  {
    if !WordAt(t, i, "framed") then None
    else match SpacesAt(t, i + 6)
      case None => None
      case Some(b) => DigitsAt(t, SkipHash(t, b))
  }

  /** `re.search`: the leftmost position where the pattern matches, with its groups. */
  function SearchFramed(t: string): (r: Option<(nat, string)>)
    ensures r.Some? ==> r.value.0 <= |t| && FramedAt(t, r.value.0) == Some(r.value.1)
    ensures r.Some? ==> forall q :: 0 <= q < r.value.0 ==> FramedAt(t, q).None?
    ensures r.None? <==> forall q :: 0 <= q <= |t| ==> FramedAt(t, q).None?
  {
    var at := (p: nat) => FramedAt(t, p);
    assert forall q: nat :: at(q) == FramedAt(t, q);
    SearchFrom(t, 0, at)
  }

  // ---------------------------------------------------------------- Gisnep

  /** `in (\d{1,2}:\d{2})`, case-insensitive, at `p`: the minutes and seconds digits. */
  function TimeAt(t: string, p: nat): (r: Option<(string, string)>)
    ensures r.Some? ==> 1 <= |r.value.0| <= 2 && AllDigits(r.value.0)
    ensures r.Some? ==> |r.value.1| == 2 && AllDigits(r.value.1)
  {
    if !WordAt(t, p, "in ") then None
    else
      var a := p + 3;
      var n := Run(t, a, IsDigit);
      if (n == 1 || n == 2) && a + n + 3 <= |t| && t[a + n] == ':'
         && IsDigit(t[a + n + 1]) && IsDigit(t[a + n + 2])
      then Some((t[a..a + n], t[a + n + 1..a + n + 3]))
      else None
  }

  /**
   * `#Gisnep.*in (\d{1,2}:\d{2})`, case-insensitive, at `i`: `.` stops at a
   * newline and is greedy, so the time is the rightmost one on the same line.
   */
  function GisnepAt(t: string, i: nat): (r: Option<(string, string)>)
    ensures r.Some? ==> WordAt(t, i, "#gisnep")
    ensures r.Some? ==> exists p :: i + 7 <= p <= |t| && TimeAt(t, p) == Some(r.value)
  {
    if !WordAt(t, i, "#gisnep") then None
    else
      var j := i + 7;
      match SearchBack(j, LineEnd(t, j), p => TimeAt(t, p))
      case None => None
      case Some((p, v)) => Some(v)
  }

  /** `re.search`: the leftmost position where the pattern matches, with its groups. */
  function SearchGisnep(t: string): (r: Option<(nat, (string, string))>)
    ensures r.Some? ==> r.value.0 <= |t| && GisnepAt(t, r.value.0) == Some(r.value.1)
    ensures r.Some? ==> forall q :: 0 <= q < r.value.0 ==> GisnepAt(t, q).None?
    ensures r.None? <==> forall q :: 0 <= q <= |t| ==> GisnepAt(t, q).None?
  {
    var at := (p: nat) => GisnepAt(t, p);
    assert forall q: nat :: at(q) == GisnepAt(t, q);
    SearchFrom(t, 0, at)
  }

  /** `No\. (\d+)`, case-insensitive, at `i`. */
  function GisnepNumberAt(t: string, i: nat): (r: Option<string>)
    ensures r.Some? ==> |r.value| > 0 && AllDigits(r.value)
  {
    if WordAt(t, i, "no. ") then DigitsAt(t, i + 4) else None
  }

  /** `re.search`: the leftmost position where the pattern matches, with its groups. */
  function SearchGisnepNumber(t: string): (r: Option<(nat, string)>)
    ensures r.Some? ==> r.value.0 <= |t| && GisnepNumberAt(t, r.value.0) == Some(r.value.1)
    ensures r.Some? ==> forall q :: 0 <= q < r.value.0 ==> GisnepNumberAt(t, q).None?
    ensures r.None? <==> forall q :: 0 <= q <= |t| ==> GisnepNumberAt(t, q).None?
  {
    var at := (p: nat) => GisnepNumberAt(t, p);
    assert forall q: nat :: at(q) == GisnepNumberAt(t, q);
    SearchFrom(t, 0, at)
  }

  // ---------------------------------------------------------------- Bandle

  /** The groups of `BANDLE_PATTERN`. */
  datatype BandleTokens = BandleTokens(number: string, attempt: char, maxAttempts: char)

  /** `(\d|X)` under IGNORECASE. */
  predicate IsBandleAttempt(c: char) {
    IsDigit(c) || c == 'X' || c == 'x'
  }

  /** `Bandle\s+#?(\d+)\s+(\d|X)/(\d)`, case-insensitive, at `i`. */
  function BandleAt(t: string, i: nat): (r: Option<BandleTokens>)
    ensures r.Some? ==> WordAt(t, i, "bandle")
    ensures r.Some? ==> |r.value.number| > 0 && AllDigits(r.value.number)
    ensures r.Some? ==> IsBandleAttempt(r.value.attempt) && IsDigit(r.value.maxAttempts)
  {
    if !WordAt(t, i, "bandle") then None
    else match SpacesAt(t, i + 6)
      case None => None
      case Some(b) =>
        var c := SkipHash(t, b);
        match DigitsAt(t, c)
        case None => None
        case Some(num) =>
          match SpacesAt(t, c + |num|)
          case None => None
          case Some(e) =>
            if e + 3 <= |t| && IsBandleAttempt(t[e]) && t[e + 1] == '/' && IsDigit(t[e + 2]) then
              Some(BandleTokens(num, t[e], t[e + 2]))
            else None
  }

  /** `re.search`: the leftmost position where the pattern matches, with its groups. */
  function SearchBandle(t: string): (r: Option<(nat, BandleTokens)>)
    ensures r.Some? ==> r.value.0 <= |t| && BandleAt(t, r.value.0) == Some(r.value.1)
    ensures r.Some? ==> forall q :: 0 <= q < r.value.0 ==> BandleAt(t, q).None?
    ensures r.None? <==> forall q :: 0 <= q <= |t| ==> BandleAt(t, q).None?
  {
    var at := (p: nat) => BandleAt(t, p);
    assert forall q: nat :: at(q) == BandleAt(t, q);
    SearchFrom(t, 0, at)
  }

  /** `Bonus Rounds: (\d+)/(\d+)`, case-insensitive, at `i`. */
  function BonusAt(t: string, i: nat): (r: Option<(string, string)>)
    ensures r.Some? ==> |r.value.0| > 0 && AllDigits(r.value.0) && |r.value.1| > 0 && AllDigits(r.value.1)
  {
    if !WordAt(t, i, "bonus rounds: ") then None
    else match DigitsAt(t, i + 14)
      case None => None
      case Some(done) => BonusTotalAt(t, i + 14 + |done|, done)
  }

  /** `/(\d+)` at `j`, after the rounds done. */
  function BonusTotalAt(t: string, j: nat, done: string): (r: Option<(string, string)>)
    ensures r.Some? ==> r.value.0 == done && |r.value.1| > 0 && AllDigits(r.value.1)
  {
    if j < |t| && t[j] == '/' then
      match DigitsAt(t, j + 1)
      case None => None
      case Some(total) => Some((done, total))
    else None
  }

  /** `re.search`: the leftmost position where the pattern matches, with its groups. */
  function SearchBonus(t: string): (r: Option<(nat, (string, string))>)
    ensures r.Some? ==> r.value.0 <= |t| && BonusAt(t, r.value.0) == Some(r.value.1)
    ensures r.Some? ==> forall q :: 0 <= q < r.value.0 ==> BonusAt(t, q).None?
    ensures r.None? <==> forall q :: 0 <= q <= |t| ==> BonusAt(t, q).None?
  {
    var at := (p: nat) => BonusAt(t, p);
    assert forall q: nat :: at(q) == BonusAt(t, q);
    SearchFrom(t, 0, at)
  }
}

# Gamesbot scoring core in Dafny

Gamesbot is a Discord bot. It reads the result messages that players paste
from five daily puzzle games: Wordle, Connections, Framed, Gisnep and Bandle.
For each message it does four things:

- parses the result into a record;
- scores the record;
- appends it to a score table;
- tracks the newest game number seen for each game.

The newest-game tracker decides who holds that game's "player" role.
A newer game makes the submitter the only holder. The same game adds the
submitter. An older game changes nothing.

This project models that logic as pure Dafny functions over strings, score
tables, a latest-number store and role-holder sets, and proves what each step
promises. The modules are:

- `Text`: characters, digit strings, ASCII lower-casing, substring search,
  line splitting and joining, and stripping.
- `Patterns`: one scanner per regular expression of the parsers. A scanner
  says whether the pattern matches at a given position. A search is the
  leftmost position where it matches.
- `ConnectionsScoring`: guess extraction and the Connections score.
- `ScoreParser`: the five parsers and the five `is_*_message` recognisers.
- `Database`:
  - the Wordle tier table and total;
  - the append-only score tables;
  - the latest-number rows.
- `Roles`: granting and revoking a role, and the three-way role rule.
- `Games` and `Bot`: the configuration order, message dispatch, and the
  parse, save and track pipeline. `Bot` has two versions of the pipeline.
  One is the pipeline with the defects listed under Findings corrected. The
  other is the pipeline as `main_bot.py` wires it.
- `Legacy`: the older single-file bot, `spellbot.py`. It covers:
  - the channel-history scans;
  - its copy of the Connections parser and scorer;
  - the `>=` role reset;
  - dispatch by game name.

A parser has three possible results:

- `Parsed(record)` is a successful parse.
- `NoResult` is a Python `None`.
- `Crash(fault)` is an exception the Python code does not catch. Examples
  are `int('x')`, `lines[1]` on a one-line message, a missing dictionary key,
  and a call with the wrong number of arguments.

## Model

| member | source | states |
|---|---|---|
| Text.NumberOfAppend | score_parser.py:22-23 | The value of a concatenation of digit strings is the first value shifted by the second's length plus the second value; this is why dropping a thousands comma yields the intended number. |
| Text.JoinSplit | score_parser.py:41-46 | Joining the lines of a message with newlines gives back the message: `split('\n')` loses nothing. |
| Text.SplitJoin | score_parser.py:41-46 | Splitting newline-joined lines that contain no newline gives back exactly those lines. |
| Text.Keep | score_parser.py:40-45 | Filtering keeps exactly the elements satisfying the predicate. An empty list gives nothing, and a one-element list gives itself exactly when its element passes. Together with `Text.KeepAppend` this fixes the result element by element, in order. |
| Text.KeepAppend | score_parser.py:40-45 | Filtering a concatenation is filtering each part and concatenating, so the kept elements stay in input order. |
| Text.Strip | score_parser.py:69 | `str.strip()`: the result is the input with a whitespace prefix and a whitespace suffix cut off. It is empty exactly for an all-whitespace line, and otherwise neither starts nor ends with whitespace. A line without edge whitespace is unchanged. |
| Text.StripIdempotent | score_parser.py:69 | Stripping an already stripped line changes nothing. |
| Patterns.SearchWordle | score_parser.py:5 | `re.search`: the reported position is the leftmost one where the Wordle pattern matches; no match means the pattern matches nowhere. |
| Patterns.SearchConnections | score_parser.py:7 | The leftmost match of `Connections\nPuzzle #<digits>`, or none anywhere. |
| Patterns.SearchFramed | score_parser.py:8 | The leftmost match of the Framed header, or none anywhere. |
| Patterns.SearchGisnep | score_parser.py:9 | The leftmost match of the `#Gisnep ... in M:SS` pattern, or none anywhere. |
| Patterns.SearchBandle | score_parser.py:11 | The leftmost match of the Bandle header with its attempts and maximum, or none anywhere. |
| Patterns.SearchSkillLuck | score_parser.py:6 | The leftmost match of `Skill <digits>/99 Luck <digits>/99`, with its two digit groups, or none anywhere. |
| Patterns.SearchGisnepNumber | score_parser.py:10 | The leftmost match of `No. <digits>`, with its digits, or none anywhere. |
| Patterns.SearchBonus | score_parser.py:12 | The leftmost match of `Bonus Rounds: <digits>/<digits>`, with both digit groups, or none anywhere. |
| Patterns.SearchPuzzleNumber | score_parser.py:73 | The leftmost match of `Puzzle #<digits>`, with its digits, or none anywhere. |
| ScoreParser.GridOf | score_parser.py:40-46 | The grid is empty when no line is made only of 🟩🟨⬜, and otherwise splitting it gives back exactly the grid lines of the message, in message order. |
| ScoreParser.GameNumberOf | score_parser.py:22-23 | A game number token without a comma reads as the value of its digits. `ScoreParser.GameNumberWithComma` covers the comma case. |
| ScoreParser.GameNumberWithComma | score_parser.py:22-23 | A game number written `d1,d2` is read as the digits `d1d2`. |
| ScoreParser.WordleOf | score_parser.py:21-56 | `X` gives 7 attempts and unsolved. A digit gives its own value and solved exactly when at most 6. A lower-case `x` raises `ValueError`. Skill and luck are present together or absent together. |
| ScoreParser.ParseWordle | score_parser.py:14-56 | `None` exactly when the pattern matches nowhere. Otherwise the attempts character sits right before `/6` and decides attempts and solved. Hard mode holds exactly when `*` follows `/6`. Skill and luck are present exactly when the skill/luck line matches, and are then its two numbers. The grid is the message's grid. |
| ConnectionsScoring.GuessOf | score_parser.py:81-90 | A blank line gives no guess. A stripped line of four equal symbols gives that symbol. Any other non-blank line gives `X`. |
| ConnectionsScoring.ExtractGuesses | score_parser.py:81-90 | One guess per non-blank line. `ConnectionsScoring.GuessPerLine` gives each guess's value. |
| ConnectionsScoring.ExtractGuessesAppend | score_parser.py:81-90 | Extraction distributes over concatenation, so each line contributes independently and in order. |
| ConnectionsScoring.GuessPerLine | score_parser.py:81-90 | The `k`-th extracted guess is the guess of the `k`-th non-blank line. |
| ScoreParser.ParseConnections | score_parser.py:58-99 | A first line that strips to anything but `Connections` gives `None`. Exactly a one-line `Connections` message raises `IndexError`. A result exists exactly when line 2 has `Puzzle #` with digits. Then the guesses come from the later lines, their count is the number of non-blank later lines, and the score is `ScoreOf` of them. |
| ConnectionsScoring.FirstCorrect | score_parser.py:120-126 | The first solved colour, which precedes every other solved guess, or none when no guess is a colour. |
| ConnectionsScoring.ScoreOf | score_parser.py:101-154 | The total is order bonus plus category points plus (5 on a clean four, otherwise minus the mistakes). Purple-first and blue-first exclude each other. Finished holds exactly at four correct. The guess count is the list length. |
| ConnectionsScoring.CalculateConnectionsScore | score_parser.py:101-154 | The two-pass loop computes exactly `ScoreOf`. |
| ConnectionsScoring.TallyGuesses | score_parser.py:120-126 | The first pass finds the first solved colour, counts the solved groups and counts the `X` mistakes, as the recursive definitions do. |
| ConnectionsScoring.SumBasePoints | score_parser.py:135-137 | The second pass sums the base points of the solved lines only. |
| ConnectionsScoring.ScoreBounds | score_parser.py:128-142 | The total lies between correct minus mistakes and four per correct guess plus 7. |
| ConnectionsScoring.CleanSweep | score_parser.py:128-142 | Four distinct colours with no miss: finished, and 15 plus the order bonus (15 to 17). |
| ConnectionsScoring.WorkedExample | score_parser.py:111-144 | Purple, green, yellow, blue scores 17 and is finished with purple first. |
| ScoreParser.RevealSequence | score_parser.py:163 | `re.findall` of the three squares: only 🟥, 🟩 and ⬛ are kept, and a character is kept exactly when it is one of these and occurs in the message. |
| ScoreParser.RevealSequenceAppend | score_parser.py:163 | The squares of a concatenation are those of the first part followed by those of the second, so message order is kept. |
| ScoreParser.IndexOf | score_parser.py:167 | `list.index`: the first occurrence, or none exactly when the element is absent. |
| ScoreParser.FramedPoints | score_parser.py:175 | Points are always in {0,10,20,40,60,80,100}. They are positive exactly for 1 to 6 attempts, `120 - 20a` up to 5, and 10 at 6. |
| ScoreParser.FramedPointsMonotone | score_parser.py:175 | Fewer attempts never earn fewer points. |
| ScoreParser.ParseFramed | score_parser.py:156-182 | Never raises, and `None` exactly without a header. Solved exactly when a 🟩 appears, and then attempts is the 1-based position of the first 🟩. Otherwise attempts is the number of squares and the score is 0. A solve scores the Framed points of its attempts, so the score is positive exactly for a solve within 6. |
| ScoreParser.ClockSeconds | score_parser.py:196-199 | The seconds lie within 100 above 60 times the minutes, and never exceed `99:99`. `ScoreParser.ClockRoundTrip` recovers both fields from them. |
| ScoreParser.ClockRoundTrip | score_parser.py:196-199 | Dividing the seconds by 60 gives back the minutes, and the remainder the seconds, whenever the seconds field is below 60. |
| ScoreParser.ParseGisnep | score_parser.py:184-206 | Never raises. A result exists exactly when both the time and the `No.` number match. The completion time is 60 times the minutes plus the seconds, even for a seconds field of 60 to 99, and for a well-formed clock it gives back the minutes and the seconds. |
| ScoreParser.BandlePoints | score_parser.py:224 | Points are at most 6, and at most 5 for at least one attempt. Attempts plus points make 6 for a solve within 6. Unsolved, or 6 attempts or more, earns 0. |
| ScoreParser.BandleOf | score_parser.py:216-228 | `X` gives unsolved with maximum plus one attempts and score 0. A digit gives its value. Lower-case `x` raises `ValueError`. A missing bonus line gives 0/0. |
| ScoreParser.BonusNeverScores | score_parser.py:224-228 | The bonus line never changes the score, the attempts or the solved flag. |
| ScoreParser.ParseBandle | score_parser.py:208-237 | `None` exactly when the pattern matches nowhere. Otherwise it raises exactly on a lower-case `x`. The game number comes from the leftmost match. Solved holds exactly when the attempt is not `X`, and then attempts is its digit; `X` gives the maximum plus one. The score is the Bandle points (0 to 6). The bonus fields are the bonus line's numbers, or 0/0 without one. |
| ScoreParser.IsWordleMessage | score_parser.py:251-253 | `wordle` occurs in the lower-cased message and the Wordle pattern matches. `ScoreParser.AnchorsAreImplied` shows that the pattern alone decides. |
| ScoreParser.IsConnectionsMessage | score_parser.py:255-257 | `connections` occurs in the lower-cased message and the Connections pattern matches. |
| ScoreParser.IsFramedMessage | score_parser.py:247-249 | `framed` occurs in the lower-cased message and the Framed pattern matches. |
| ScoreParser.IsGisnepMessage | score_parser.py:243-245 | `#gisnep` occurs in the lower-cased message and the Gisnep pattern matches. |
| ScoreParser.IsBandleMessage | score_parser.py:239-241 | `bandle` occurs in the lower-cased message and the Bandle pattern matches. |
| ScoreParser.AnchorsAreImplied | score_parser.py:239-257 | Each recogniser holds exactly when its pattern matches: the lower-case anchor word is implied by the pattern. |
| ScoreParser.RecognisedMeansParsed | score_parser.py:239-257 | A message is recognised as Wordle, Framed or Bandle exactly when the matching parser does not return `None`. A Gisnep message parses exactly when it is also numbered. |
| Database.AttemptScore | database.py:66-77 | The tier is always one of 0, 20, ..., 100. It is positive exactly for 1 to 5 guesses, and then equals `120 - 20a`. |
| Database.AttemptScoreMonotone | database.py:66-77 | Fewer guesses never earn a lower tier. |
| Database.SixthGuessEarnsNothing | database.py:66-77 | A sixth-guess solve and the failure sentinel 7 both earn 0. |
| Database.WordleTotal | database.py:79-83 | Total minus skill plus luck is the tier, with a missing reading counted as 0. |
| Database.MissingReadingIsZero | database.py:79-81 | A missing skill or luck scores exactly like a reading of 0. |
| Database.WordleTotalExamples | database.py:83 | 3 guesses, skill 40, luck 10 give 90. A failure with skill 20 and luck 50 gives -30. |
| Database.SaveWordle | database.py:63-92 | Exactly one row is appended. Earlier rows and the other table are untouched. The new row holds skill and luck with missing readings as 0, and skill plus tier minus luck. |
| Database.SaveConnections | database.py:109-118 | Exactly one row with the given fields is appended; nothing else changes. |
| Database.ResubmissionIsKept | database.py:87-90 | Saving the same Wordle twice leaves two identical rows. |
| Database.Initialize | database.py:56-58 | Missing rows start at 0 and existing rows keep their value. |
| Database.InitializeIdempotent | database.py:56-58 | Initialising twice is the same as once. |
| Database.GetLatest | database.py:373-383 | The row's value, or 0 when the row is missing. |
| Database.UpdateLatest | database.py:385-394 | Only the targeted row changes, to exactly the new value, even a smaller one. A missing row stays missing. |
| Database.UpdateThenGet | database.py:373-394 | Reading back an update returns the written number. |
| Database.SharedRowFor | database.py:377-380 | The Wordle row is chosen exactly for the game named `Wordle`. |
| Roles.MembersWithRole | role_manager.py:4-6 | Exactly the guild members holding the role. Nobody when the role does not exist. |
| Roles.AssignRole | role_manager.py:15-20 | Answers `True` exactly when the role exists, and then the member holds it in addition to the earlier holders. |
| Roles.RemoveRole | role_manager.py:8-13 | Answers `True` exactly when the member holds the existing role, and then only that member loses it. Otherwise nothing changes. |
| Roles.RevokeAll | role_manager.py:33-35 | After the loop, exactly the holders outside the member list keep the role. |
| Roles.RoleAssignment | role_manager.py:22-42 | A newer game leaves only the submitter as holder. The same game adds the submitter. An older game changes nothing and answers `False`. The answer is `True` exactly when the role exists and the game is not older. |
| Roles.HandleGameRoleAssignment | role_manager.py:22-42 | Revoking every listed holder and then granting computes `RoleAssignment`, given that every holder is a guild member. |
| Roles.SameGameAccumulates | role_manager.py:31-40 | A new record followed by a second submission of the same game leaves exactly the two submitters as holders. |
| Games.RegistryIsComplete | game_config.py:8-74 | Every game is configured exactly once, and distinct games have distinct names. |
| Bot.FirstMatch | main_bot.py:54-60 | The position of the first game the acceptance test holds for; no earlier game passes it. None means no game passes it. |
| Bot.Dispatch | main_bot.py:44-63 | The handling game recognises the message and comes after only games that do not. No game is chosen exactly when no game recognises it, and then command processing follows. |
| Bot.WordleComesFirst | main_bot.py:54-60 | A message Wordle recognises is always handled as Wordle. |
| Bot.Classify | role_manager.py:31-42 | Newer, same and older numbers give NewRecord, Current and Stale respectively. |
| Bot.Save | main_bot.py:86-105 | The save is chosen by the game key. A Wordle record is saved by `SaveWordle` with the record's number, attempts, skill and luck. A Connections record is saved by `SaveConnections` with its puzzle number, total, guess count and order flags. Each adds one row to its own table. Any other game leaves both tables unchanged. |
| Bot.Start | database.py:56-58 | After start-up every game's latest row exists, and existing rows are kept. |
| Bot.Track | main_bot.py:110-121 | The classification is made against the latest number read before the update. A stale number changes nothing. Otherwise the latest number becomes the submitted one. A new record leaves only the submitter holding the role, and a current one adds the submitter. A game without a role keeps having none. Other games are untouched. |
| Bot.HandleGameMessage | main_bot.py:65-105 | A `None` parse or a crash changes nothing. A parsed record is saved by `Save`. The latest numbers, roles and outcome are exactly those of tracking from the state before this message. |
| Bot.OnMessage | main_bot.py:44-63 | Bot messages are ignored and unrecognised ones are not games; either way nothing changes. A recognised message is handled by `HandleGameMessage` for the game `Dispatch` picks. Any non-recorded outcome leaves the state unchanged. Latest numbers never decrease. Tables change only for Wordle or Connections. |
| Bot.LatestNeverDecreases | main_bot.py:116-118 | Over any sequence of messages, no game's latest number ever decreases. |
| Bot.TrackerScenario | role_manager.py:31-42 | From latest 149: a 150 makes Alice sole holder, a second 150 adds Bob, and a 148 changes nothing. |
| Bot.HandleAsWritten | main_bot.py:65-121 | As wired, a `None` parse or a crash changes nothing and reports the failure. A parsed Framed, Gisnep or Bandle record raises `KeyError` after its save. A Wordle or Connections record at least as new as the shared row updates the row and then raises `TypeError`. Roles never change. |
| Bot.OnMessageAsWritten | main_bot.py:44-63 | As wired, bot messages are ignored and unrecognised ones are not games, with nothing changed. A recognised message goes to `HandleAsWritten` for the game `Dispatch` picks. Roles never change. |
| Bot.AsWrittenNeverAssignsRoles | main_bot.py:121 | As wired, no sequence of messages ever changes a role. |
| Database.SharedRowLeaks | database.py:385-394 | With the shared row, a Framed update moves the number read for Connections. |
| Database.PerGameIsolated | database.py:385-394 | With one row per game, updating one game never moves another's number. |
| Legacy.ChannelMax | spellbot.py:73-114 | The channel maximum bounds the number of every matching message, and is 0 or the number of some matching message. |
| Legacy.HistoryMax | spellbot.py:79-92 | The scan loop computes exactly the channel maximum. |
| Legacy.OwnMessageInHistory | spellbot.py:163-172 | A submission already in the scanned history never exceeds the maximum, so `>=` holds only on equality. |
| Legacy.WordleNumberIn | spellbot.py:31 | A message counts for the Wordle scan exactly when the legacy Wordle pattern (a single digit before `/6`) matches. Its number is the matched token read with any comma dropped. |
| Legacy.PuzzleNumberIn | spellbot.py:104-109 | A message counts for the Connections scan exactly when it contains `Connections` and `Puzzle #` followed by digits. Its number is the value of those digits. |
| Legacy.LegacyParseConnections | spellbot.py:285-307 | The same header gate and `IndexError` as the current parser. It yields a result exactly when line 2 contains `Puzzle #`, with the placeholder `Unknown` exactly when no digits follow. The guesses use the current rule. |
| Legacy.ProcessConnections | spellbot.py:213-230 | A placeholder puzzle number is rejected, and every accepted number comes from digits. |
| Legacy.LegacyParserAgrees | spellbot.py:218-230 | The legacy and current parsers accept, reject and raise on the same messages, with the same puzzle number and guesses. |
| Legacy.LegacyCalculateConnectionsScore | spellbot.py:309-348 | Agrees with the current scorer on the total, the guess count and both order flags. Finished holds exactly at four or more correct. |
| Legacy.FinishedFlagsAgree | spellbot.py:345-346 | The legacy and current finished flags agree exactly when at most four groups were solved. |
| Legacy.FinishedFlagsDiffer | spellbot.py:319-346 | Five solved purple lines count as finished for the legacy scorer but not for the current one. |
| Legacy.LegacyRoleReset | spellbot.py:172-180 | A game at least as new as the channel maximum, including an equal one, leaves only the submitter holding the role. An older game changes nothing. |
| Legacy.EqualityResetsOnlyInLegacy | spellbot.py:172-180 | On a repeat of the latest game the legacy rule evicts earlier holders, while `RoleAssignment` keeps them. |
| Legacy.LegacyDispatch | spellbot.py:198-211 | Wordle is chosen exactly when `wordle` occurs case-insensitively. Connections is chosen exactly when `connections` occurs and `wordle` does not. Otherwise nothing is chosen. |
| Legacy.LegacyDispatchCovers | spellbot.py:205-209 | Every message the current bot hands to Wordle goes to Wordle in the legacy bot too. A message the current bot hands to Connections goes to some game. |

## Left out

- The Discord side of the bot is not modelled. This covers:
  - the event loop and intents;
  - channel and role lookup by name;
  - sending replies and introductions;
  - `bot.run`.

  The guild's members and a role's holders are parameters instead.
- SQLite connections and every SQL aggregation are not modelled. This covers:
  - leaderboards;
  - weekly and monthly windows, which depend on the clock;
  - recent-score queries.

  Each is a query over stored rows and holds no scoring logic.
- The timestamp column and the autoincrement id are not modelled. A table is
  a sequence of rows in insertion order.
- `save_user_role`, `get_expired_roles` and `delete_expired_roles`
  (database.py:292-326) are left out. They call the undefined
  `get_db_connection` and `cet_timezone`, so they cannot run.
- Scheduled weekly and monthly posts and the time-zone handling are left
  out: they depend on the clock.
- Acknowledgement and introduction message builders are left out. They only
  format text.
- game_config.py is modelled only as the order in which games are tried. As
  written it has a syntax error, a missing comma after line 34. It also
  refers to `save_framed_score`, `save_gisnep_score`, `save_bandle_score` and
  leaderboard functions that database.py does not define. So the non-Wordle
  and non-Connections games have no save step here.
- Concurrency between message handlers is not modelled. Messages are handled
  one at a time, in arrival order.
- Regular expressions are not interpreted in general. Each pattern is a
  scanner written for that pattern. The scanners use these readings:
  - Case-insensitivity covers ASCII letters only. Python also folds other
    scripts. Under Python's folding, `GISNEP_PATTERN` matches `#Gısnep`
    (dotless ı), but the `lower()` anchor of `is_gisnep_message` does not
    find `#gisnep` in it. So `ScoreParser.AnchorsAreImplied` and
    `ScoreParser.RecognisedMeansParsed` hold for Gisnep only under the ASCII
    reading.
  - `\d` is an ASCII digit. Python also accepts other Unicode decimal digits,
    and so does `int()`.
  - `\s` is the ASCII whitespace set plus the Unicode spaces Python treats
    as whitespace. The list is in `Text.IsSpace`.
- The legacy history scans read at most 200 messages. The model scans the
  whole sequence it is given, so the caller supplies the truncated history.
- The `len(parts) != 2` branch of `parse_gisnep_score` is left out. The
  pattern always captures exactly one colon, so that branch cannot run.
- The legacy `handle_game_message` (spellbot.py:116-196) is modelled only in
  its parts:
  - the history scans;
  - the Connections parse and score;
  - the `>=` role reset;
  - dispatch.

  Its replies and its duplicate Connections save are left out.
- The score tables declare `game_number` and `puzzle_number` as `TEXT`
  columns (database.py:17 and 32). The model stores them as `nat`, the value
  the parsers compute, so SQLite's storage of those columns as text is not
  modelled. The latest-number row is `INTEGER` and is a `nat` here too.
- The log `print` calls of `on_message` and of the parsers are left out.
  They only write to the console.
- score_parser.py:80 reads `guesses =` with nothing after it. The model
  starts the list empty, as the legacy copy at spellbot.py:295 does.

## Findings

| source | as written | input that shows it | evidently intended | confidence | as-written member | corrected member |
|---|---|---|---|---|---|---|
| main_bot.py:121 | `handle_game_role_assignment(guild, member, game_config)` passes 3 of the 5 parameters (role_manager.py:22-28), so it raises `TypeError`. The latest number was already updated at line 118, so no role is ever granted or revoked. | any Wordle result at least as new as the stored latest number, e.g. `Wordle 1,234 3/6` with latest 0 | pass the current number and the latest number read before the update, and apply the three-way rule | high (not executed) | Bot.AsWrittenNeverAssignsRoles | Bot.Track |
| main_bot.py:111 | every non-Wordle game reads `game_info["puzzle_number"]`, but Framed, Gisnep and Bandle records only carry `game_number` (score_parser.py:177-237), so it raises `KeyError` | `Framed #900` with 🟥🟩 | read each game's own number field | high (not executed) | Bot.HandleAsWritten | Bot.HandleGameMessage |
| database.py:377-392 | every game type other than `"Wordle"` reads and writes the Connections latest row | a Framed result numbered 900 after Connections puzzle 300 moves the Connections latest number to 900 | one latest row per game | medium (not executed) | Database.SharedRowLeaks | Database.PerGameIsolated |

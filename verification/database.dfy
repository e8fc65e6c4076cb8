/**
 * The scoring and storage rules of the SQLite layer: the Wordle tier table
 * and total, the two append-only score tables, and the one-row-per-game
 * "latest game number" store.
 */
module Database {
  import opened Common
  import opened Games

  // ----------------------------------------------------- Wordle scoring

  /** Tier points for a Wordle: 1 guess 100, down by 20 per guess to 5 guesses; 6, failures and anything else 0. */
  function AttemptScore(attempts: int): (s: nat)
    ensures s in {0, 20, 40, 60, 80, 100}
    ensures s > 0 <==> 1 <= attempts <= 5
    ensures s > 0 ==> s + 20 * attempts == 120
  {
    if attempts == 1 then 100
    else if attempts == 2 then 80
    else if attempts == 3 then 60
    else if attempts == 4 then 40
    else if attempts == 5 then 20
    else 0
  }

  /** Fewer guesses never earn fewer tier points. */
  lemma AttemptScoreMonotone(a: int, b: int)
    requires 1 <= a <= b
    ensures AttemptScore(a) >= AttemptScore(b)
  {
  }

  /** A solve on the sixth guess earns no more than a failure (the sentinel 7). */
  lemma SixthGuessEarnsNothing()
    ensures AttemptScore(6) == AttemptScore(7) == 0
  {
  }

  /** The stored total: skill plus tier points minus luck, a missing skill or luck counting as 0. */
  function WordleTotal(attempts: int, skill: Option<int>, luck: Option<int>): (total: int)
    ensures total - skill.GetOr(0) + luck.GetOr(0) == AttemptScore(attempts)
    ensures skill.None? && luck.None? ==> total == AttemptScore(attempts)
  {
    skill.GetOr(0) + AttemptScore(attempts) - luck.GetOr(0)
  }

  /** A missing skill or luck reading scores exactly like a reading of 0. */
  lemma MissingReadingIsZero(attempts: int, skill: Option<int>, luck: Option<int>)
    ensures WordleTotal(attempts, skill, None) == WordleTotal(attempts, skill, Some(0))
    ensures WordleTotal(attempts, None, luck) == WordleTotal(attempts, Some(0), luck)
  {
  }

  /** Worked examples: 3 guesses with skill 40 and luck 10 total 90; a failure with more luck than skill goes negative. */
  lemma WordleTotalExamples()
    ensures WordleTotal(3, Some(40), Some(10)) == 90
    ensures WordleTotal(7, Some(20), Some(50)) == -30
    ensures WordleTotal(1, None, None) == 100
  {
  }

  // --------------------------------------------------- the score tables

  datatype WordleRow = WordleRow(
    userId: int,
    displayName: string,
    gameNumber: nat,
    attempts: nat,
    skill: int,
    luck: int,
    totalScore: int)

  datatype ConnectionsRow = ConnectionsRow(
    userId: int,
    displayName: string,
    puzzleNumber: nat,
    totalScore: int,
    guesses: nat,
    purpleFirst: bool,
    blueFirst: bool)

  /** The two score tables, oldest row first. */
  datatype Tables = Tables(wordle: seq<WordleRow>, connections: seq<ConnectionsRow>)

  /**
   * `save_wordle_score`: the table's only key is its autoincrement id, so
   * `INSERT OR REPLACE` never replaces and always appends one row, whose
   * skill and luck have had a missing reading replaced by 0.
   */
  function SaveWordle(db: Tables, userId: int, name: string, gameNumber: nat, attempts: nat,
                      skill: Option<int>, luck: Option<int>): (db': Tables)
    ensures |db'.wordle| == |db.wordle| + 1
    ensures db'.wordle[..|db.wordle|] == db.wordle
    ensures db'.connections == db.connections
    ensures var row := db'.wordle[|db.wordle|];
      && row.userId == userId && row.displayName == name
      && row.gameNumber == gameNumber && row.attempts == attempts
      && Some(row.skill) == (if skill.None? then Some(0) else skill)
      && Some(row.luck) == (if luck.None? then Some(0) else luck)
      && row.totalScore == row.skill + AttemptScore(attempts) - row.luck
  {
    var s := skill.GetOr(0);
    var l := luck.GetOr(0);
    db.(wordle := db.wordle + [WordleRow(userId, name, gameNumber, attempts, s, l, WordleTotal(attempts, skill, luck))])
  }

  /** `save_connections_score`: a plain `INSERT`, one row appended. */
  function SaveConnections(db: Tables, userId: int, name: string, puzzleNumber: nat, totalScore: int,
                           guesses: nat, purpleFirst: bool, blueFirst: bool): (db': Tables)
    ensures |db'.connections| == |db.connections| + 1
    ensures db'.connections[..|db.connections|] == db.connections
    ensures db'.wordle == db.wordle
    ensures db'.connections[|db.connections|] ==
      ConnectionsRow(userId, name, puzzleNumber, totalScore, guesses, purpleFirst, blueFirst)
  {
    db.(connections := db.connections + [ConnectionsRow(userId, name, puzzleNumber, totalScore, guesses, purpleFirst, blueFirst)])
  }

  /** Saving the same Wordle twice keeps both rows: nothing is deduplicated. */
  lemma ResubmissionIsKept(db: Tables, userId: int, name: string, gameNumber: nat, attempts: nat,
                           skill: Option<int>, luck: Option<int>)
    ensures var once := SaveWordle(db, userId, name, gameNumber, attempts, skill, luck);
      var twice := SaveWordle(once, userId, name, gameNumber, attempts, skill, luck);
      |twice.wordle| == |db.wordle| + 2 && twice.wordle[|db.wordle|] == twice.wordle[|db.wordle| + 1]
  {
  }

  // ------------------------------------------- the latest-number store

  /**
   * A store of latest game numbers, one row per key; a key missing from the
   * map is a row that does not exist. Written generically so that the same
   * operations serve the two-row store of the source (`LatestRow`) and the
   * one-row-per-game store (`Game`).
   */
  type LatestStore<K> = map<K, int>

  /** `INSERT OR IGNORE ... VALUES (1, 0)` for each row: missing rows start at 0, existing rows are kept. */
  function Initialize<K>(m: LatestStore<K>, rows: set<K>): (m': LatestStore<K>)
    ensures m'.Keys == m.Keys + rows
    ensures forall k :: k in m ==> m'[k] == m[k]
    ensures forall k :: k in rows && k !in m ==> m'[k] == 0
  {
    map k | k in m.Keys + rows :: if k in m then m[k] else 0
  }

  /** Starting the bot again never resets a latest number. */
  lemma InitializeIdempotent<K>(m: LatestStore<K>, rows: set<K>)
    ensures Initialize(Initialize(m, rows), rows) == Initialize(m, rows)
  {
  }

  /** `SELECT ... WHERE id = 1`: the row's value, or 0 when the row is missing. */
  function GetLatest<K>(m: LatestStore<K>, k: K): (n: int)
    ensures k in m ==> n == m[k]
    ensures k !in m ==> n == 0
  {
    if k in m then m[k] else 0
  }

  /** `UPDATE ... WHERE id = 1`: overwrites the row with no guard of its own; a missing row stays missing. */
  function UpdateLatest<K>(m: LatestStore<K>, k: K, n: int): (m': LatestStore<K>)
    ensures m'.Keys == m.Keys
    ensures k in m ==> m'[k] == n
    ensures forall j :: j in m && j != k ==> m'[j] == m[j]
  {
    if k in m then m[k := n] else m
  }

  /** Reading back an update returns what was written, even a smaller number. */
  lemma UpdateThenGet<K>(m: LatestStore<K>, k: K, n: int)
    requires k in m
    ensures GetLatest(UpdateLatest(m, k, n), k) == n
  {
  }

  // ----------------------------------------------------- row routing

  /** The two latest-number rows the source keeps. */
  datatype LatestRow = WordleLatest | ConnectionsLatest

  /** `if game_type == "Wordle" ... else  # Connections`: every other game shares the Connections row. */
  function SharedRowFor(g: Game): (row: LatestRow)
    ensures row == WordleLatest <==> Name(g) == "Wordle"
  {
    if Name(g) == "Wordle" then WordleLatest else ConnectionsLatest
  }

  const AllRows: set<LatestRow> := {WordleLatest, ConnectionsLatest}

  /** With the shared row, a Framed result moves the Connections latest number. */
  lemma SharedRowLeaks(m: LatestStore<LatestRow>, n: int)
    requires ConnectionsLatest in m
    ensures GetLatest(UpdateLatest(m, SharedRowFor(Framed), n), SharedRowFor(Connections)) == n
  {
  }

  /** With one row per game, updating one game never moves another's latest number. */
  lemma PerGameIsolated(m: LatestStore<Game>, g: Game, h: Game, n: int)
    requires g != h
    ensures GetLatest(UpdateLatest(m, g, n), h) == GetLatest(m, h)
  {
  }
}

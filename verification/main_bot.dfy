/**
 * The message pipeline of the bot: offer an incoming message to the games in
 * configuration order, parse it with the first game that recognises it,
 * save the score, and move the game's latest number and player role.
 *
 * `OnMessage` is the pipeline with the defects listed under Findings in
 * the README corrected (one latest-number row per game, every game's
 * number read from its own record, the role rule given both numbers, the
 * classification made against the latest number before the update). `OnMessageAsWritten` is the pipeline as the
 * source wires it, with its shared latest row, its `puzzle_number` lookup
 * for every non-Wordle game and its three-argument role call.
 */
module Bot {
  import opened Common
  import opened Games
  import opened ScoreParser
  import opened Database
  import opened Roles

  // ------------------------------------------------------ configuration

  /** The `is_game_message` entry of each game's configuration. */
  predicate IsGameMessage(g: Game, t: string) {
    match g
    case Wordle => IsWordleMessage(t)
    case Connections => IsConnectionsMessage(t)
    case Framed => IsFramedMessage(t)
    case Gisnep => IsGisnepMessage(t)
    case Bandle => IsBandleMessage(t)
  }

  /** A parsed record of any game. */
  datatype GameResult =
    | WordleGame(wordle: WordleResult)
    | ConnectionsGame(connections: ConnectionsResult)
    | FramedGame(framed: FramedResult)
    | GisnepGame(gisnep: GisnepResult)
    | BandleGame(bandle: BandleResult)

  function Lift<T>(p: Parse<T>, wrap: T -> GameResult): (r: Parse<GameResult>)
    ensures r.Parsed? <==> p.Parsed?
    ensures r.Parsed? ==> r.value == wrap(p.value)
    ensures r.NoResult? <==> p.NoResult?
    ensures r.Crash? ==> p.Crash? && r.fault == p.fault
  {
    match p
    case Parsed(v) => Parsed(wrap(v))
    case NoResult => NoResult
    case Crash(f) => Crash(f)
  }

  /** The `parse_function` entry of each game's configuration. */
  function ParseFor(g: Game, t: string): Parse<GameResult> {
    match g
    case Wordle => Lift(ParseWordle(t), w => WordleGame(w))
    case Connections => Lift(ParseConnections(t), c => ConnectionsGame(c))
    case Framed => Lift(ParseFramed(t), f => FramedGame(f))
    case Gisnep => Lift(ParseGisnep(t), x => GisnepGame(x))
    case Bandle => Lift(ParseBandle(t), b => BandleGame(b))
  }

  /** The number a record is tracked by: the game number, or the puzzle number for Connections. */
  function NumberOf(res: GameResult): nat {
    match res
    case WordleGame(w) => w.gameNumber
    case ConnectionsGame(c) => c.puzzleNumber
    case FramedGame(f) => f.gameNumber
    case GisnepGame(x) => x.gameNumber
    case BandleGame(b) => b.gameNumber
  }

  // ------------------------------------------------------------ dispatch

  /** The position of the first game of `gs` that `accepts`. */
  function FirstMatch(gs: seq<Game>, accepts: Game -> bool): (r: Option<nat>)
    ensures r.Some? ==> r.value < |gs| && accepts(gs[r.value])
    ensures r.Some? ==> forall j :: 0 <= j < r.value ==> !accepts(gs[j])
    ensures r.None? ==> forall j :: 0 <= j < |gs| ==> !accepts(gs[j])
    decreases |gs|
  {
    if |gs| == 0 then None
    else if accepts(gs[0]) then Some(0)
    else match FirstMatch(gs[1..], accepts)
      case None => None
      case Some(i) => Some(i + 1)
  }

  /**
   * `on_message`'s loop over the configuration: the first game, in
   * configuration order, whose recogniser accepts the message handles it;
   * no game at all means the message goes on to command processing.
   */
  function Dispatch(t: string): (r: Option<Game>)
    ensures r.Some? ==> IsGameMessage(r.value, t)
    ensures r.Some? ==> exists i :: 0 <= i < |Registry| && Registry[i] == r.value &&
                                   (forall j :: 0 <= j < i ==> !IsGameMessage(Registry[j], t))
    ensures r.None? <==> forall g: Game :: !IsGameMessage(g, t)
  {
    RegistryIsComplete();
    var accepts := (g: Game) => IsGameMessage(g, t);
    assert forall g: Game :: accepts(g) == IsGameMessage(g, t);
    match FirstMatch(Registry, accepts)
    case None => None
    case Some(i) => Some(Registry[i])
  }

  /** A Wordle result is never taken for another game, whatever else the message holds. */
  lemma WordleComesFirst(t: string)
    ensures IsWordleMessage(t) ==> Dispatch(t) == Some(Wordle)
  {
    if IsWordleMessage(t) {
      assert IsGameMessage(Registry[0], t);
    }
  }

  // ------------------------------------------------------------ the state

  /** A chat message as the bot sees it. */
  datatype Submission = Submission(user: UserId, displayName: string, fromBot: bool, text: string)

  /**
   * The bot's persistent state: the score tables, the latest-number rows
   * keyed by `K`, and the holders of each game's player role (a game with no
   * entry has no such role in the guild).
   */
  datatype State<K> = State(tables: Tables, latest: LatestStore<K>, roles: map<Game, set<UserId>>)

  function RoleOf<K>(b: State<K>, g: Game): Role {
    if g in b.roles then Some(b.roles[g]) else None
  }

  function WithRole<K>(b: State<K>, g: Game, role: Role): (b': State<K>)
    ensures b'.tables == b.tables && b'.latest == b.latest
    ensures RoleOf(b', g) == (if role.Some? then role else RoleOf(b, g))
    ensures forall h :: h != g ==> RoleOf(b', h) == RoleOf(b, h)
  {
    if role.Some? then b.(roles := b.roles[g := role.value]) else b
  }

  /** What one message did. */
  datatype Classification = NewRecord | Current | Stale

  datatype Outcome =
    | Ignored
    | NotAGame
    | ParseFailed(game: Game)
    | Crashed(game: Game, fault: Fault)
    | Recorded(game: Game, number: nat, cls: Classification, granted: bool)

  /** A submitted number against the latest one: newer, the same, or older. */
  function Classify(current: int, latest: int): (c: Classification)
    ensures c == NewRecord <==> current > latest
    ensures c == Current <==> current == latest
    ensures c == Stale <==> current < latest
  {
    if current > latest then NewRecord else if current == latest then Current else Stale
  }

  /**
   * The save step of `handle_game_message`, chosen by the game: only Wordle
   * and Connections have a save call, each appending to its own table.
   */
  function Save(db: Tables, s: Submission, g: Game, res: GameResult): (db': Tables)
    ensures g == Wordle && res.WordleGame? ==> |db'.wordle| == |db.wordle| + 1 && db'.connections == db.connections
    ensures g == Connections && res.ConnectionsGame? ==> |db'.connections| == |db.connections| + 1 && db'.wordle == db.wordle
    ensures g != Wordle && g != Connections ==> db' == db
    ensures g == Wordle && res.WordleGame? ==>
      var w := res.wordle;
      db' == SaveWordle(db, s.user, s.displayName, w.gameNumber, w.attempts, w.skill, w.luck)
    ensures g == Connections && res.ConnectionsGame? ==>
      var c := res.connections;
      db' == SaveConnections(db, s.user, s.displayName, c.puzzleNumber, c.score.totalScore,
                             c.score.numGuesses, c.score.purpleFirst, c.score.blueFirst)
  {
    match (g, res)
    case (Wordle, WordleGame(w)) =>
      SaveWordle(db, s.user, s.displayName, w.gameNumber, w.attempts, w.skill, w.luck)
    case (Connections, ConnectionsGame(c)) =>
      SaveConnections(db, s.user, s.displayName, c.puzzleNumber, c.score.totalScore,
                      c.score.numGuesses, c.score.purpleFirst, c.score.blueFirst)
    case _ => db
  }

  // ------------------------------------------------- the intended pipeline

  /** On start-up every game's latest row exists, at 0 unless it was already there. */
  function Start(b: State<Game>): (b': State<Game>)
    ensures forall g: Game :: g in b'.latest
    ensures forall g :: g in b.latest ==> b'.latest[g] == b.latest[g]
  {
    RegistryIsComplete();
    b.(latest := Initialize(b.latest, set g: Game | g in Registry))
  }

  /**
   * The tracker step of a parsed record: read the game's latest number; if
   * the record is not older, raise the latest number to it and apply the
   * role rule with the number read before the update.
   */
  function Track(b: State<Game>, user: UserId, g: Game, n: nat): (r: (State<Game>, Outcome))
    ensures r.0.tables == b.tables
    ensures r.0.latest.Keys == b.latest.Keys
    ensures forall h :: h in b.latest && h != g ==> r.0.latest[h] == b.latest[h]
    ensures forall h :: h != g ==> RoleOf(r.0, h) == RoleOf(b, h)
    ensures g in b.latest ==> r.0.latest[g] == if n >= b.latest[g] then n else b.latest[g]
    ensures r.1.Recorded? && r.1.game == g && r.1.number == n
    ensures r.1.cls == Classify(n, GetLatest(b.latest, g))
    ensures r.1.cls == Stale ==> r.0 == b
    ensures r.1.cls == NewRecord && g in b.roles ==> RoleOf(r.0, g) == Some({user})
    ensures r.1.cls == Current && g in b.roles ==> RoleOf(r.0, g) == Some(b.roles[g] + {user})
    ensures r.1.granted <==> r.1.cls != Stale && g in b.roles
    ensures g !in b.roles ==> RoleOf(r.0, g) == RoleOf(b, g)
  {
    var latest := GetLatest(b.latest, g);
    var cls := Classify(n, latest);
    if n >= latest then
      var (role, ok) := RoleAssignment(RoleOf(b, g), user, n, latest);
      var b' := WithRole(b.(latest := UpdateLatest(b.latest, g, n)), g, role);
      (b', Recorded(g, n, cls, ok))
    else
      (b, Recorded(g, n, cls, false))
  }

  /** `handle_game_message` with its defects corrected: parse, then save, then track. */
  function HandleGameMessage(b: State<Game>, s: Submission, g: Game): (r: (State<Game>, Outcome))
    ensures ParseFor(g, s.text).NoResult? ==> r == (b, ParseFailed(g))
    ensures ParseFor(g, s.text).Crash? ==> r == (b, Crashed(g, ParseFor(g, s.text).fault))
    ensures ParseFor(g, s.text).Parsed? ==>
      var res := ParseFor(g, s.text).value;
      && r.0.tables == Save(b.tables, s, g, res)
      && r.0.latest == Track(b, s.user, g, NumberOf(res)).0.latest
      && r.0.roles == Track(b, s.user, g, NumberOf(res)).0.roles
      && r.1 == Track(b, s.user, g, NumberOf(res)).1
  {
    match ParseFor(g, s.text)
    case NoResult => (b, ParseFailed(g))
    case Crash(f) => (b, Crashed(g, f))
    case Parsed(res) =>
      var db := Save(b.tables, s, g, res);
      TrackIgnoresTables(b, db, s.user, g, NumberOf(res));
      Track(b.(tables := db), s.user, g, NumberOf(res))
  }

  /** Tracking never reads the score tables: it moves the latest numbers and roles alone. */
  lemma TrackIgnoresTables(b: State<Game>, db: Tables, user: UserId, g: Game, n: nat)
    ensures Track(b.(tables := db), user, g, n).0 == Track(b, user, g, n).0.(tables := db)
    ensures Track(b.(tables := db), user, g, n).1 == Track(b, user, g, n).1
  {
  }

  /** `on_message` over the corrected `handle_game_message`. */
  function OnMessage(b: State<Game>, s: Submission): (r: (State<Game>, Outcome))
    ensures s.fromBot ==> r == (b, Ignored)
    ensures !s.fromBot && Dispatch(s.text).None? ==> r == (b, NotAGame)
    ensures !r.1.Recorded? ==> r.0 == b
    ensures r.1.Recorded? || r.1.ParseFailed? || r.1.Crashed? ==> Dispatch(s.text) == Some(r.1.game)
    ensures r.0.latest.Keys == b.latest.Keys
    ensures forall g :: g in b.latest ==> r.0.latest[g] >= b.latest[g]
    ensures r.0.tables != b.tables ==> r.1.Recorded? && (r.1.game == Wordle || r.1.game == Connections)
    ensures !s.fromBot && Dispatch(s.text).Some? ==> r == HandleGameMessage(b, s, Dispatch(s.text).value)
  {
    if s.fromBot then (b, Ignored)
    else match Dispatch(s.text)
      case None => (b, NotAGame)
      case Some(g) =>
        HandleGameMessage(b, s, g)
  }

  /** A run of messages, in arrival order. */
  function Run(b: State<Game>, ss: seq<Submission>): State<Game>
    decreases |ss|
  {
    if |ss| == 0 then b else Run(OnMessage(b, ss[0]).0, ss[1..])
  }

  /** No sequence of messages ever lowers a game's latest number. */
  lemma {:induction false} LatestNeverDecreases(b: State<Game>, ss: seq<Submission>, g: Game)
    requires g in b.latest
    ensures g in Run(b, ss).latest && Run(b, ss).latest[g] >= b.latest[g]
    decreases |ss|
  {
    if |ss| > 0 {
      var b1 := OnMessage(b, ss[0]).0;
      LatestNeverDecreases(b1, ss[1..], g);
    }
  }

  /**
   * An example scenario: with latest 149, game 150 is a new
   * record that leaves its submitter the only holder; a second 150 is
   * current and adds its submitter; a 148 afterwards is stale and changes
   * nothing.
   */
  lemma TrackerScenario(b: State<Game>, alice: UserId, bob: UserId, carol: UserId)
    requires b.latest == map[Wordle := 149] && Wordle in b.roles
    ensures var (b1, o1) := Track(b, alice, Wordle, 150);
      var (b2, o2) := Track(b1, bob, Wordle, 150);
      var (b3, o3) := Track(b2, carol, Wordle, 148);
      && o1.cls == NewRecord && b1.roles[Wordle] == {alice} && b1.latest[Wordle] == 150
      && o2.cls == Current && b2.roles[Wordle] == {alice, bob} && b2.latest[Wordle] == 150
      && o3.cls == Stale && b3 == b2
  {
    var (b1, o1) := Track(b, alice, Wordle, 150);
    var (b2, o2) := Track(b1, bob, Wordle, 150);
    assert {alice} + {bob} == {alice, bob};
  }

  // ------------------------------------------ the pipeline as written

  /**
   * `handle_game_message` as the source wires it: after the save it looks up
   * `"puzzle_number"` in every non-Wordle record (only Connections has one),
   * reads and updates the shared latest row, and then calls the role rule
   * with three arguments where five are needed, which raises `TypeError`
   * once the latest row has already been updated.
   */
  function HandleAsWritten(b: State<LatestRow>, s: Submission, g: Game): (r: (State<LatestRow>, Outcome))
    ensures r.0.roles == b.roles
    ensures ParseFor(g, s.text).NoResult? ==> r == (b, ParseFailed(g))
    ensures ParseFor(g, s.text).Crash? ==> r == (b, Crashed(g, ParseFor(g, s.text).fault))
    ensures ParseFor(g, s.text).Parsed? ==> r.0.tables == Save(b.tables, s, g, ParseFor(g, s.text).value)
    ensures ParseFor(g, s.text).Parsed? && (g == Framed || g == Gisnep || g == Bandle) ==>
      r.1 == Crashed(g, KeyError) && r.0.latest == b.latest
    ensures r.1.Recorded? ==> r.1.cls == Stale && !r.1.granted && r.0.latest == b.latest
    ensures ParseFor(g, s.text).Parsed? && (g == Wordle || g == Connections) ==>
      var n := NumberOf(ParseFor(g, s.text).value);
      var latest := GetLatest(b.latest, SharedRowFor(g));
      (n >= latest ==> r.1 == Crashed(g, TypeError) && r.0.latest == UpdateLatest(b.latest, SharedRowFor(g), n))
      && (n < latest ==> r.1.Recorded?)
  {
    match ParseFor(g, s.text)
    case NoResult => (b, ParseFailed(g))
    case Crash(f) => (b, Crashed(g, f))
    case Parsed(res) =>
      var saved := b.(tables := Save(b.tables, s, g, res));
      if g != Wordle && g != Connections then (saved, Crashed(g, KeyError))
      else
        var n := NumberOf(res);
        var row := SharedRowFor(g);
        var latest := GetLatest(b.latest, row);
        if n >= latest then (saved.(latest := UpdateLatest(b.latest, row, n)), Crashed(g, TypeError))
        else (saved, Recorded(g, n, Stale, false))
  }

  function OnMessageAsWritten(b: State<LatestRow>, s: Submission): (r: (State<LatestRow>, Outcome))
    ensures r.0.roles == b.roles
    ensures s.fromBot ==> r == (b, Ignored)
    ensures !s.fromBot && Dispatch(s.text).None? ==> r == (b, NotAGame)
    ensures !s.fromBot && Dispatch(s.text).Some? ==> r == HandleAsWritten(b, s, Dispatch(s.text).value)
  {
    if s.fromBot then (b, Ignored)
    else match Dispatch(s.text)
      case None => (b, NotAGame)
      case Some(g) => HandleAsWritten(b, s, g)
  }

  /** As written, no message ever grants or revokes a player role. */
  lemma {:induction false} AsWrittenNeverAssignsRoles(b: State<LatestRow>, ss: seq<Submission>)
    ensures RunAsWritten(b, ss).roles == b.roles
    decreases |ss|
  {
    if |ss| > 0 {
      AsWrittenNeverAssignsRoles(OnMessageAsWritten(b, ss[0]).0, ss[1..]);
    }
  }

  function RunAsWritten(b: State<LatestRow>, ss: seq<Submission>): State<LatestRow>
    decreases |ss|
  {
    if |ss| == 0 then b else RunAsWritten(OnMessageAsWritten(b, ss[0]).0, ss[1..])
  }
}

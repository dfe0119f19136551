// The persisted entities (the SQLAlchemy models) and the live-match cache
// entries, with the two stores that hold them: `Database` stands for the
// relational tables, `Cache` for the Redis keys the game and scoring
// services read and write.

module Models {
  import opened Common

  type UserId = int
  type GameId = int
  type TeamId = int
  type QuestionId = int

  /** `start_game` draws this many questions; `check_and_advance_question`
      finishes the game once the cursor is at the last of them. */
  const QUESTIONS_PER_GAME: nat := 5
  const LAST_QUESTION_INDEX: nat := 4

  /** The status string written into a live session blob. */
  const IN_PROGRESS: string := "in_progress"

  datatype GameStatus = Waiting | InProgress | Finished | Cancelled

  datatype Team = Team(id: TeamId, name: string, totalScore: real, isWinner: bool, members: seq<UserId>)

  datatype Game = Game(
    id: GameId,
    subject: string,
    status: GameStatus,
    startTime: Option<int>,
    endTime: Option<int>,
    teams: seq<Team>)

  /** One row of `game_sessions`: a player's running totals in one game. */
  datatype GameSession = GameSession(
    id: nat,
    gameId: GameId,
    userId: UserId,
    totalScore: real,
    correctAnswers: nat,
    totalAnswers: nat,
    averageResponseTime: real)

  datatype Answer = Answer(
    gameSessionId: nat,
    questionId: QuestionId,
    userAnswer: string,
    isCorrect: bool,
    responseTime: real,
    pointsEarned: real)

  datatype Question = Question(
    id: QuestionId,
    subject: string,
    questionText: string,
    options: seq<string>,
    correctAnswer: string,
    points: int)

  datatype User = User(
    username: string,
    country: Option<string>,
    totalGames: nat,
    totalWins: nat,
    totalScore: real)

  /** A question as embedded in the live session blob. */
  datatype QuestionData = QuestionData(
    id: QuestionId,
    questionText: string,
    options: seq<string>,
    correctAnswer: string,
    points: int)

  datatype TeamRoster = TeamRoster(teamId: TeamId, players: seq<UserId>)

  /** The JSON blob stored under `game:{id}` while a game is being played. */
  datatype LiveSession = LiveSession(
    gameId: GameId,
    status: string,
    startTime: int,
    endTime: int,
    currentQuestion: nat,
    questions: seq<QuestionData>,
    players: seq<UserId>,
    teams: seq<TeamRoster>,
    usedQuestionIds: seq<QuestionId>)

  /** The cursor indexes the fixed snapshot of five questions. */
  ghost predicate LiveSessionValid(s: LiveSession)
  {
    |s.questions| == QUESTIONS_PER_GAME && s.currentQuestion < |s.questions|
  }

  /** The members of the teams, concatenated in team order. */
  function Roster(teams: seq<Team>): (r: seq<UserId>)
    ensures forall t, u :: t in teams && u in t.members ==> u in r
  {
    if teams == [] then [] else Roster(teams[..|teams| - 1]) + teams[|teams| - 1].members
  }

  lemma RosterSnoc(teams: seq<Team>, i: nat)
    requires i < |teams|
    ensures Roster(teams[..i + 1]) == Roster(teams[..i]) + teams[i].members
  {
    assert teams[..i + 1][..i] == teams[..i];
  }

  function TeamRosters(teams: seq<Team>): (r: seq<TeamRoster>)
    ensures |r| == |teams|
    ensures forall k :: 0 <= k < |teams| ==> r[k] == TeamRoster(teams[k].id, teams[k].members)
  {
    seq(|teams|, k requires 0 <= k < |teams| => TeamRoster(teams[k].id, teams[k].members))
  }

  /** Index of the first team that lists `u`, as the services' `for team
      in teams: if user_id in team["players"]: ... break` loops find it. */
  function FirstTeamIndex(teams: seq<TeamRoster>, u: UserId): (r: Option<nat>)
    ensures r.Some? ==> r.value < |teams| && u in teams[r.value].players
    ensures r.Some? ==> forall j :: 0 <= j < r.value ==> u !in teams[j].players
    ensures r.None? ==> forall j :: 0 <= j < |teams| ==> u !in teams[j].players
  {
    if teams == [] then None
    else if u in teams[0].players then Some(0)
    else match FirstTeamIndex(teams[1..], u)
      case None => None
      case Some(k) => Some(k + 1)
  }

  ghost predicate TeamIdsDistinct(teams: seq<Team>)
  {
    forall i, j :: 0 <= i < j < |teams| ==> teams[i].id != teams[j].id
  }

  /** The relational tables. */
  class Database {
    var games: map<GameId, Game>
    var sessions: seq<GameSession>
    var answers: seq<Answer>
    var users: map<UserId, User>
    var questions: seq<Question>

    /** Primary keys are unique and every stored session has answered
        at least as many questions correctly as it has answered. */
    ghost predicate Valid()
      reads this
    {
      && (forall i :: 0 <= i < |sessions| ==> sessions[i].id == i)
      && (forall i :: 0 <= i < |sessions| ==> sessions[i].correctAnswers <= sessions[i].totalAnswers)
      && (forall g :: g in games ==> games[g].id == g && TeamIdsDistinct(games[g].teams))
    }

    constructor (users: map<UserId, User>, questions: seq<Question>)
      ensures Valid()
      ensures this.games == map[] && this.sessions == [] && this.answers == []
      ensures this.users == users && this.questions == questions
    {
      this.games := map[];
      this.sessions := [];
      this.answers := [];
      this.users := users;
      this.questions := questions;
    }
  }

  type AnsweredKey = (GameId, QuestionId, UserId)

  /** The Redis keys of a live game: `game:{id}`, the answered markers
      and the per-user and per-team score counters. */
  class Cache {
    var live: map<GameId, LiveSession>
    var answered: set<AnsweredKey>
    var userScores: map<(GameId, UserId), real>
    var teamScores: map<(GameId, TeamId), real>

    ghost predicate Valid()
      reads this
    {
      forall g :: g in live ==> LiveSessionValid(live[g])
    }

    constructor ()
      ensures Valid()
      ensures live == map[] && answered == {} && userScores == map[] && teamScores == map[]
    {
      live := map[];
      answered := {};
      userScores := map[];
      teamScores := map[];
    }
  }

  /** A counter read back with `float(x) if x else 0.0`. */
  function Counter<K>(m: map<K, real>, k: K): real
  {
    if k in m then m[k] else 0.0
  }

  /** What `scalar_one_or_none()` finds for the sessions of one player in
      one game: nothing, exactly one row, or more than one (which raises). */
  datatype SessionLookup = NoSession | OneSession(index: nat) | ManySessions

  function SessionRows(sessions: seq<GameSession>, g: GameId, u: UserId): (r: seq<nat>)
    ensures forall k: nat :: k in r <==> k < |sessions| && sessions[k].gameId == g && sessions[k].userId == u
    ensures forall i, j :: 0 <= i < j < |r| ==> r[i] < r[j]
  {
    if sessions == [] then []
    else
      var n := |sessions| - 1;
      var prefix := SessionRows(sessions[..n], g, u);
      assert forall i :: 0 <= i < |prefix| ==> prefix[i] in prefix && prefix[i] < n;
      prefix + (if sessions[n].gameId == g && sessions[n].userId == u then [n] else [])
  }

  function FindSession(sessions: seq<GameSession>, g: GameId, u: UserId): (r: SessionLookup)
    ensures r.NoSession? <==> forall k :: 0 <= k < |sessions| ==> !(sessions[k].gameId == g && sessions[k].userId == u)
    ensures r.OneSession? ==> r.index < |sessions| && sessions[r.index].gameId == g && sessions[r.index].userId == u
    ensures r.OneSession? ==> forall k :: 0 <= k < |sessions| && k != r.index ==> !(sessions[k].gameId == g && sessions[k].userId == u)
    ensures r.ManySessions? ==>
      exists i, j :: 0 <= i < j < |sessions| && sessions[i].gameId == g && sessions[i].userId == u
                                             && sessions[j].gameId == g && sessions[j].userId == u
  {
    var rows := SessionRows(sessions, g, u);
    if |rows| == 0 then NoSession
    else
      assert rows[0] in rows;
      if |rows| == 1 then OneSession(rows[0])
      else
        assert rows[1] in rows && rows[0] < rows[1];
        ManySessions
  }
}

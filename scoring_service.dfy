// The scoring pipeline: checking an answer, pricing it, recording it in
// the player's session, raising the live counters, and reading the
// counters and the session statistics back.

module ScoringService {
  import opened Common
  import opened Text
  import opened Models
  import opened ScoringQueries
  import opened GameService

  /** The answer check: both strings lower-cased, then stripped of
      surrounding whitespace, then compared. */
  predicate IsCorrectAnswer(userAnswer: string, correctAnswer: string)
  {
    Strip(Lower(userAnswer)) == Strip(Lower(correctAnswer))
  }

  /** The check does not care which side is the submitted answer. */
  lemma IsCorrectAnswerSymmetric(a: string, b: string)
    ensures IsCorrectAnswer(a, b) <==> IsCorrectAnswer(b, a)
  {
  }

  /** Whitespace typed around an answer never changes the verdict. */
  lemma IsCorrectAnswerIgnoresPadding(pre: string, a: string, post: string, correct: string)
    requires AllSpace(pre) && AllSpace(post)
    ensures IsCorrectAnswer(pre + a + post, correct) <==> IsCorrectAnswer(a, correct)
  {
    LowerOfConcat(pre + a, post);
    LowerOfConcat(pre, a);
    LowerKeepsSpace(pre);
    LowerKeepsSpace(post);
    assert Lower(pre + a + post) == pre + Lower(a) + post;
    StripIgnoresPadding(pre, Lower(a), post);
  }

  /** Answers that differ only in the case of their letters are judged alike. */
  lemma IsCorrectAnswerIgnoresCase(a: string, b: string, correct: string)
    requires Lower(a) == Lower(b)
    ensures IsCorrectAnswer(a, correct) <==> IsCorrectAnswer(b, correct)
  {
  }

  /** `calculate_points`: nothing for a wrong answer, otherwise the base
      points scaled by the time decay, which is floored at one half. The
      decay `exp(-ln 2 / 10 * response_time)` is passed in. */
  function CalculatePoints(isCorrect: bool, basePoints: int, decay: real): (r: real)
    ensures !isCorrect ==> r == 0.0
    ensures isCorrect && basePoints >= 0 ==> basePoints as real / 2.0 <= r
    ensures isCorrect && basePoints >= 0 && decay <= 1.0 ==> r <= basePoints as real
  {
    if !isCorrect then 0.0 else basePoints as real * MaxReal(0.5, decay)
  }

  /** A faster answer (a larger decay) never earns fewer points. */
  lemma CalculatePointsMonotone(basePoints: int, d1: real, d2: real)
    requires basePoints >= 0 && d1 <= d2
    ensures CalculatePoints(true, basePoints, d1) <= CalculatePoints(true, basePoints, d2)
  {
    assert MaxReal(0.5, d1) <= MaxReal(0.5, d2);
    assert CalculatePoints(true, basePoints, d1) == basePoints as real * MaxReal(0.5, d1);
    assert CalculatePoints(true, basePoints, d2) == basePoints as real * MaxReal(0.5, d2);
    MulMonotone(basePoints as real, MaxReal(0.5, d1), MaxReal(0.5, d2));
  }

  lemma MulMonotone(b: real, x: real, y: real)
    requires b >= 0.0 && x <= y
    ensures b * x <= b * y
  {
  }

  /** Position of the first snapshot question with the given id. */
  function FindQuestion(questions: seq<QuestionData>, qid: QuestionId): (r: Option<nat>)
    ensures r.Some? ==> r.value < |questions| && questions[r.value].id == qid
    ensures r.Some? ==> forall j :: 0 <= j < r.value ==> questions[j].id != qid
    ensures r.None? ==> forall j :: 0 <= j < |questions| ==> questions[j].id != qid
  {
    if questions == [] then None
    else if questions[0].id == qid then Some(0)
    else match FindQuestion(questions[1..], qid)
      case None => None
      case Some(k) => Some(k + 1)
  }

  /** The team whose counter `update_real_time_scores` raises: the first
      team of the live blob listing the user, unless its id is falsy. */
  function CreditedTeam(live: map<GameId, LiveSession>, g: GameId, u: UserId): (r: Option<TeamId>)
    ensures r.Some? ==> g in live && r.value != 0
    ensures r.Some? ==> exists k :: FirstTeamIndex(live[g].teams, u) == Some(k) && live[g].teams[k].teamId == r.value
    ensures (g in live && FirstTeamIndex(live[g].teams, u).Some?
             && live[g].teams[FirstTeamIndex(live[g].teams, u).value].teamId != 0) ==> r.Some?
  {
    if g !in live then None
    else match FirstTeamIndex(live[g].teams, u)
      case None => None
      case Some(k) =>
        var t := live[g].teams[k].teamId;
        if t != 0 then Some(t) else None
  }

  /** A counter after `incrbyfloat(key, points)`. */
  function Bump<K>(m: map<K, real>, k: K, points: real): (r: map<K, real>)
    ensures k in r && r.Keys == m.Keys + {k}
  {
    m[k := Counter(m, k) + points]
  }

  /** Bumping one counter raises it by exactly `points` and leaves every
      other counter as it was. */
  lemma BumpEffect<K>(m: map<K, real>, k: K, points: real, other: K)
    ensures Counter(Bump(m, k, points), other) == Counter(m, other) + (if other == k then points else 0.0)
  {
  }

  /** The team counters after `update_real_time_scores`: the credited
      team's counter rises by the points, and nothing else changes. */
  function CreditTeam(live: map<GameId, LiveSession>, teamScores: map<(GameId, TeamId), real>,
                      g: GameId, u: UserId, points: real): (r: map<(GameId, TeamId), real>)
    ensures forall k :: Counter(r, k) == Counter(teamScores, k)
                                        + (if CreditedTeam(live, g, u).Some? && k == (g, CreditedTeam(live, g, u).value) then points else 0.0)
  {
    match CreditedTeam(live, g, u)
    case None => teamScores
    case Some(t) => Bump(teamScores, (g, t), points)
  }

  /** `update_real_time_scores`: raises the user's counter by the points,
      and the credited team's counter by the same amount. */
  method UpdateRealTimeScores(cache: Cache, g: GameId, u: UserId, points: real)
    requires cache.Valid()
    modifies cache
    ensures cache.Valid()
    ensures cache.userScores == Bump(old(cache.userScores), (g, u), points)
    ensures cache.teamScores == CreditTeam(old(cache.live), old(cache.teamScores), g, u, points)
    ensures cache.live == old(cache.live) && cache.answered == old(cache.answered)
  {
    cache.userScores := Bump(cache.userScores, (g, u), points);
    if g in cache.live {
      var teams := cache.live[g].teams;
      var userTeamId: Option<TeamId> := None;
      var k := 0;
      while k < |teams| && userTeamId.None?
        invariant 0 <= k <= |teams|
        invariant userTeamId.None? ==> forall j :: 0 <= j < k ==> u !in teams[j].players
        invariant userTeamId.Some? ==> 0 < k && FirstTeamIndex(teams, u) == Some(k - 1)
                                       && userTeamId.value == teams[k - 1].teamId
      {
        if u in teams[k].players {
          userTeamId := Some(teams[k].teamId);
        }
        k := k + 1;
      }
      if userTeamId.Some? && userTeamId.value != 0 {
        cache.teamScores := Bump(cache.teamScores, (g, userTeamId.value), points);
      }
    }
  }

  /** The `ValueError`s `submit_answer` raises, in the order it checks. */
  datatype SubmitError =
    | GameNotFoundOrNotActive
    | NotInProgress
    | QuestionNotInGame
    | GameSessionNotFound
    | MultipleGameSessions
    | AdvanceFailed(cause: GameError)

  /** The dict `submit_answer` returns. */
  datatype SubmitReply = SubmitReply(isCorrect: bool, pointsEarned: real, totalScore: real, correctAnswers: nat, totalAnswers: nat)

  /** The writes of an accepted submission, relative to the state before
      it: one answer row for session `index`, that session's totals
      absorbing it, the user's and the credited team's counters raised by
      the points, and the answered marker set. */
  twostate predicate AnswerRecorded(db: Database, cache: Cache, g: GameId, u: UserId, qid: QuestionId,
                                    index: nat, userAnswer: string, isCorrect: bool, responseTime: real, points: real)
    reads db, cache
  {
    && index < |old(db.sessions)|
    && db.answers == old(db.answers) + [Answer(index, qid, userAnswer, isCorrect, responseTime, points)]
    && db.sessions == old(db.sessions)[index := ApplyAnswer(old(db.sessions[index]), points, responseTime, isCorrect)]
    && cache.userScores == Bump(old(cache.userScores), (g, u), points)
    && cache.teamScores == CreditTeam(old(cache.live), old(cache.teamScores), g, u, points)
    && cache.answered == old(cache.answered) + {(g, qid, u)}
  }

  /** The write half of `submit_answer`, from `create_answer` up to the
      answered marker. */
  method RecordAnswer(db: Database, cache: Cache, g: GameId, u: UserId, qid: QuestionId, index: nat,
                      userAnswer: string, isCorrect: bool, responseTime: real, points: real)
    requires db.Valid() && cache.Valid() && index < |db.sessions|
    modifies db, cache
    ensures db.Valid() && cache.Valid()
    ensures AnswerRecorded(db, cache, g, u, qid, index, userAnswer, isCorrect, responseTime, points)
    ensures db.games == old(db.games) && db.users == old(db.users) && db.questions == old(db.questions)
    ensures cache.live == old(cache.live)
  {
    CreateAnswer(db, index, qid, userAnswer, isCorrect, responseTime, points);
    UpdateGameSessionStats(db, index, points, responseTime, isCorrect);
    UpdateRealTimeScores(cache, g, u, points);
    cache.answered := cache.answered + {(g, qid, u)};
  }

  /** An accepted submission's writes, then the advance check, which
      leaves the answer rows, the sessions, the counters and the markers
      as the writes left them and acts on the stores the writes produced. */
  method RecordAndAdvance(db: Database, cache: Cache, g: GameId, u: UserId, qid: QuestionId, index: nat,
                          userAnswer: string, isCorrect: bool, responseTime: real, points: real, now: int)
    returns (updated: GameSession, advanced: Result<Option<bool>, GameError>)
    requires db.Valid() && cache.Valid() && index < |db.sessions|
    modifies db, cache
    ensures db.Valid() && cache.Valid()
    ensures AnswerRecorded(db, cache, g, u, qid, index, userAnswer, isCorrect, responseTime, points)
    ensures updated == ApplyAnswer(old(db.sessions[index]), points, responseTime, isCorrect)
    ensures db.questions == old(db.questions)
    ensures AdvanceOutcome(advanced, cache.live, db.games, db.users)
         == Advance(old(cache.live), old(cache.answered) + {(g, qid, u)}, old(db.games), old(db.users), db.sessions, g, now)
  {
    RecordAnswer(db, cache, g, u, qid, index, userAnswer, isCorrect, responseTime, points);
    updated := db.sessions[index];
    advanced := CheckAndAdvance(db, cache, g, now);
  }

  /** The question a submission is priced against, if the live blob has it. */
  function SubmittedQuestion(live: map<GameId, LiveSession>, g: GameId, qid: QuestionId): (r: Option<QuestionData>)
    ensures r.Some? <==> g in live && FindQuestion(live[g].questions, qid).Some?
    ensures r.Some? ==> r.value in live[g].questions && r.value.id == qid
  {
    if g !in live then None
    else match FindQuestion(live[g].questions, qid)
      case None => None
      case Some(k) => Some(live[g].questions[k])
  }

  /** `submit_answer`: every refusal comes before any write; on success
      exactly one answer row is recorded, the session's totals absorb it,
      the live counters rise by the points, the answered marker is set,
      and the advance check runs. */
  method SubmitAnswer(db: Database, cache: Cache, g: GameId, u: UserId, qid: QuestionId, userAnswer: string,
                      responseTime: real, decay: real, now: int)
    returns (r: Result<SubmitReply, SubmitError>)
    requires db.Valid() && cache.Valid()
    modifies db, cache
    ensures db.Valid() && cache.Valid()
    ensures g !in old(cache.live) ==> r == Err(GameNotFoundOrNotActive)
    ensures g in old(cache.live) && old(cache.live[g].status) != IN_PROGRESS ==> r == Err(NotInProgress)
    ensures (g in old(cache.live) && old(cache.live[g].status) == IN_PROGRESS
             && SubmittedQuestion(old(cache.live), g, qid).None?) ==> r == Err(QuestionNotInGame)
    ensures (g in old(cache.live) && old(cache.live[g].status) == IN_PROGRESS
             && SubmittedQuestion(old(cache.live), g, qid).Some?) ==>
      match FindSession(old(db.sessions), g, u)
      case NoSession => r == Err(GameSessionNotFound)
      case ManySessions => r == Err(MultipleGameSessions)
      case OneSession(_) => r.Ok? || r.error.AdvanceFailed?
    ensures r.Err? && !r.error.AdvanceFailed? ==> unchanged(db) && unchanged(cache)
    ensures r.Ok? || (r.Err? && r.error.AdvanceFailed?) ==>
      && SubmittedQuestion(old(cache.live), g, qid).Some?
      && FindSession(old(db.sessions), g, u).OneSession?
      && var q := SubmittedQuestion(old(cache.live), g, qid).value;
         var index := FindSession(old(db.sessions), g, u).index;
         var isCorrect := IsCorrectAnswer(userAnswer, q.correctAnswer);
         var points := CalculatePoints(isCorrect, q.points, decay);
         var updated := ApplyAnswer(old(db.sessions[index]), points, responseTime, isCorrect);
         && AnswerRecorded(db, cache, g, u, qid, index, userAnswer, isCorrect, responseTime, points)
         && (r.Ok? ==> r.value == SubmitReply(isCorrect, points, updated.totalScore, updated.correctAnswers, updated.totalAnswers))
         && var o := Advance(old(cache.live), old(cache.answered) + {(g, qid, u)}, old(db.games), old(db.users), db.sessions, g, now);
            && cache.live == o.live && db.games == o.games && db.users == o.users
            && (r.Err? <==> o.result.Err?)
            && (r.Err? ==> r.error == AdvanceFailed(o.result.error))
    ensures db.questions == old(db.questions)
  {
    if g !in cache.live {
      return Err(GameNotFoundOrNotActive);
    }
    var s := cache.live[g];
    if s.status != IN_PROGRESS {
      return Err(NotInProgress);
    }
    var found := SubmittedQuestion(cache.live, g, qid);
    if found.None? {
      return Err(QuestionNotInGame);
    }
    var q := found.value;
    var isCorrect := IsCorrectAnswer(userAnswer, q.correctAnswer);
    var points := CalculatePoints(isCorrect, q.points, decay);
    var lookup := FindSession(db.sessions, g, u);
    if lookup.NoSession? {
      return Err(GameSessionNotFound);
    }
    if lookup.ManySessions? {
      return Err(MultipleGameSessions);
    }
    var updated, advanced := RecordAndAdvance(db, cache, g, u, qid, lookup.index, userAnswer, isCorrect, responseTime, points, now);
    if advanced.Err? {
      return Err(AdvanceFailed(advanced.error));
    }
    r := Ok(SubmitReply(isCorrect, points, updated.totalScore, updated.correctAnswers, updated.totalAnswers));
  }

  /** One team's entry in the live scores snapshot. */
  datatype TeamScore = TeamScore(totalScore: real, userScores: map<UserId, real>)

  /** The dict `get_real_time_scores` returns for a live game. */
  datatype ScoresSnapshot = ScoresSnapshot(gameId: GameId, teamScores: map<TeamId, TeamScore>, userScores: map<UserId, real>)

  /** The counters of `players`, each read with a default of 0. */
  ghost predicate ReadsCounters(m: map<UserId, real>, scores: map<(GameId, UserId), real>, g: GameId, players: seq<UserId>)
  {
    && (forall p :: p in m <==> p in players)
    && (forall p :: p in m ==> m[p] == Counter(scores, (g, p)))
  }

  /** The dict the inner loop of `get_real_time_scores` builds for one team. */
  function PlayerCounters(scores: map<(GameId, UserId), real>, g: GameId, players: seq<UserId>): (r: map<UserId, real>)
    ensures ReadsCounters(r, scores, g, players)
  {
    if players == [] then map[]
    else
      var p := players[|players| - 1];
      assert players == players[..|players| - 1] + [p];
      PlayerCounters(scores, g, players[..|players| - 1])[p := Counter(scores, (g, p))]
  }

  /** The `team_scores` dict built over `teams` in order: a later listing
      of the same team id overwrites an earlier one. */
  function TeamCounters(teamScores: map<(GameId, TeamId), real>, userScores: map<(GameId, UserId), real>,
                        g: GameId, teams: seq<TeamRoster>): map<TeamId, TeamScore>
  {
    if teams == [] then map[]
    else
      var t := teams[|teams| - 1];
      TeamCounters(teamScores, userScores, g, teams[..|teams| - 1])
        [t.teamId := TeamScore(Counter(teamScores, (g, t.teamId)), PlayerCounters(userScores, g, t.players))]
  }

  /** A team id has an entry exactly when some listed team carries it. */
  lemma {:induction false} TeamCountersKeys(teamScores: map<(GameId, TeamId), real>,
                                            userScores: map<(GameId, UserId), real>,
                                            g: GameId, teams: seq<TeamRoster>, t: TeamId)
    ensures t in TeamCounters(teamScores, userScores, g, teams) <==>
      exists k :: 0 <= k < |teams| && teams[k].teamId == t
  {
    if teams != [] {
      var n := |teams| - 1;
      var m := TeamCounters(teamScores, userScores, g, teams[..n]);
      TeamCountersKeys(teamScores, userScores, g, teams[..n], t);
      assert t in TeamCounters(teamScores, userScores, g, teams) <==> t in m || teams[n].teamId == t;
      if t in m {
        var k :| 0 <= k < n && teams[..n][k].teamId == t;
        assert teams[k].teamId == t;
      }
      if exists k :: 0 <= k < |teams| && teams[k].teamId == t {
        var k :| 0 <= k < |teams| && teams[k].teamId == t;
        if k < n {
          assert teams[..n][k].teamId == t;
        }
      }
    }
  }

  /** Every entry's total is that team's counter. */
  lemma {:induction false} TeamCountersTotals(teamScores: map<(GameId, TeamId), real>,
                                              userScores: map<(GameId, UserId), real>,
                                              g: GameId, teams: seq<TeamRoster>, t: TeamId)
    requires t in TeamCounters(teamScores, userScores, g, teams)
    ensures TeamCounters(teamScores, userScores, g, teams)[t].totalScore == Counter(teamScores, (g, t))
  {
    var n := |teams| - 1;
    if teams[n].teamId != t {
      TeamCountersTotals(teamScores, userScores, g, teams[..n], t);
    }
  }

  /** A team whose id is not listed again later keeps its own players'
      counters. */
  lemma {:induction false} TeamCountersLastListing(teamScores: map<(GameId, TeamId), real>,
                                                   userScores: map<(GameId, UserId), real>,
                                                   g: GameId, teams: seq<TeamRoster>, k: nat)
    requires k < |teams|
    requires forall j :: k < j < |teams| ==> teams[j].teamId != teams[k].teamId
    ensures teams[k].teamId in TeamCounters(teamScores, userScores, g, teams)
    ensures ReadsCounters(TeamCounters(teamScores, userScores, g, teams)[teams[k].teamId].userScores,
                          userScores, g, teams[k].players)
  {
    var n := |teams| - 1;
    if k < n {
      TeamCountersLastListing(teamScores, userScores, g, teams[..n], k);
    }
  }

  /** `get_real_time_scores`: nothing without a live blob; otherwise the
      blob's teams with their counters and every listed player's counter,
      missing counters reading as 0. */
  method GetRealTimeScores(cache: Cache, g: GameId) returns (r: Option<ScoresSnapshot>)
    ensures g !in cache.live <==> r.None?
    ensures r.Some? ==> r.value.gameId == g
    ensures r.Some? ==> r.value.teamScores == TeamCounters(cache.teamScores, cache.userScores, g, cache.live[g].teams)
    ensures r.Some? ==> ReadsCounters(r.value.userScores, cache.userScores, g, RosterPlayers(cache.live[g].teams))
  {
    if g !in cache.live {
      return None;
    }
    var teams := cache.live[g].teams;
    var teamScores: map<TeamId, TeamScore> := map[];
    var userScores: map<UserId, real> := map[];
    var i := 0;
    while i < |teams|
      invariant 0 <= i <= |teams|
      invariant teamScores == TeamCounters(cache.teamScores, cache.userScores, g, teams[..i])
      invariant ReadsCounters(userScores, cache.userScores, g, RosterPlayers(teams[..i]))
    {
      var team := teams[i];
      var teamTotal := Counter(cache.teamScores, (g, team.teamId));
      var teamUserScores;
      teamUserScores, userScores := ReadPlayerCounters(cache, g, team.players, userScores);
      RosterPlayersSnoc(teams, i);
      assert teams[..i + 1][..i] == teams[..i];
      teamScores := teamScores[team.teamId := TeamScore(teamTotal, teamUserScores)];
      i := i + 1;
    }
    assert teams[..i] == teams;
    r := Some(ScoresSnapshot(g, teamScores, userScores));
  }

  /** The inner loop of `get_real_time_scores`: reads the counter of each
      player of one team into the team's dict and into the game-wide dict. */
  method ReadPlayerCounters(cache: Cache, g: GameId, players: seq<UserId>, userScores: map<UserId, real>)
    returns (teamUserScores: map<UserId, real>, userScores': map<UserId, real>)
    ensures teamUserScores == PlayerCounters(cache.userScores, g, players)
    ensures forall p :: p in userScores' <==> p in userScores || p in players
    ensures forall p :: p in userScores' ==>
      userScores'[p] == if p in players then Counter(cache.userScores, (g, p)) else userScores[p]
  {
    teamUserScores := map[];
    userScores' := userScores;
    var j := 0;
    while j < |players|
      invariant 0 <= j <= |players|
      invariant teamUserScores == PlayerCounters(cache.userScores, g, players[..j])
      invariant forall p :: p in userScores' <==> p in userScores || p in players[..j]
      invariant forall p :: p in userScores' ==>
        userScores'[p] == if p in players[..j] then Counter(cache.userScores, (g, p)) else userScores[p]
    {
      var p := players[j];
      assert players[..j + 1] == players[..j] + [p];
      assert players[..j + 1][..j] == players[..j];
      userScores' := userScores'[p := Counter(cache.userScores, (g, p))];
      teamUserScores := teamUserScores[p := userScores'[p]];
      j := j + 1;
    }
    assert players[..j] == players;
  }

  /** The players of the blob's teams, in team order. */
  function RosterPlayers(teams: seq<TeamRoster>): (r: seq<UserId>)
    ensures forall p :: p in r <==> exists k :: 0 <= k < |teams| && p in teams[k].players
  {
    if teams == [] then [] else RosterPlayers(teams[..|teams| - 1]) + teams[|teams| - 1].players
  }

  lemma RosterPlayersSnoc(teams: seq<TeamRoster>, i: nat)
    requires i < |teams|
    ensures RosterPlayers(teams[..i + 1]) == RosterPlayers(teams[..i]) + teams[i].players
  {
    assert teams[..i + 1][..i] == teams[..i];
  }

  /** One recorded answer as `get_user_game_stats` lists it. */
  datatype AnswerView = AnswerView(questionId: QuestionId, userAnswer: string, isCorrect: bool, pointsEarned: real, responseTime: real)

  datatype UserGameStats = UserGameStats(
    gameId: GameId,
    userId: UserId,
    totalScore: real,
    correctAnswers: nat,
    totalAnswers: nat,
    accuracy: real,
    averageResponseTime: real,
    answers: seq<AnswerView>)

  function ViewOf(a: Answer): AnswerView
  {
    AnswerView(a.questionId, a.userAnswer, a.isCorrect, a.pointsEarned, a.responseTime)
  }

  /** `get_user_game_stats`: nothing without a session (and the lookup
      raises when there are several); otherwise the session's totals, its
      accuracy, and its answers in stored order. */
  function GetUserGameStats(sessions: seq<GameSession>, answers: seq<Answer>, u: UserId, g: GameId)
    : (r: Result<Option<UserGameStats>, SubmitError>)
    ensures r == Err(MultipleGameSessions) <==> FindSession(sessions, g, u).ManySessions?
    ensures r == Ok(None) <==> FindSession(sessions, g, u).NoSession?
    ensures r.Ok? && r.value.Some? ==>
      var s := sessions[FindSession(sessions, g, u).index];
      var st := r.value.value;
      && st.gameId == g && st.userId == u
      && st.totalScore == s.totalScore && st.correctAnswers == s.correctAnswers && st.totalAnswers == s.totalAnswers
      && st.accuracy == Ratio(s.correctAnswers, s.totalAnswers)
      && st.averageResponseTime == s.averageResponseTime
      && |st.answers| == |LogOf(answers, s.id)|
      && forall k :: 0 <= k < |st.answers| ==> st.answers[k] == ViewOf(LogOf(answers, s.id)[k])
  {
    match FindSession(sessions, g, u)
    case NoSession => Ok(None)
    case ManySessions => Err(MultipleGameSessions)
    case OneSession(i) =>
      var s := sessions[i];
      var log := LogOf(answers, s.id);
      Ok(Some(UserGameStats(g, u, s.totalScore, s.correctAnswers, s.totalAnswers,
                            Ratio(s.correctAnswers, s.totalAnswers), s.averageResponseTime,
                            seq(|log|, k requires 0 <= k < |log| => ViewOf(log[k])))))
  }

  /** When the stored totals agree with the recorded answers, the stats
      list exactly as many answers as the session counts, and its accuracy
      is the share of those answers that were correct. */
  lemma StatsAgreeWithAnswers(sessions: seq<GameSession>, answers: seq<Answer>, u: UserId, g: GameId)
    requires TotalsMatchAnswers(sessions, answers)
    requires FindSession(sessions, g, u).OneSession?
    ensures var r := GetUserGameStats(sessions, answers, u, g);
      var s := sessions[FindSession(sessions, g, u).index];
      && r.Ok? && r.value.Some?
      && r.value.value.totalAnswers == |r.value.value.answers|
      && r.value.value.correctAnswers == CountCorrect(LogOf(answers, s.id))
  {
    var i := FindSession(sessions, g, u).index;
    var s := sessions[i];
    var log := LogOf(answers, s.id);
    assert MatchesLog(s, log);
    var st := GetUserGameStats(sessions, answers, u, g).value.value;
    assert |st.answers| == |log|;
    assert st.totalAnswers == s.totalAnswers == |log|;
    assert st.correctAnswers == s.correctAnswers == CountCorrect(log);
  }
}

// The scoring queries: recording an answer and folding it into the
// player's running totals for the game.

module ScoringQueries {
  import opened Common
  import opened Models

  /** The row `update_game_session_stats` leaves behind: the score grows by
      the points, one more answer is counted (and one more correct answer
      when it was correct), and the average response time is recomputed so
      that average times count stays the sum of all response times. */
  function ApplyAnswer(s: GameSession, points: real, responseTime: real, isCorrect: bool): (r: GameSession)
    ensures r.id == s.id && r.gameId == s.gameId && r.userId == s.userId
    ensures r.totalScore == s.totalScore + points
    ensures r.totalAnswers == s.totalAnswers + 1
    ensures r.correctAnswers == s.correctAnswers + (if isCorrect then 1 else 0)
    ensures r.averageResponseTime * r.totalAnswers as real
         == s.averageResponseTime * s.totalAnswers as real + responseTime
    ensures s.correctAnswers <= s.totalAnswers ==> r.correctAnswers <= r.totalAnswers
  {
    var n := s.totalAnswers + 1;
    s.(totalScore := s.totalScore + points,
       totalAnswers := n,
       correctAnswers := s.correctAnswers + (if isCorrect then 1 else 0),
       averageResponseTime := (s.averageResponseTime * (n - 1) as real + responseTime) / n as real)
  }

  /** `update_game_session_stats`, field by field as the row is mutated. */
  method UpdateGameSessionStats(db: Database, index: nat, points: real, responseTime: real, isCorrect: bool)
    requires db.Valid() && index < |db.sessions|
    modifies db
    ensures db.Valid()
    ensures db.sessions == old(db.sessions)[index := ApplyAnswer(old(db.sessions[index]), points, responseTime, isCorrect)]
    ensures db.games == old(db.games) && db.answers == old(db.answers)
    ensures db.users == old(db.users) && db.questions == old(db.questions)
  {
    var s := db.sessions[index];
    s := s.(totalScore := s.totalScore + points);
    s := s.(totalAnswers := s.totalAnswers + 1);
    if isCorrect {
      s := s.(correctAnswers := s.correctAnswers + 1);
    }
    var totalTime := s.averageResponseTime * (s.totalAnswers - 1) as real;
    s := s.(averageResponseTime := (totalTime + responseTime) / s.totalAnswers as real);
    assert s == ApplyAnswer(db.sessions[index], points, responseTime, isCorrect);
    db.sessions := db.sessions[index := s];
  }

  /** `create_answer`: appends one answer row carrying exactly the given
      session id, question id, answer text, correctness, time and points. */
  method CreateAnswer(db: Database, gameSessionId: nat, questionId: QuestionId, userAnswer: string,
                      isCorrect: bool, responseTime: real, pointsEarned: real)
    requires db.Valid()
    modifies db
    ensures db.Valid()
    ensures db.answers == old(db.answers) + [Answer(gameSessionId, questionId, userAnswer, isCorrect, responseTime, pointsEarned)]
    ensures db.games == old(db.games) && db.sessions == old(db.sessions)
    ensures db.users == old(db.users) && db.questions == old(db.questions)
  {
    db.answers := db.answers + [Answer(gameSessionId, questionId, userAnswer, isCorrect, responseTime, pointsEarned)];
  }

  /** The answers recorded for one session, in stored order. */
  function LogOf(answers: seq<Answer>, sessionId: nat): (r: seq<Answer>)
    ensures forall a :: a in r <==> a in answers && a.gameSessionId == sessionId
  {
    if answers == [] then []
    else
      var last := answers[|answers| - 1];
      LogOf(answers[..|answers| - 1], sessionId) + (if last.gameSessionId == sessionId then [last] else [])
  }

  lemma LogOfSnoc(answers: seq<Answer>, a: Answer, sessionId: nat)
    ensures LogOf(answers + [a], sessionId)
         == LogOf(answers, sessionId) + (if a.gameSessionId == sessionId then [a] else [])
  {
    assert (answers + [a])[..|answers|] == answers;
  }

  function SumPoints(log: seq<Answer>): real
  {
    if log == [] then 0.0 else SumPoints(log[..|log| - 1]) + log[|log| - 1].pointsEarned
  }

  function SumTimes(log: seq<Answer>): real
  {
    if log == [] then 0.0 else SumTimes(log[..|log| - 1]) + log[|log| - 1].responseTime
  }

  function CountCorrect(log: seq<Answer>): nat
  {
    if log == [] then 0 else CountCorrect(log[..|log| - 1]) + (if log[|log| - 1].isCorrect then 1 else 0)
  }

  /** A session's totals are exactly what its answer log adds up to. */
  ghost predicate MatchesLog(s: GameSession, log: seq<Answer>)
  {
    && s.totalAnswers == |log|
    && s.correctAnswers == CountCorrect(log)
    && s.totalScore == SumPoints(log)
    && s.averageResponseTime * |log| as real == SumTimes(log)
  }

  /** Folding one more answer into the totals matches appending it to the
      log: in particular average times count stays the sum of the times. */
  lemma ApplyAnswerMatchesLog(s: GameSession, log: seq<Answer>, a: Answer)
    requires MatchesLog(s, log)
    ensures MatchesLog(ApplyAnswer(s, a.pointsEarned, a.responseTime, a.isCorrect), log + [a])
  {
    var log' := log + [a];
    assert log'[..|log|] == log;
  }

  ghost predicate TotalsMatchAnswers(sessions: seq<GameSession>, answers: seq<Answer>)
  {
    forall i :: 0 <= i < |sessions| ==> MatchesLog(sessions[i], LogOf(answers, sessions[i].id))
  }

  /** Recording an answer for session `i` together with the stats update
      keeps every session's totals equal to what its answers add up to. */
  lemma RecordAnswerKeepsTotals(sessions: seq<GameSession>, answers: seq<Answer>, i: nat, a: Answer)
    requires forall j :: 0 <= j < |sessions| ==> sessions[j].id == j
    requires i < |sessions| && a.gameSessionId == i
    requires TotalsMatchAnswers(sessions, answers)
    ensures TotalsMatchAnswers(sessions[i := ApplyAnswer(sessions[i], a.pointsEarned, a.responseTime, a.isCorrect)], answers + [a])
  {
    var sessions' := sessions[i := ApplyAnswer(sessions[i], a.pointsEarned, a.responseTime, a.isCorrect)];
    forall j | 0 <= j < |sessions'|
      ensures MatchesLog(sessions'[j], LogOf(answers + [a], sessions'[j].id))
    {
      LogOfSnoc(answers, a, j);
      assert sessions'[j].id == j;
      if j == i {
        assert MatchesLog(sessions[i], LogOf(answers, i));
        ApplyAnswerMatchesLog(sessions[i], LogOf(answers, i), a);
      } else {
        assert LogOf(answers + [a], j) == LogOf(answers, j);
        assert MatchesLog(sessions[j], LogOf(answers, j));
      }
    }
  }
}

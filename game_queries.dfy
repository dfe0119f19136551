// The game queries: status update, session creation and the question
// draw (its filter and limit; the random order is replaced by bank order).

module GameQueries {
  import opened Common
  import opened Models

  /** `update_game_status`: the status is always written, the two times only
      when one is passed. */
  method UpdateGameStatus(db: Database, gameId: GameId, status: GameStatus, startTime: Option<int>, endTime: Option<int>)
    requires db.Valid() && gameId in db.games
    modifies db
    ensures db.Valid()
    ensures gameId in db.games && db.games.Keys == old(db.games.Keys)
    ensures db.games[gameId].status == status
    ensures db.games[gameId].startTime == if startTime.Some? then startTime else old(db.games[gameId].startTime)
    ensures db.games[gameId].endTime == if endTime.Some? then endTime else old(db.games[gameId].endTime)
    ensures db.games[gameId].id == old(db.games[gameId].id)
    ensures db.games[gameId].subject == old(db.games[gameId].subject)
    ensures db.games[gameId].teams == old(db.games[gameId].teams)
    ensures forall g :: g in db.games && g != gameId ==> db.games[g] == old(db.games[g])
    ensures db.sessions == old(db.sessions) && db.answers == old(db.answers)
    ensures db.users == old(db.users) && db.questions == old(db.questions)
  {
    var game := db.games[gameId];
    game := game.(status := status);
    if startTime.Some? {
      game := game.(startTime := startTime);
    }
    if endTime.Some? {
      game := game.(endTime := endTime);
    }
    db.games := db.games[gameId := game];
  }

  /** A fresh `game_sessions` row: all counters at their column defaults. */
  function FreshSession(id: nat, gameId: GameId, userId: UserId): GameSession
  {
    GameSession(id, gameId, userId, 0.0, 0, 0, 0.0)
  }

  /** The rows `create_game_session` adds for `players`, in order, with ids
      continuing from `start`. */
  function FreshSessions(start: nat, gameId: GameId, players: seq<UserId>): (r: seq<GameSession>)
    ensures |r| == |players|
    ensures forall k :: 0 <= k < |players| ==> r[k] == FreshSession(start + k, gameId, players[k])
  {
    seq(|players|, k requires 0 <= k < |players| => FreshSession(start + k, gameId, players[k]))
  }

  /** `create_game_session`: appends one row for (game, user) whose
      counters start at zero. */
  method CreateGameSession(db: Database, gameId: GameId, userId: UserId)
    requires db.Valid()
    modifies db
    ensures db.Valid()
    ensures db.sessions == old(db.sessions) + [FreshSession(|old(db.sessions)|, gameId, userId)]
    ensures db.games == old(db.games) && db.answers == old(db.answers)
    ensures db.users == old(db.users) && db.questions == old(db.questions)
  {
    db.sessions := db.sessions + [FreshSession(|db.sessions|, gameId, userId)];
  }

  predicate Eligible(q: Question, subject: string, excludeIds: seq<QuestionId>)
  {
    q.subject == subject && q.id !in excludeIds
  }

  /** How many questions of the bank pass the query's filter. */
  function CountEligible(bank: seq<Question>, subject: string, excludeIds: seq<QuestionId>): (n: nat)
    ensures n <= |bank|
  {
    if bank == [] then 0
    else (if Eligible(bank[0], subject, excludeIds) then 1 else 0) + CountEligible(bank[1..], subject, excludeIds)
  }

  /** `get_random_unused_questions_by_subject`: at most `count` questions of
      the subject whose ids are not excluded, and as many of them as the
      bank holds up to that limit. */
  function SelectQuestions(bank: seq<Question>, subject: string, count: nat, excludeIds: seq<QuestionId>): (r: seq<Question>)
    ensures |r| == Min(count, CountEligible(bank, subject, excludeIds))
    ensures forall q :: q in r ==> q in bank && q.subject == subject && q.id !in excludeIds
  {
    if count == 0 || bank == [] then []
    else if Eligible(bank[0], subject, excludeIds) then
      [bank[0]] + SelectQuestions(bank[1..], subject, count - 1, excludeIds)
    else
      SelectQuestions(bank[1..], subject, count, excludeIds)
  }

  /** The draw takes distinct rows of the bank: no row is returned more
      often than the bank holds it. */
  lemma {:induction false} SelectQuestionsFromBank(bank: seq<Question>, subject: string, count: nat, excludeIds: seq<QuestionId>)
    ensures multiset(SelectQuestions(bank, subject, count, excludeIds)) <= multiset(bank)
  {
    if count > 0 && bank != [] {
      var rest := bank[1..];
      assert multiset(bank) == multiset{bank[0]} + multiset(rest) by {
        assert bank == [bank[0]] + rest;
      }
      if Eligible(bank[0], subject, excludeIds) {
        SelectQuestionsFromBank(rest, subject, count - 1, excludeIds);
      } else {
        SelectQuestionsFromBank(rest, subject, count, excludeIds);
      }
    }
  }

  ghost predicate DistinctIds(qs: seq<Question>)
  {
    forall i, j :: 0 <= i < j < |qs| ==> qs[i].id != qs[j].id
  }

  /** Dropping the first question keeps the ids distinct. */
  lemma DistinctIdsTail(qs: seq<Question>)
    requires qs != [] && DistinctIds(qs)
    ensures DistinctIds(qs[1..])
  {
    var rest := qs[1..];
    forall i, j | 0 <= i < j < |rest|
      ensures rest[i].id != rest[j].id
    {
      assert rest[i] == qs[i + 1] && rest[j] == qs[j + 1];
    }
  }

  /** Keeping the first question in front of distinct questions drawn from
      the rest keeps the ids distinct. */
  lemma DistinctIdsStep(qs: seq<Question>, tail: seq<Question>)
    requires qs != [] && DistinctIds(qs) && DistinctIds(tail)
    requires forall x :: x in tail ==> x in qs[1..]
    ensures DistinctIds([qs[0]] + tail)
  {
    var r := [qs[0]] + tail;
    forall i, j | 0 <= i < j < |r|
      ensures r[i].id != r[j].id
    {
      assert r[j] == tail[j - 1];
      if i > 0 {
        assert r[i] == tail[i - 1];
      } else {
        assert tail[j - 1] in qs[1..];
        var k :| 0 <= k < |qs[1..]| && qs[1..][k] == tail[j - 1];
        assert qs[k + 1] == tail[j - 1];
      }
    }
  }

  /** With the bank's primary keys unique, the questions drawn for a game
      are all different. */
  lemma {:induction false} SelectQuestionsDistinct(bank: seq<Question>, subject: string, count: nat, excludeIds: seq<QuestionId>)
    requires DistinctIds(bank)
    ensures DistinctIds(SelectQuestions(bank, subject, count, excludeIds))
  {
    if count > 0 && bank != [] {
      var rest := bank[1..];
      DistinctIdsTail(bank);
      if Eligible(bank[0], subject, excludeIds) {
        var tail := SelectQuestions(rest, subject, count - 1, excludeIds);
        SelectQuestionsDistinct(rest, subject, count - 1, excludeIds);
        DistinctIdsStep(bank, tail);
      } else {
        SelectQuestionsDistinct(rest, subject, count, excludeIds);
      }
    }
  }
}
// The live-match service: starting a game, serving its current question,
// advancing the cursor once everyone has answered, finishing the game
// (team totals, winner, user counters) and projecting its state.

module GameService {
  import opened Common
  import opened Models
  import opened GameQueries

  /** The `ValueError`s raised by `start_game` and `end_game`. */
  datatype GameError = GameNotFound | GameCannotBeStarted | NotEnoughQuestions(subject: string)

  /** The dict `start_game` returns; its status is always "started". */
  datatype StartReply = StartReply(gameId: GameId, startTime: int, endTime: int, totalQuestions: nat, players: seq<UserId>)

  function ToQuestionData(q: Question): QuestionData
  {
    QuestionData(q.id, q.questionText, q.options, q.correctAnswer, q.points)
  }

  /** The question entries of the cached blob, in draw order. */
  function Snapshot(qs: seq<Question>): (r: seq<QuestionData>)
    ensures |r| == |qs|
    ensures forall k :: 0 <= k < |qs| ==> r[k] == ToQuestionData(qs[k])
  {
    seq(|qs|, k requires 0 <= k < |qs| => ToQuestionData(qs[k]))
  }

  /** The blob `start_game` caches under `game:{id}`: cursor 0, status
      "in_progress", no used ids yet, the players in team order and the
      teams with their member lists. */
  function NewLiveSession(game: Game, startTime: int, endTime: int, questions: seq<Question>): LiveSession
  {
    LiveSession(game.id, IN_PROGRESS, startTime, endTime, 0, Snapshot(questions),
                Roster(game.teams), TeamRosters(game.teams), [])
  }

  lemma FreshSessionsSnoc(start: nat, gameId: GameId, players: seq<UserId>, u: UserId)
    ensures FreshSessions(start, gameId, players + [u])
         == FreshSessions(start, gameId, players) + [FreshSession(start + |players|, gameId, u)]
  {
    var a := FreshSessions(start, gameId, players + [u]);
    var b := FreshSessions(start, gameId, players) + [FreshSession(start + |players|, gameId, u)];
    forall k | 0 <= k < |a|
      ensures a[k] == b[k]
    {
      if k < |players| {
        assert (players + [u])[k] == players[k];
      }
    }
  }

  lemma FreshSessionsAppend(start: nat, gameId: GameId, a: seq<UserId>, b: seq<UserId>)
    ensures FreshSessions(start, gameId, a + b)
         == FreshSessions(start, gameId, a) + FreshSessions(start + |a|, gameId, b)
  {
    var x := FreshSessions(start, gameId, a + b);
    var y := FreshSessions(start, gameId, a) + FreshSessions(start + |a|, gameId, b);
    forall k | 0 <= k < |x|
      ensures x[k] == y[k]
    {
      if k < |a| {
        assert (a + b)[k] == a[k];
      } else {
        assert (a + b)[k] == b[k - |a|];
      }
    }
  }

  /** `start_game`: the three refusals come first and change nothing; then
      the game is put in progress with its start and end time, one fresh
      session is created per team member in team order, and the live blob
      is cached. */
  method StartGame(db: Database, cache: Cache, gameId: GameId, now: int, gameDuration: int)
    returns (r: Result<StartReply, GameError>)
    requires db.Valid() && cache.Valid()
    modifies db, cache
    ensures db.Valid() && cache.Valid()
    ensures gameId !in old(db.games) ==> r == Err(GameNotFound)
    ensures gameId in old(db.games) && old(db.games[gameId].status) != Waiting ==> r == Err(GameCannotBeStarted)
    ensures gameId in old(db.games) && old(db.games[gameId].status) == Waiting
            && CountEligible(old(db.questions), old(db.games[gameId].subject), []) < QUESTIONS_PER_GAME
            ==> r == Err(NotEnoughQuestions(old(db.games[gameId].subject)))
    ensures gameId in old(db.games) && old(db.games[gameId].status) == Waiting
            && CountEligible(old(db.questions), old(db.games[gameId].subject), []) >= QUESTIONS_PER_GAME
            ==> r.Ok?
    ensures r.Err? ==> unchanged(db) && unchanged(cache)
    ensures r.Ok? ==> gameId in old(db.games) && old(db.games[gameId].status) == Waiting
    ensures r.Ok? ==>
      var game := old(db.games[gameId]);
      var questions := SelectQuestions(old(db.questions), game.subject, QUESTIONS_PER_GAME, []);
      && |questions| == QUESTIONS_PER_GAME
      && db.games == old(db.games)[gameId := game.(status := InProgress, startTime := Some(now), endTime := Some(now + gameDuration))]
      && db.sessions == old(db.sessions) + FreshSessions(|old(db.sessions)|, gameId, Roster(game.teams))
      && db.answers == old(db.answers) && db.users == old(db.users) && db.questions == old(db.questions)
      && cache.live == old(cache.live)[gameId := NewLiveSession(game, now, now + gameDuration, questions)]
      && cache.answered == old(cache.answered)
      && cache.userScores == old(cache.userScores) && cache.teamScores == old(cache.teamScores)
      && r.value == StartReply(gameId, now, now + gameDuration, QUESTIONS_PER_GAME, Roster(game.teams))
  {
    if gameId !in db.games {
      return Err(GameNotFound);
    }
    var game := db.games[gameId];
    if game.status != Waiting {
      return Err(GameCannotBeStarted);
    }
    var questions := SelectQuestions(db.questions, game.subject, QUESTIONS_PER_GAME, []);
    if |questions| < QUESTIONS_PER_GAME {
      return Err(NotEnoughQuestions(game.subject));
    }
    var endTime := now + gameDuration;
    UpdateGameStatus(db, gameId, InProgress, Some(now), Some(endTime));
    assert db.games == old(db.games)[gameId := game.(status := InProgress, startTime := Some(now), endTime := Some(endTime))];
    var allPlayers := CreateRosterSessions(db, gameId, game.teams);
    cache.live := cache.live[gameId := NewLiveSession(game, now, endTime, questions)];
    r := Ok(StartReply(gameId, now, endTime, |questions|, allPlayers));
  }

  /** The loops of `start_game` over the teams and their members: one
      fresh session per player, in team order. */
  method CreateRosterSessions(db: Database, gameId: GameId, teams: seq<Team>) returns (players: seq<UserId>)
    requires db.Valid()
    modifies db
    ensures db.Valid()
    ensures players == Roster(teams)
    ensures db.sessions == old(db.sessions) + FreshSessions(|old(db.sessions)|, gameId, players)
    ensures db.games == old(db.games) && db.answers == old(db.answers)
    ensures db.users == old(db.users) && db.questions == old(db.questions)
  {
    players := [];
    var i := 0;
    while i < |teams|
      invariant 0 <= i <= |teams|
      invariant db.Valid()
      invariant players == Roster(teams[..i])
      invariant db.sessions == old(db.sessions) + FreshSessions(|old(db.sessions)|, gameId, players)
      invariant db.games == old(db.games) && db.answers == old(db.answers)
      invariant db.users == old(db.users) && db.questions == old(db.questions)
    {
      var members := teams[i].members;
      CreateTeamSessions(db, gameId, members);
      FreshSessionsAppend(|old(db.sessions)|, gameId, players, members);
      RosterSnoc(teams, i);
      players := players + members;
      i := i + 1;
    }
    assert teams[..i] == teams;
  }

  /** The inner loop of `start_game`: one fresh session per member of one
      team, in member order. */
  method CreateTeamSessions(db: Database, gameId: GameId, members: seq<UserId>)
    requires db.Valid()
    modifies db
    ensures db.Valid()
    ensures db.sessions == old(db.sessions) + FreshSessions(|old(db.sessions)|, gameId, members)
    ensures db.games == old(db.games) && db.answers == old(db.answers)
    ensures db.users == old(db.users) && db.questions == old(db.questions)
  {
    var j := 0;
    while j < |members|
      invariant 0 <= j <= |members|
      invariant db.Valid()
      invariant db.sessions == old(db.sessions) + FreshSessions(|old(db.sessions)|, gameId, members[..j])
      invariant db.games == old(db.games) && db.answers == old(db.answers)
      invariant db.users == old(db.users) && db.questions == old(db.questions)
    {
      FreshSessionsSnoc(|old(db.sessions)|, gameId, members[..j], members[j]);
      assert members[..j + 1] == members[..j] + [members[j]];
      CreateGameSession(db, gameId, members[j]);
      j := j + 1;
    }
    assert members[..j] == members;
  }

  /** What `get_current_question` serves: the question without its answer. */
  datatype QuestionView = QuestionView(
    id: QuestionId,
    questionText: string,
    options: seq<string>,
    points: int,
    questionNumber: nat,
    totalQuestions: nat)

  datatype QuestionFailure = GameNotFoundOrExpired | GameNotInProgress(status: string) | NoQuestions | AllQuestionsCompleted

  /** The checks of `get_current_question` on a cached blob, in their order. */
  function CurrentQuestion(s: LiveSession): (r: Result<QuestionView, QuestionFailure>)
    ensures r.Ok? <==> s.status == IN_PROGRESS && s.currentQuestion < |s.questions|
    ensures r.Ok? ==> r.value.id == s.questions[s.currentQuestion].id
    ensures r.Ok? ==> r.value.questionNumber == s.currentQuestion + 1 && r.value.totalQuestions == |s.questions|
    ensures s.status != IN_PROGRESS ==> r == Err(GameNotInProgress(s.status))
    ensures s.status == IN_PROGRESS && s.questions == [] ==> r == Err(NoQuestions)
    ensures s.status == IN_PROGRESS && s.questions != [] && s.currentQuestion >= |s.questions|
            ==> r == Err(AllQuestionsCompleted)
  {
    if s.status != IN_PROGRESS then Err(GameNotInProgress(s.status))
    else if s.questions == [] then Err(NoQuestions)
    else if s.currentQuestion >= |s.questions| then Err(AllQuestionsCompleted)
    else
      var q := s.questions[s.currentQuestion];
      Ok(QuestionView(q.id, q.questionText, q.options, q.points, s.currentQuestion + 1, |s.questions|))
  }

  /** The blob after the served id is recorded as used. */
  function MarkUsed(s: LiveSession, id: QuestionId): (r: LiveSession)
    ensures id in r.usedQuestionIds
    ensures forall x :: x in r.usedQuestionIds <==> x in s.usedQuestionIds || x == id
    ensures r.(usedQuestionIds := s.usedQuestionIds) == s
  {
    if id in s.usedQuestionIds then s else s.(usedQuestionIds := s.usedQuestionIds + [id])
  }

  /** Serving the same question twice records its id once. */
  lemma MarkUsedIdempotent(s: LiveSession, id: QuestionId)
    ensures MarkUsed(MarkUsed(s, id), id) == MarkUsed(s, id)
  {
  }

  /** Recording the id never changes which question is served next. */
  lemma MarkUsedKeepsQuestion(s: LiveSession, id: QuestionId)
    ensures CurrentQuestion(MarkUsed(s, id)) == CurrentQuestion(s)
  {
  }

  /** `get_current_question`: a read that at most adds the served id to
      the used ids; the cursor, status and questions never change. */
  method GetCurrentQuestion(cache: Cache, gameId: GameId) returns (r: Result<QuestionView, QuestionFailure>)
    requires cache.Valid()
    modifies cache
    ensures cache.Valid()
    ensures gameId !in old(cache.live) ==> r == Err(GameNotFoundOrExpired)
    ensures gameId in old(cache.live) ==> r == CurrentQuestion(old(cache.live[gameId]))
    ensures cache.live == if r.Ok? then old(cache.live)[gameId := MarkUsed(old(cache.live[gameId]), r.value.id)]
                          else old(cache.live)
    ensures cache.answered == old(cache.answered)
    ensures cache.userScores == old(cache.userScores) && cache.teamScores == old(cache.teamScores)
  {
    if gameId !in cache.live {
      return Err(GameNotFoundOrExpired);
    }
    var s := cache.live[gameId];
    r := CurrentQuestion(s);
    if r.Ok? {
      var id := r.value.id;
      if id !in s.usedQuestionIds {
        cache.live := cache.live[gameId := s.(usedQuestionIds := s.usedQuestionIds + [id])];
      } else {
        assert cache.live == cache.live[gameId := s];
      }
    }
  }

  /** How many entries of `players` carry the answered marker of question
      `qid` in game `g`. */
  function AnsweredCount(answered: set<AnsweredKey>, g: GameId, qid: QuestionId, players: seq<UserId>): (n: nat)
    ensures n <= |players|
  {
    if players == [] then 0
    else
      AnsweredCount(answered, g, qid, players[..|players| - 1])
      + (if (g, qid, players[|players| - 1]) in answered then 1 else 0)
  }

  ghost predicate AllAnswered(answered: set<AnsweredKey>, g: GameId, qid: QuestionId, players: seq<UserId>)
  {
    forall p :: p in players ==> (g, qid, p) in answered
  }

  /** The count reaches the number of players exactly when every listed
      player has answered. */
  lemma {:induction false} AnsweredCountFull(answered: set<AnsweredKey>, g: GameId, qid: QuestionId, players: seq<UserId>)
    ensures AnsweredCount(answered, g, qid, players) >= |players| <==> AllAnswered(answered, g, qid, players)
  {
    if players != [] {
      var init := players[..|players| - 1];
      var last := players[|players| - 1];
      AnsweredCountFull(answered, g, qid, init);
      assert players == init + [last];
      assert forall p :: p in players <==> p in init || p == last;
    }
  }

  /** Index of the first session of `u` in game `g`, as `next(...)` finds it. */
  function FirstSession(sessions: seq<GameSession>, g: GameId, u: UserId): (r: Option<nat>)
    ensures r.Some? ==> r.value < |sessions| && sessions[r.value].gameId == g && sessions[r.value].userId == u
    ensures r.Some? ==> forall k :: 0 <= k < r.value ==> !(sessions[k].gameId == g && sessions[k].userId == u)
    ensures r.None? ==> forall k :: 0 <= k < |sessions| ==> !(sessions[k].gameId == g && sessions[k].userId == u)
  {
    if sessions == [] then None
    else if sessions[0].gameId == g && sessions[0].userId == u then Some(0)
    else match FirstSession(sessions[1..], g, u)
      case None => None
      case Some(k) => Some(k + 1)
  }

  /** What one member adds to the team total: the score of the session,
      or nothing without one. */
  function Contribution(sessions: seq<GameSession>, g: GameId, u: UserId): real
  {
    match FirstSession(sessions, g, u)
    case None => 0.0
    case Some(k) => sessions[k].totalScore
  }

  /** `end_game`'s team total: the members' contributions, member by member. */
  function TeamTotal(sessions: seq<GameSession>, g: GameId, members: seq<UserId>): real
  {
    if members == [] then 0.0
    else TeamTotal(sessions, g, members[..|members| - 1]) + Contribution(sessions, g, members[|members| - 1])
  }

  function TeamTotals(sessions: seq<GameSession>, g: GameId, teams: seq<Team>): (r: seq<real>)
    ensures |r| == |teams|
    ensures forall k :: 0 <= k < |teams| ==> r[k] == TeamTotal(sessions, g, teams[k].members)
  {
    seq(|teams|, k requires 0 <= k < |teams| => TeamTotal(sessions, g, teams[k].members))
  }

  /** Python's `max` over the totals: the first position holding the
      largest value. */
  function FirstMaxIndex(xs: seq<real>): (r: nat)
    requires xs != []
    ensures r < |xs|
    ensures forall j :: 0 <= j < |xs| ==> xs[j] <= xs[r]
    ensures forall j :: 0 <= j < r ==> xs[j] < xs[r]
  {
    if |xs| == 1 then 0
    else
      var k := FirstMaxIndex(xs[..|xs| - 1]);
      if xs[|xs| - 1] > xs[k] then |xs| - 1 else k
  }

  /** The winning team id: none without teams, otherwise the first team
      with the largest total. */
  function Winner(teams: seq<Team>, totals: seq<real>): (r: Option<TeamId>)
    requires |totals| == |teams|
    ensures r.None? <==> teams == []
  {
    if teams == [] then None else Some(teams[FirstMaxIndex(totals)].id)
  }

  /** The teams as `end_game` leaves them: each total written back and
      the winner flag set on the team whose id won. */
  function FinalTeams(teams: seq<Team>, totals: seq<real>, winner: Option<TeamId>): (r: seq<Team>)
    requires |totals| == |teams|
    ensures |r| == |teams|
    ensures forall k :: 0 <= k < |teams| ==>
      r[k] == teams[k].(totalScore := totals[k], isWinner := winner == Some(teams[k].id))
  {
    seq(|teams|, k requires 0 <= k < |teams| => teams[k].(totalScore := totals[k], isWinner := winner == Some(teams[k].id)))
  }

  /** The `team_scores` dict, filled in team order. */
  function ScoreMap(teams: seq<Team>, totals: seq<real>): map<TeamId, real>
    requires |totals| == |teams|
  {
    if teams == [] then map[]
    else
      var n := |teams| - 1;
      ScoreMap(teams[..n], totals[..n])[teams[n].id := totals[n]]
  }

  /** The `team_scores` dict has exactly the listed team ids as keys. */
  lemma {:induction false} ScoreMapKeys(teams: seq<Team>, totals: seq<real>, t: TeamId)
    requires |totals| == |teams|
    ensures t in ScoreMap(teams, totals) <==> exists k :: 0 <= k < |teams| && teams[k].id == t
  {
    if teams != [] {
      var n := |teams| - 1;
      ScoreMapKeys(teams[..n], totals[..n], t);
      if t in ScoreMap(teams[..n], totals[..n]) {
        var k :| 0 <= k < n && teams[..n][k].id == t;
        assert teams[k].id == t;
      }
      if exists k :: 0 <= k < |teams| && teams[k].id == t {
        var k :| 0 <= k < |teams| && teams[k].id == t;
        if k < n {
          assert teams[..n][k].id == t;
        }
      }
    }
  }

  /** With distinct ids, each team id maps to that team's total. */
  lemma {:induction false} ScoreMapValues(teams: seq<Team>, totals: seq<real>, k: nat)
    requires |totals| == |teams| && k < |teams|
    requires TeamIdsDistinct(teams)
    ensures teams[k].id in ScoreMap(teams, totals)
    ensures ScoreMap(teams, totals)[teams[k].id] == totals[k]
  {
    var n := |teams| - 1;
    if k < n {
      assert TeamIdsDistinct(teams[..n]);
      ScoreMapValues(teams[..n], totals[..n], k);
      assert teams[..n][k] == teams[k] && totals[..n][k] == totals[k];
    }
  }

  /** The members of every team whose id won, in team order. */
  function WinnerRoster(teams: seq<Team>, winner: Option<TeamId>): seq<UserId>
  {
    if teams == [] then []
    else
      var last := teams[|teams| - 1];
      WinnerRoster(teams[..|teams| - 1], winner) + (if winner == Some(last.id) then last.members else [])
  }

  lemma WinnerRosterSnoc(teams: seq<Team>, i: nat, winner: Option<TeamId>)
    requires i < |teams|
    ensures WinnerRoster(teams[..i + 1], winner)
         == WinnerRoster(teams[..i], winner) + (if winner == Some(teams[i].id) then teams[i].members else [])
  {
    assert teams[..i + 1][..i] == teams[..i];
  }

  /** With distinct team ids the winners credited are exactly the members
      of the one team carrying the winning id. */
  lemma {:induction false} WinnerRosterOfDistinct(teams: seq<Team>, k: nat)
    requires TeamIdsDistinct(teams) && k < |teams|
    ensures WinnerRoster(teams, Some(teams[k].id)) == teams[k].members
  {
    var n := |teams| - 1;
    var init := teams[..n];
    if k < n {
      assert TeamIdsDistinct(init);
      assert init[k] == teams[k];
      WinnerRosterOfDistinct(init, k);
    } else {
      WinnerRosterAbsent(init, teams[k].id);
    }
  }

  lemma {:induction false} WinnerRosterAbsent(teams: seq<Team>, id: TeamId)
    requires forall k :: 0 <= k < |teams| ==> teams[k].id != id
    ensures WinnerRoster(teams, Some(id)) == []
  {
    if teams != [] {
      WinnerRosterAbsent(teams[..|teams| - 1], id);
    }
  }

  /** The user rows after crediting every listed member that has a session
      in game `g` with one more game and that session's score. */
  function CreditPlayed(users: map<UserId, User>, sessions: seq<GameSession>, g: GameId, members: seq<UserId>): (r: map<UserId, User>)
    ensures r.Keys == users.Keys
  {
    if members == [] then users
    else
      var prev := CreditPlayed(users, sessions, g, members[..|members| - 1]);
      var u := members[|members| - 1];
      match FirstSession(sessions, g, u)
      case None => prev
      case Some(k) =>
        if u in prev then
          prev[u := prev[u].(totalGames := prev[u].totalGames + 1, totalScore := prev[u].totalScore + sessions[k].totalScore)]
        else prev
  }

  lemma {:induction false} CreditPlayedAppend(users: map<UserId, User>, sessions: seq<GameSession>, g: GameId, a: seq<UserId>, b: seq<UserId>)
    ensures CreditPlayed(users, sessions, g, a + b) == CreditPlayed(CreditPlayed(users, sessions, g, a), sessions, g, b)
  {
    if b == [] {
      assert a + b == a;
    } else {
      var b' := b[..|b| - 1];
      assert (a + b)[..|a + b| - 1] == a + b';
      assert (a + b)[|a + b| - 1] == b[|b| - 1];
      CreditPlayedAppend(users, sessions, g, a, b');
    }
  }

  /** Closed form: a user gains one game and the session's score per time
      they are listed, provided they have a session in the game. */
  lemma {:induction false} CreditPlayedEffect(users: map<UserId, User>, sessions: seq<GameSession>, g: GameId, members: seq<UserId>, u: UserId)
    requires u in users
    ensures var c := if FirstSession(sessions, g, u).Some? then Count(members, u) else 0;
      var after := CreditPlayed(users, sessions, g, members)[u];
      && after.totalGames == users[u].totalGames + c
      && after.totalScore == users[u].totalScore + Times(c, Contribution(sessions, g, u))
      && after.totalWins == users[u].totalWins
      && after.username == users[u].username && after.country == users[u].country
  {
    if members != [] {
      var init := members[..|members| - 1];
      var last := members[|members| - 1];
      var prev := CreditPlayed(users, sessions, g, init);
      CreditPlayedEffect(users, sessions, g, init, u);
      assert members == init + [last];
      CountSnoc(init, last, u);
      if last != u {
        assert CreditPlayed(users, sessions, g, members)[u] == prev[u];
      } else {
        match FirstSession(sessions, g, u)
        case None =>
          assert CreditPlayed(users, sessions, g, members) == prev;
        case Some(k) =>
          assert CreditPlayed(users, sessions, g, members)[u]
              == prev[u].(totalGames := prev[u].totalGames + 1, totalScore := prev[u].totalScore + sessions[k].totalScore);
      }
    }
  }

  /** `x` added to itself `c` times. */
  function Times(c: nat, x: real): (r: real)
  {
    if c == 0 then 0.0 else Times(c - 1, x) + x
  }

  lemma {:induction false} TimesIsProduct(c: nat, x: real)
    ensures Times(c, x) == c as real * x
  {
    if c > 0 {
      TimesIsProduct(c - 1, x);
    }
  }

  /** The user rows after one more win for every listed member. */
  function CreditWins(users: map<UserId, User>, members: seq<UserId>): (r: map<UserId, User>)
    ensures r.Keys == users.Keys
  {
    if members == [] then users
    else
      var prev := CreditWins(users, members[..|members| - 1]);
      var u := members[|members| - 1];
      if u in prev then prev[u := prev[u].(totalWins := prev[u].totalWins + 1)] else prev
  }

  lemma {:induction false} CreditWinsAppend(users: map<UserId, User>, a: seq<UserId>, b: seq<UserId>)
    ensures CreditWins(users, a + b) == CreditWins(CreditWins(users, a), b)
  {
    if b == [] {
      assert a + b == a;
    } else {
      var b' := b[..|b| - 1];
      assert (a + b)[..|a + b| - 1] == a + b';
      assert (a + b)[|a + b| - 1] == b[|b| - 1];
      CreditWinsAppend(users, a, b');
    }
  }

  lemma {:induction false} CreditWinsEffect(users: map<UserId, User>, members: seq<UserId>, u: UserId)
    requires u in users
    ensures CreditWins(users, members)[u] == users[u].(totalWins := users[u].totalWins + Count(members, u))
  {
    if members != [] {
      var init := members[..|members| - 1];
      var last := members[|members| - 1];
      CreditWinsEffect(users, init, u);
      assert members == init + [last];
      CountSnoc(init, last, u);
    }
  }

  /** The game row `end_game` leaves behind. */
  function EndedGame(game: Game, sessions: seq<GameSession>, now: int): Game
  {
    var totals := TeamTotals(sessions, game.id, game.teams);
    game.(status := Finished, endTime := Some(now), teams := FinalTeams(game.teams, totals, Winner(game.teams, totals)))
  }

  /** The user rows `end_game` leaves behind. */
  function EndedUsers(users: map<UserId, User>, sessions: seq<GameSession>, game: Game): map<UserId, User>
  {
    var totals := TeamTotals(sessions, game.id, game.teams);
    CreditWins(CreditPlayed(users, sessions, game.id, Roster(game.teams)), WinnerRoster(game.teams, Winner(game.teams, totals)))
  }

  /** The dict `end_game` returns; its status is always "finished". */
  datatype EndReply = EndReply(gameId: GameId, teams: seq<Team>, teamScores: map<TeamId, real>, winner: Option<TeamId>)

  function EndReplyOf(game: Game, sessions: seq<GameSession>): EndReply
  {
    var totals := TeamTotals(sessions, game.id, game.teams);
    var winner := Winner(game.teams, totals);
    EndReply(game.id, FinalTeams(game.teams, totals, winner), ScoreMap(game.teams, totals), winner)
  }

  /** Exactly one team of a finished game with teams is the winner: the
      first one with the largest total. */
  lemma EndedGameWinner(game: Game, sessions: seq<GameSession>, now: int)
    requires TeamIdsDistinct(game.teams) && game.teams != []
    ensures var ended := EndedGame(game, sessions, now);
      var w := FirstMaxIndex(TeamTotals(sessions, game.id, game.teams));
      && ended.teams[w].isWinner
      && (forall k :: 0 <= k < |ended.teams| && k != w ==> !ended.teams[k].isWinner)
      && (forall k :: 0 <= k < |ended.teams| ==> ended.teams[k].totalScore <= ended.teams[w].totalScore)
      && (forall k :: 0 <= k < w ==> ended.teams[k].totalScore < ended.teams[w].totalScore)
  {
  }

  /** The counters `end_game` leaves on a user: one game and the session's
      score per listing when they played, one win per listing on the
      winning team. */
  lemma EndedUsersEffect(users: map<UserId, User>, sessions: seq<GameSession>, game: Game, u: UserId)
    requires u in users && TeamIdsDistinct(game.teams) && game.teams != []
    ensures var totals := TeamTotals(sessions, game.id, game.teams);
      var winning := game.teams[FirstMaxIndex(totals)];
      var c := if FirstSession(sessions, game.id, u).Some? then Count(Roster(game.teams), u) else 0;
      var after := EndedUsers(users, sessions, game);
      && u in after
      && after[u].totalGames == users[u].totalGames + c
      && after[u].totalScore == users[u].totalScore + Times(c, Contribution(sessions, game.id, u))
      && after[u].totalWins == users[u].totalWins + Count(winning.members, u)
      && after[u].username == users[u].username && after[u].country == users[u].country
  {
    var totals := TeamTotals(sessions, game.id, game.teams);
    var w := FirstMaxIndex(totals);
    var played := CreditPlayed(users, sessions, game.id, Roster(game.teams));
    CreditPlayedEffect(users, sessions, game.id, Roster(game.teams), u);
    WinnerRosterOfDistinct(game.teams, w);
    CreditWinsEffect(played, game.teams[w].members, u);
  }

  /** The effect of `end_game` on the stores when the game exists. */
  twostate predicate EndedIn(db: Database, cache: Cache, gameId: GameId, now: int)
    reads db, cache
  {
    && gameId in old(db.games)
    && db.games == old(db.games)[gameId := EndedGame(old(db.games[gameId]), old(db.sessions), now)]
    && db.users == EndedUsers(old(db.users), old(db.sessions), old(db.games[gameId]))
    && db.sessions == old(db.sessions) && db.answers == old(db.answers) && db.questions == old(db.questions)
    && cache.live == old(cache.live) - {gameId}
    && cache.answered == old(cache.answered)
    && cache.userScores == old(cache.userScores) && cache.teamScores == old(cache.teamScores)
  }

  /** One pass of `end_game`'s team loop: the team total, and one more
      game plus the session's score for each member that played. */
  method TallyTeam(db: Database, g: GameId, members: seq<UserId>) returns (total: real)
    requires db.Valid()
    modifies db
    ensures db.Valid()
    ensures total == TeamTotal(db.sessions, g, members)
    ensures db.users == CreditPlayed(old(db.users), db.sessions, g, members)
    ensures db.games == old(db.games) && db.sessions == old(db.sessions)
    ensures db.answers == old(db.answers) && db.questions == old(db.questions)
  {
    total := 0.0;
    var j := 0;
    while j < |members|
      invariant 0 <= j <= |members|
      invariant db.Valid()
      invariant total == TeamTotal(db.sessions, g, members[..j])
      invariant db.users == CreditPlayed(old(db.users), db.sessions, g, members[..j])
      invariant db.games == old(db.games) && db.sessions == old(db.sessions)
      invariant db.answers == old(db.answers) && db.questions == old(db.questions)
    {
      var u := members[j];
      assert members[..j + 1][..j] == members[..j];
      var found := FirstSession(db.sessions, g, u);
      if found.Some? {
        var score := db.sessions[found.value].totalScore;
        total := total + score;
        if u in db.users {
          var user := db.users[u];
          db.users := db.users[u := user.(totalGames := user.totalGames + 1, totalScore := user.totalScore + score)];
        }
      }
      j := j + 1;
    }
    assert members[..j] == members;
  }

  /** One more win for each member of the winning team. */
  method CreditWinners(db: Database, members: seq<UserId>)
    requires db.Valid()
    modifies db
    ensures db.Valid()
    ensures db.users == CreditWins(old(db.users), members)
    ensures db.games == old(db.games) && db.sessions == old(db.sessions)
    ensures db.answers == old(db.answers) && db.questions == old(db.questions)
  {
    var j := 0;
    while j < |members|
      invariant 0 <= j <= |members|
      invariant db.Valid()
      invariant db.users == CreditWins(old(db.users), members[..j])
      invariant db.games == old(db.games) && db.sessions == old(db.sessions)
      invariant db.answers == old(db.answers) && db.questions == old(db.questions)
    {
      var u := members[j];
      assert members[..j + 1][..j] == members[..j];
      if u in db.users {
        var user := db.users[u];
        db.users := db.users[u := user.(totalWins := user.totalWins + 1)];
      }
      j := j + 1;
    }
    assert members[..j] == members;
  }

  /** `end_game`'s team loop: the totals in team order, and every member
      that played credited with the game and its score. */
  method TallyTeams(db: Database, g: GameId, teams: seq<Team>) returns (totals: seq<real>)
    requires db.Valid()
    modifies db
    ensures db.Valid()
    ensures totals == TeamTotals(db.sessions, g, teams)
    ensures db.users == CreditPlayed(old(db.users), db.sessions, g, Roster(teams))
    ensures db.games == old(db.games) && db.sessions == old(db.sessions)
    ensures db.answers == old(db.answers) && db.questions == old(db.questions)
  {
    totals := [];
    var i := 0;
    while i < |teams|
      invariant 0 <= i <= |teams|
      invariant db.Valid()
      invariant |totals| == i
      invariant forall k :: 0 <= k < i ==> totals[k] == TeamTotal(db.sessions, g, teams[k].members)
      invariant db.users == CreditPlayed(old(db.users), db.sessions, g, Roster(teams[..i]))
      invariant db.games == old(db.games) && db.sessions == old(db.sessions)
      invariant db.answers == old(db.answers) && db.questions == old(db.questions)
    {
      var total := TallyTeam(db, g, teams[i].members);
      CreditPlayedAppend(old(db.users), db.sessions, g, Roster(teams[..i]), teams[i].members);
      RosterSnoc(teams, i);
      totals := totals + [total];
      i := i + 1;
    }
    assert teams[..i] == teams;
  }

  /** `end_game`'s winner loop: one more win for each member of every team
      carrying the winning id. */
  method CreditWinningTeams(db: Database, teams: seq<Team>, winner: TeamId)
    requires db.Valid()
    modifies db
    ensures db.Valid()
    ensures db.users == CreditWins(old(db.users), WinnerRoster(teams, Some(winner)))
    ensures db.games == old(db.games) && db.sessions == old(db.sessions)
    ensures db.answers == old(db.answers) && db.questions == old(db.questions)
  {
    var i := 0;
    while i < |teams|
      invariant 0 <= i <= |teams|
      invariant db.Valid()
      invariant db.users == CreditWins(old(db.users), WinnerRoster(teams[..i], Some(winner)))
      invariant db.games == old(db.games) && db.sessions == old(db.sessions)
      invariant db.answers == old(db.answers) && db.questions == old(db.questions)
    {
      WinnerRosterSnoc(teams, i, Some(winner));
      if teams[i].id == winner {
        CreditWinners(db, teams[i].members);
        CreditWinsAppend(old(db.users), WinnerRoster(teams[..i], Some(winner)), teams[i].members);
      } else {
        assert WinnerRoster(teams[..i], Some(winner)) + [] == WinnerRoster(teams[..i], Some(winner));
      }
      i := i + 1;
    }
    assert teams[..i] == teams;
  }

  /** `end_game`'s winner step: with at least one team the first team
      with the largest total wins and its members are credited. */
  method PickWinner(db: Database, teams: seq<Team>, totals: seq<real>) returns (winner: Option<TeamId>)
    requires db.Valid() && |totals| == |teams|
    modifies db
    ensures db.Valid()
    ensures winner == Winner(teams, totals)
    ensures db.users == CreditWins(old(db.users), WinnerRoster(teams, winner))
    ensures db.games == old(db.games) && db.sessions == old(db.sessions)
    ensures db.answers == old(db.answers) && db.questions == old(db.questions)
  {
    winner := None;
    if |totals| > 0 {
      winner := Some(teams[FirstMaxIndex(totals)].id);
      CreditWinningTeams(db, teams, winner.value);
    } else {
      assert WinnerRoster(teams, winner) == [];
    }
  }

  /** Writes the final teams back onto the game row. */
  method WriteTeams(db: Database, gameId: GameId, teams: seq<Team>)
    requires db.Valid() && gameId in db.games
    requires |teams| == |db.games[gameId].teams|
    requires forall k :: 0 <= k < |teams| ==> teams[k].id == db.games[gameId].teams[k].id
    modifies db
    ensures db.Valid()
    ensures db.games == old(db.games)[gameId := old(db.games[gameId]).(teams := teams)]
    ensures db.users == old(db.users) && db.sessions == old(db.sessions)
    ensures db.answers == old(db.answers) && db.questions == old(db.questions)
  {
    db.games := db.games[gameId := db.games[gameId].(teams := teams)];
  }

  /** The database half of `end_game`: finishes the game (keeping its
      start time), writes each team's total and winner flag, and credits
      the players and the winners. */
  method FinishGameRows(db: Database, gameId: GameId, now: int) returns (reply: EndReply)
    requires db.Valid() && gameId in db.games
    modifies db
    ensures db.Valid()
    ensures db.games == old(db.games)[gameId := EndedGame(old(db.games[gameId]), old(db.sessions), now)]
    ensures db.users == EndedUsers(old(db.users), old(db.sessions), old(db.games[gameId]))
    ensures db.sessions == old(db.sessions) && db.answers == old(db.answers) && db.questions == old(db.questions)
    ensures reply == EndReplyOf(old(db.games[gameId]), old(db.sessions))
  {
    var game := db.games[gameId];
    var sessions := db.sessions;
    UpdateGameStatus(db, gameId, Finished, None, Some(now));
    assert db.games[gameId] == game.(status := Finished, endTime := Some(now));
    assert db.games == old(db.games)[gameId := game.(status := Finished, endTime := Some(now))];
    var totals := TallyTeams(db, game.id, game.teams);
    var winner := PickWinner(db, game.teams, totals);
    var teams := FinalTeams(game.teams, totals, winner);
    WriteTeams(db, gameId, teams);
    reply := EndReply(game.id, teams, ScoreMap(game.teams, totals), winner);
  }

  /** `end_game`: the game must exist; its rows are finished and the live
      blob is dropped. */
  method EndGame(db: Database, cache: Cache, gameId: GameId, now: int) returns (r: Result<EndReply, GameError>)
    requires db.Valid() && cache.Valid()
    modifies db, cache
    ensures db.Valid() && cache.Valid()
    ensures gameId !in old(db.games) ==> r == Err(GameNotFound) && unchanged(db) && unchanged(cache)
    ensures gameId in old(db.games) ==>
      EndedIn(db, cache, gameId, now) && r == Ok(EndReplyOf(old(db.games[gameId]), old(db.sessions)))
  {
    if gameId !in db.games {
      return Err(GameNotFound);
    }
    var reply := FinishGameRows(db, gameId, now);
    cache.live := cache.live - {gameId};
    r := Ok(reply);
  }

  /** What `check_and_advance_question` leaves behind: its result, the
      live blobs, and the game and user rows. */
  datatype AdvanceOutcome = AdvanceOutcome(
    result: Result<Option<bool>, GameError>,
    live: map<GameId, LiveSession>,
    games: map<GameId, Game>,
    users: map<UserId, User>)

  /** The advance check over explicit stores: nothing until every listed
      player has answered the current question; then the cursor moves on
      by one, or at the last question the game is ended. */
  ghost function Advance(live: map<GameId, LiveSession>, answered: set<AnsweredKey>, games: map<GameId, Game>,
                         users: map<UserId, User>, sessions: seq<GameSession>, g: GameId, now: int): AdvanceOutcome
    requires g in live ==> LiveSessionValid(live[g])
  {
    if g !in live then AdvanceOutcome(Ok(None), live, games, users)
    else
      var s := live[g];
      if !AllAnswered(answered, g, s.questions[s.currentQuestion].id, s.players) then
        AdvanceOutcome(Ok(None), live, games, users)
      else if s.currentQuestion < LAST_QUESTION_INDEX then
        AdvanceOutcome(Ok(Some(true)), live[g := s.(currentQuestion := s.currentQuestion + 1)], games, users)
      else if g in games then
        AdvanceOutcome(Ok(Some(false)), live - {g}, games[g := EndedGame(games[g], sessions, now)],
                       EndedUsers(users, sessions, games[g]))
      else
        AdvanceOutcome(Err(GameNotFound), live, games, users)
  }

  /** The advance check touches no other game: every other blob and game
      row is kept as it was. */
  lemma AdvanceTouchesOnlyGame(live: map<GameId, LiveSession>, answered: set<AnsweredKey>, games: map<GameId, Game>,
                               users: map<UserId, User>, sessions: seq<GameSession>, g: GameId, now: int, h: GameId)
    requires g in live ==> LiveSessionValid(live[g])
    requires h != g
    ensures var o := Advance(live, answered, games, users, sessions, g, now);
      && (h in o.live <==> h in live) && (h in live ==> o.live[h] == live[h])
      && (h in o.games <==> h in games) && (h in games ==> o.games[h] == games[h])
  {
  }

  /** The answer of the last listed player still missing makes the check
      act: the cursor moves on, or the game ends (or is reported missing). */
  lemma LastAnswerAdvances(live: map<GameId, LiveSession>, answered: set<AnsweredKey>, games: map<GameId, Game>,
                           users: map<UserId, User>, sessions: seq<GameSession>, g: GameId, now: int, u: UserId)
    requires g in live && LiveSessionValid(live[g])
    requires u in live[g].players
    requires forall p :: p in live[g].players && p != u ==>
      (g, live[g].questions[live[g].currentQuestion].id, p) in answered
    ensures var qid := live[g].questions[live[g].currentQuestion].id;
      Advance(live, answered + {(g, qid, u)}, games, users, sessions, g, now).result != Ok(None)
  {
    var s := live[g];
    var qid := s.questions[s.currentQuestion].id;
    assert AllAnswered(answered + {(g, qid, u)}, g, qid, s.players);
  }

  /** `check_and_advance_question`: nothing happens until every listed
      player has answered the current question; then the cursor moves on
      by one, or at the last question the game is ended. */
  method CheckAndAdvance(db: Database, cache: Cache, gameId: GameId, now: int) returns (r: Result<Option<bool>, GameError>)
    requires db.Valid() && cache.Valid()
    modifies db, cache
    ensures db.Valid() && cache.Valid()
    ensures db.sessions == old(db.sessions) && db.answers == old(db.answers) && db.questions == old(db.questions)
    ensures cache.answered == old(cache.answered)
    ensures cache.userScores == old(cache.userScores) && cache.teamScores == old(cache.teamScores)
    ensures AdvanceOutcome(r, cache.live, db.games, db.users)
         == Advance(old(cache.live), old(cache.answered), old(db.games), old(db.users), old(db.sessions), gameId, now)
    ensures gameId !in old(cache.live) ==> r == Ok(None) && unchanged(db) && unchanged(cache)
    ensures gameId in old(cache.live) ==>
      var s := old(cache.live[gameId]);
      var qid := s.questions[s.currentQuestion].id;
      if !AllAnswered(old(cache.answered), gameId, qid, s.players) then
        r == Ok(None) && unchanged(db) && unchanged(cache)
      else if s.currentQuestion < LAST_QUESTION_INDEX then
        && r == Ok(Some(true)) && unchanged(db)
        && cache.live == old(cache.live)[gameId := s.(currentQuestion := s.currentQuestion + 1)]
        && cache.answered == old(cache.answered)
        && cache.userScores == old(cache.userScores) && cache.teamScores == old(cache.teamScores)
      else if gameId in old(db.games) then
        r == Ok(Some(false)) && EndedIn(db, cache, gameId, now)
      else
        r == Err(GameNotFound) && unchanged(db) && unchanged(cache)
  {
    if gameId !in cache.live {
      return Ok(None);
    }
    var s := cache.live[gameId];
    var question := s.questions[s.currentQuestion];
    var answeredCount := 0;
    var i := 0;
    while i < |s.players|
      invariant 0 <= i <= |s.players|
      invariant answeredCount == AnsweredCount(cache.answered, gameId, question.id, s.players[..i])
    {
      assert s.players[..i + 1][..i] == s.players[..i];
      if (gameId, question.id, s.players[i]) in cache.answered {
        answeredCount := answeredCount + 1;
      }
      i := i + 1;
    }
    assert s.players[..i] == s.players;
    AnsweredCountFull(cache.answered, gameId, question.id, s.players);
    if answeredCount >= |s.players| {
      if s.currentQuestion >= LAST_QUESTION_INDEX {
        var ended := EndGame(db, cache, gameId, now);
        if ended.Err? {
          return Err(ended.error);
        }
        return Ok(Some(false));
      } else {
        cache.live := cache.live[gameId := s.(currentQuestion := s.currentQuestion + 1)];
        return Ok(Some(true));
      }
    }
    return Ok(None);
  }

  /** What `get_game_state` reports: the cached projection while the game
      is live, otherwise a recomputation from the stored rows. */
  datatype GameState =
    | CachedState(gameId: GameId, status: string, startTime: int, endTime: int, currentQuestion: nat,
                  totalQuestions: nat, players: seq<UserId>, teams: seq<TeamRoster>)
    | StoredState(gameId: GameId, gameStatus: GameStatus, startedAt: Option<int>, endedAt: Option<int>,
                  stored: seq<Team>, teamScores: map<TeamId, real>, winner: Option<TeamId>)

  /** `get_game_state`'s team total: every session of the game whose
      player is a member of the team, each session counted once. */
  function StoredTeamTotal(sessions: seq<GameSession>, g: GameId, members: seq<UserId>): real
  {
    if sessions == [] then 0.0
    else
      var s := sessions[|sessions| - 1];
      StoredTeamTotal(sessions[..|sessions| - 1], g, members)
      + (if s.gameId == g && s.userId in members then s.totalScore else 0.0)
  }

  function StoredTotals(sessions: seq<GameSession>, g: GameId, teams: seq<Team>): (r: seq<real>)
    ensures |r| == |teams|
    ensures forall k :: 0 <= k < |teams| ==> r[k] == StoredTeamTotal(sessions, g, teams[k].members)
  {
    seq(|teams|, k requires 0 <= k < |teams| => StoredTeamTotal(sessions, g, teams[k].members))
  }

  /** `get_game_state`: the cached projection when `game:{id}` exists, the
      stored game with recomputed totals and winner when only the row
      exists, and nothing otherwise. */
  function GetGameState(live: map<GameId, LiveSession>, games: map<GameId, Game>, sessions: seq<GameSession>, g: GameId): (r: Option<GameState>)
    ensures r.None? <==> g !in live && g !in games
    ensures g in live ==>
      && r.Some? && r.value.CachedState?
      && r.value.currentQuestion == live[g].currentQuestion
      && r.value.totalQuestions == |live[g].questions|
      && r.value.players == live[g].players && r.value.teams == live[g].teams
    ensures g !in live && g in games ==>
      && r.Some? && r.value.StoredState?
      && r.value.gameStatus == games[g].status
      && r.value.winner == Winner(games[g].teams, StoredTotals(sessions, games[g].id, games[g].teams))
      && r.value.stored == FinalTeams(games[g].teams, StoredTotals(sessions, games[g].id, games[g].teams), r.value.winner)
  {
    if g in live then
      var s := live[g];
      Some(CachedState(s.gameId, s.status, s.startTime, s.endTime, s.currentQuestion, |s.questions|, s.players, s.teams))
    else if g in games then
      var game := games[g];
      var totals := StoredTotals(sessions, game.id, game.teams);
      var winner := Winner(game.teams, totals);
      Some(StoredState(game.id, game.status, game.startTime, game.endTime,
                       FinalTeams(game.teams, totals, winner), ScoreMap(game.teams, totals), winner))
    else None
  }

  /** No two sessions for the same player in the same game. */
  ghost predicate SessionsUnique(sessions: seq<GameSession>)
  {
    forall i, j :: 0 <= i < j < |sessions| && sessions[i].gameId == sessions[j].gameId
      ==> sessions[i].userId != sessions[j].userId
  }

  lemma {:induction false} StoredTeamTotalEmpty(sessions: seq<GameSession>, g: GameId)
    ensures StoredTeamTotal(sessions, g, []) == 0.0
  {
    if sessions != [] {
      StoredTeamTotalEmpty(sessions[..|sessions| - 1], g);
    }
  }

  /** Adding a member not yet listed adds exactly that member's sessions. */
  lemma {:induction false} StoredTeamTotalSplit(sessions: seq<GameSession>, g: GameId, members: seq<UserId>, u: UserId)
    requires u !in members
    ensures StoredTeamTotal(sessions, g, members + [u])
         == StoredTeamTotal(sessions, g, members) + StoredTeamTotal(sessions, g, [u])
  {
    if sessions != [] {
      StoredTeamTotalSplit(sessions[..|sessions| - 1], g, members, u);
    }
  }

  /** A player's sessions of the game, summed, are the one session
      `end_game` finds, when there is at most one. */
  lemma {:induction false} StoredTeamTotalSingle(sessions: seq<GameSession>, g: GameId, u: UserId)
    requires SessionsUnique(sessions)
    ensures StoredTeamTotal(sessions, g, [u]) == Contribution(sessions, g, u)
  {
    if sessions != [] {
      var n := |sessions| - 1;
      var init := sessions[..n];
      assert SessionsUnique(init);
      StoredTeamTotalSingle(init, g, u);
      if sessions[n].gameId == g && sessions[n].userId == u {
        assert FirstSession(init, g, u).None? by {
          forall k | 0 <= k < n
            ensures !(init[k].gameId == g && init[k].userId == u)
          {
            assert init[k] == sessions[k];
          }
        }
        assert FirstSession(sessions, g, u) == Some(n);
      } else {
        match FirstSession(init, g, u)
        case None =>
          assert FirstSession(sessions, g, u).None?;
        case Some(k) =>
          assert init[k] == sessions[k];
          assert FirstSession(sessions, g, u) == Some(k);
      }
    }
  }

  /** `get_game_state` recomputes the totals `end_game` stored, provided
      no player has two sessions in the game and no team lists a member
      twice. */
  lemma {:induction false} StoredTotalMatchesTally(sessions: seq<GameSession>, g: GameId, members: seq<UserId>)
    requires SessionsUnique(sessions) && Distinct(members)
    ensures StoredTeamTotal(sessions, g, members) == TeamTotal(sessions, g, members)
  {
    if members == [] {
      StoredTeamTotalEmpty(sessions, g);
    } else {
      var n := |members| - 1;
      var init := members[..n];
      assert Distinct(init);
      assert members == init + [members[n]];
      assert members[n] !in init;
      StoredTotalMatchesTally(sessions, g, init);
      StoredTeamTotalSplit(sessions, g, init, members[n]);
      StoredTeamTotalSingle(sessions, g, members[n]);
    }
  }

  /** For a finished game whose players each have one session and whose
      teams list no member twice, the recomputed view reports the totals
      and the winner `end_game` wrote. */
  lemma StoredStateMatchesEndGame(games: map<GameId, Game>, sessions: seq<GameSession>, g: GameId)
    requires g in games && SessionsUnique(sessions)
    requires forall k :: 0 <= k < |games[g].teams| ==> Distinct(games[g].teams[k].members)
    ensures var game := games[g];
      var r := GetGameState(map[], games, sessions, g);
      var totals := TeamTotals(sessions, game.id, game.teams);
      r.Some? && r.value.StoredState?
      && r.value.stored == FinalTeams(game.teams, totals, Winner(game.teams, totals))
      && r.value.winner == Winner(game.teams, totals)
  {
    var game := games[g];
    var teams := game.teams;
    forall k | 0 <= k < |teams|
      ensures StoredTeamTotal(sessions, game.id, teams[k].members) == TeamTotal(sessions, game.id, teams[k].members)
    {
      StoredTotalMatchesTally(sessions, game.id, teams[k].members);
    }
    assert StoredTotals(sessions, game.id, teams) == TeamTotals(sessions, game.id, teams);
  }
}

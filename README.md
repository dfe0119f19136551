# 2v2 quiz server: match orchestration in Dafny

This project models the match-orchestration core of a FastAPI trivia server in which teams of players are
matched per subject, answer five questions against the clock, and are ranked on leaderboards. Redis and the
relational database are replaced by maps and sequences held in classes. Each service operation is a method
over those fields. Each method is proved against a pure specification function, and the properties the
service promises are proved about those functions. The model has five parts.

- **Matchmaking** (`matchmaking.dfy`). The class `Matchmaker` holds three kinds of Redis key:
  - one waiting list per subject, read head first;
  - one reservation marker per queued player;
  - one list of formed teams per subject that are waiting for an opponent.

  `lpush` prepends, `rpush` appends and `rpop` takes the last element. As in Redis, an emptied list is
  deleted. `JoinQueue`, `TryFormTeam` and `LeaveQueue` equal `Join`, `FormTeam` and `Leave` on the state
  they read. The push-back after a failed formation and the rewrite on leaving both leave the queue
  reversed. The model keeps that order and proves it.
- **Live match** (`game_service.dfy`, `game_queries.dfy`, `models.dfy`):
  - starting a game: three refusals, sessions for every member, and the cached live blob with a cursor over
    five questions;
  - serving the current question, which only records the served id;
  - advancing the cursor once every player has answered, or ending the game after the last question;
  - ending a game: team totals, the winner as the first team with the largest total, and user counters;
  - projecting a game's state from the cache or from the stored rows.
- **Scoring** (`scoring_service.dfy`, `scoring_queries.dfy`, `text.dfy`):
  - the trimmed, case-insensitive answer check;
  - the points rule with its decay floored at one half;
  - the session statistics with their running average;
  - the live per-user and per-team counters;
  - the scores snapshot and the per-player statistics.
- **Connection registry** (`websocket.dfy`). The class `ConnectionManager` holds the nested map
  game → player → socket and the reverse index player → game. Proved about it:
  - registering and disconnecting keep the index and the no-empty-game invariant;
  - a game broadcast disconnects exactly its failed targets;
  - a team broadcast reaches exactly the connected team members whose send succeeds.
- **Leaderboard** (`leaderboard.dfy`). `LeaderboardCache` implements the cache-aside page read. It also
  covers rank numbering from the page offset and the guarded win-rate division.

Shared types and sequence lemmas (reversal, counting, sums) are in `common.dfy`.

Modelling conventions:
- Floats are `real`.
- The clock is an `int` parameter `now`.
- The decay factor `exp(-ln 2 / 10 * response_time)` is a `real` parameter.
- The ids a store would assign to a new game and its teams are a `NewGame` parameter.
- A WebSocket send is an oracle: `failing` is the set of players whose send raises.
- The `ValueError`s the services raise are `Err` values of a `Result`.

## Model

| member | source | states |
|---|---|---|
| Common.Ratio | app/services/leaderboard.py:32 | 0 when there is nothing to divide by. Otherwise the ratio times the whole equals the part, and it lies in [0, 1] when the part is at most the whole. The same guarded division gives `accuracy` in `get_user_game_stats` (app/services/scoring.py:175). |
| Models.FirstTeamIndex | app/services/scoring.py:107-111 | The index of the first team whose player list holds the user, with no earlier team holding them. None exactly when no team holds them. |
| Models.FindSession | app/queries/scoring.py:9-22 | `scalar_one_or_none` over the session rows of (game, user). NoSession exactly when no row matches. OneSession names the only matching row. ManySessions (the raise) only when two different rows match. |
| GameQueries.UpdateGameStatus | app/queries/game.py:34-46 | The status is always written. The start and end times are replaced only when one is passed. The game's other fields and every other game and table stay as they were. |
| GameQueries.CreateGameSession | app/queries/game.py:48-58 | Exactly one session row is appended for (game, user), with every counter at its default of zero. |
| GameQueries.SelectQuestions | app/queries/game.py:60-74 | At most `count` questions, each from the bank, of the subject and not excluded. As many as the bank holds up to the limit. |
| GameQueries.SelectQuestionsFromBank | app/queries/game.py:60-74 | The draw returns distinct rows of the bank: no row more often than the bank holds it. |
| GameQueries.SelectQuestionsDistinct | app/queries/game.py:60-74 | With unique question ids in the bank, the drawn questions have pairwise different ids. |
| ScoringQueries.ApplyAnswer | app/queries/scoring.py:51-58 | The score grows by the points and the answer count by one. The correct count grows by one iff the answer was correct, so correct ≤ total is kept. The new average times the new count is the old average times the old count plus the time. The ids are kept. |
| ScoringQueries.UpdateGameSessionStats | app/queries/scoring.py:44-60 | Field by field, the session row becomes `ApplyAnswer` of itself. No other row or table changes. |
| ScoringQueries.CreateAnswer | app/queries/scoring.py:24-42 | Exactly one answer row is appended, carrying the given session id, question id, answer, correctness, time and points. |
| ScoringQueries.ApplyAnswerMatchesLog | app/queries/scoring.py:51-58 | If a session's totals are what its answer log adds up to, applying an answer keeps them equal to the log with that answer appended. The running average times the count stays the sum of the times. |
| ScoringQueries.RecordAnswerKeepsTotals | app/queries/scoring.py:24-58 | Appending an answer row for one session and updating that session's stats keeps every session's totals equal to its answer log. |
| GameService.StartGame | app/services/game.py:15-83 | The refusals, in order and changing nothing: game not found, status not waiting, fewer than five questions of the subject. When the game exists, is waiting and has at least five eligible questions, the start always succeeds. On success the game becomes in progress with its start and end times. One fresh session is created per member, in team order. The live blob is cached with cursor 0 and status in_progress. The reply lists the players in team order. |
| GameService.FreshSessionsAppend | app/services/game.py:42-46 | Creating the sessions of two player lists one after the other gives the sessions of the joined list, with ids running on. |
| GameService.CreateRosterSessions | app/services/game.py:42-46 | The players collected are the roster in team order. Exactly one fresh session per player is appended, in that order. No other table changes. |
| GameService.CreateTeamSessions | app/services/game.py:44-46 | Exactly one fresh session per member of one team is appended, in member order. No other table changes. |
| GameService.CurrentQuestion | app/services/game.py:106-150 | The checks in order: not in progress, no questions, cursor past the end. It succeeds iff in progress and the cursor is in range. It serves that question with number cursor+1 and the question count, and has no correct-answer field. |
| GameService.MarkUsed | app/services/game.py:134-138 | The served id is among the used ids afterwards. The used ids gain exactly that id, and the rest of the blob is untouched. |
| GameService.MarkUsedIdempotent | app/services/game.py:134-138 | Serving the same question twice records its id once. |
| GameService.MarkUsedKeepsQuestion | app/services/game.py:134-150 | Recording the used id never changes what the next call serves. |
| GameService.GetCurrentQuestion | app/services/game.py:85-150 | A missing blob is "not found". Otherwise the reply is `CurrentQuestion` of the blob. The only write is the served id added to the used ids. The cursor, status, markers and counters never change. |
| GameService.AnsweredCountFull | app/services/game.py:178-184 | The answered count reaches the number of players iff every listed player carries the answered marker of the current question. |
| GameService.CheckAndAdvance | app/services/game.py:163-193 | The result, the live blobs and the game and user rows are `Advance` of the old stores. With no blob, or with some listed player not yet answered: None, and nothing changes. Otherwise, below the last index, the cursor moves on by exactly one and the result is True. At the last index the game is ended exactly as `end_game` ends it and the result is False. |
| GameService.AdvanceTouchesOnlyGame | app/services/game.py:163-193 | The advance check keeps every other game's blob and row as they were. |
| GameService.LastAnswerAdvances | app/services/game.py:178-192 | Once the last listed player still missing answers the current question, the check acts: the cursor moves on or the game ends. |
| GameService.FirstSession | app/services/game.py:214-217 | The first session row of the player in the game, with no earlier row matching. None when there is none. |
| GameService.FirstMaxIndex | app/services/game.py:229-231 | The position of the largest total, with every earlier total strictly smaller: the first maximum, as Python's `max` returns it. |
| GameService.Winner | app/services/game.py:229-231 | There is no winner exactly when the game has no teams. |
| GameService.ScoreMapKeys | app/services/game.py:210-227 | The `team_scores` dict has exactly the listed team ids as keys. |
| GameService.ScoreMapValues | app/services/game.py:210-227 | With distinct team ids, each id maps to that team's total. |
| GameService.WinnerRosterOfDistinct | app/services/game.py:232-240 | With distinct team ids, the players credited with a win are exactly the members of the one team with the winning id. |
| GameService.CreditPlayedEffect | app/services/game.py:211-224 | A user gains one game and the session's score per listing, provided they have a session in the game. Their wins and profile are untouched. |
| GameService.CreditWinsEffect | app/services/game.py:235-240 | A user gains one win per listing among the winners, and nothing else changes on the row. |
| GameService.EndedGameWinner | app/services/game.py:226-234 | With at least one team, exactly one team is flagged winner. Its total is the largest, and every earlier team's total is strictly smaller. |
| GameService.EndedUsersEffect | app/services/game.py:210-240 | After `end_game`, a user gains games and score for their session as often as they are listed on a team, and one win per listing on the winning team. |
| GameService.TallyTeam | app/services/game.py:211-225 | One pass of the team loop. Its total is the members' session scores, with 0 for a member without a session. Each member that played is credited with the game and the score. |
| GameService.CreditWinners | app/services/game.py:236-240 | Every member of the winning team gains one win. |
| GameService.TallyTeams | app/services/game.py:210-227 | The totals in team order. Every listed member that played is credited. |
| GameService.CreditWinningTeams | app/services/game.py:232-240 | The members of every team carrying the winning id gain one win. |
| GameService.PickWinner | app/services/game.py:229-240 | The winner is the first team with the largest total, or none without teams, and its members are credited. |
| GameService.FinishGameRows | app/services/game.py:201-242 | The game is finished with the end time and its start time kept. Each team's total and winner flag are written. The users are credited. The reply carries the totals and the winner. |
| GameService.EndGame | app/services/game.py:195-260 | A missing game is "Game not found" and changes nothing. Otherwise the rows are finished as above and the live blob is deleted. Sessions, answers, markers and counters stay. |
| GameService.GetGameState | app/services/game.py:262-314 | None exactly when neither the blob nor the row exists. With the blob, the cached projection: cursor, question count, players and teams. Otherwise the stored status, the totals recomputed from the sessions, and the first-maximum winner. |
| GameService.StoredTotalMatchesTally | app/services/game.py:287-294 | The recomputed team total, which sums every session of a member, equals the total `end_game` takes, provided no player has two sessions and no team lists a member twice. |
| GameService.StoredStateMatchesEndGame | app/services/game.py:282-314 | Under the same conditions, the stored view reports the teams, totals and winner that `end_game` computes. |
| Text.StripLeftRemovesSpace | app/services/scoring.py:36 | What `strip()` removes at the front is whitespace, and what it keeps does not start with whitespace. |
| Text.StripRight | app/services/scoring.py:36 | What `strip()` removes at the end is whitespace, and what it keeps is a prefix that does not end in whitespace. |
| Text.StripLeftSkipsSpace | app/services/scoring.py:36 | Leading whitespace never changes what the front strip keeps. |
| Text.StripIgnoresPadding | app/services/scoring.py:36 | Whitespace around a string never changes what `strip()` keeps. |
| ScoringService.IsCorrectAnswerSymmetric | app/services/scoring.py:36 | The answer check does not care which side is the submitted answer. |
| ScoringService.IsCorrectAnswerIgnoresPadding | app/services/scoring.py:36 | Whitespace around a submitted answer never changes the verdict. |
| ScoringService.IsCorrectAnswerIgnoresCase | app/services/scoring.py:36 | Answers that differ only in letter case get the same verdict. |
| ScoringService.CalculatePoints | app/services/scoring.py:75-90 | A wrong answer earns 0. A correct one earns at least half the base, and at most the base when the decay is at most 1 (a non-negative response time). |
| ScoringService.CalculatePointsMonotone | app/services/scoring.py:85-90 | A faster answer (larger decay) never earns fewer points. |
| ScoringService.FindQuestion | app/services/scoring.py:27-31 | The first snapshot question with the id. None when there is none. |
| ScoringService.CreditedTeam | app/services/scoring.py:103-113 | The team credited is the first team listing the user, and only when its id is truthy. No team is credited without a blob. |
| ScoringService.BumpEffect | app/services/scoring.py:99-100 | `incrbyfloat` raises its counter, read with a default of 0, by exactly the points, and leaves every other counter as it was. |
| ScoringService.CreditTeam | app/services/scoring.py:103-116 | Every team counter is as before, except the credited team's, which rises by exactly the points. |
| ScoringService.UpdateRealTimeScores | app/services/scoring.py:92-116 | The user's counter rises by the points and the team counters become `CreditTeam`. The blob and markers are untouched. |
| ScoringService.RecordAnswer | app/services/scoring.py:50-62 | Exactly one answer row is appended. The session absorbs it through `ApplyAnswer`. The user and team counters rise by the points. The answered marker of (game, question, user) is set. |
| ScoringService.RecordAndAdvance | app/services/scoring.py:50-65 | The answer is recorded as in `RecordAnswer`. The updated session returned is `ApplyAnswer` of the session as it was, which the advance check leaves alone. The advance result, the live blobs and the game and user rows are `Advance` of the stores as the writes left them: the old blobs, games and users, the old markers plus this answer's, and the updated sessions. |
| ScoringService.SubmittedQuestion | app/services/scoring.py:18-34 | The question is found iff the blob exists and its snapshot holds the id. The found question is from the snapshot and carries the id. |
| ScoringService.SubmitAnswer | app/services/scoring.py:8-73 | The refusals in order, all before any write: no blob, not in progress, question not in the snapshot, no session (or several). On success the answer is recorded as in `RecordAnswer`. The live blobs and the game and user rows then become `Advance` of the stores the writes left, and the submission fails with `AdvanceFailed` exactly when that advance fails. The reply carries the verdict, the points and the updated session totals. The question bank never changes. |
| ScoringService.GetRealTimeScores | app/services/scoring.py:118-154 | Nothing exactly when there is no blob. Otherwise the team dict is `TeamCounters` over the blob's teams in order. The game-wide dict holds exactly the listed players, each with its counter, and a missing counter reads as 0. |
| ScoringService.ReadPlayerCounters | app/services/scoring.py:139-143 | The team's dict is `PlayerCounters` of its players. The game-wide dict gains exactly those players with their counters and keeps every other entry. |
| ScoringService.PlayerCounters | app/services/scoring.py:139-143 | The dict holds exactly the listed players, each with its counter read with a default of 0. |
| ScoringService.TeamCountersKeys | app/services/scoring.py:131-149 | A team id has an entry exactly when some team of the blob carries it. |
| ScoringService.TeamCountersTotals | app/services/scoring.py:134-147 | Every entry's total is its team's counter, read with a default of 0. |
| ScoringService.TeamCountersLastListing | app/services/scoring.py:131-149 | A team whose id is not listed again later keeps exactly its own players' counters, so a repeated id keeps its last listing. |
| ScoringService.GetUserGameStats | app/services/scoring.py:156-186 | None exactly when there is no session, and an error when there are several. Otherwise the session's totals and accuracy, and its answers in stored order. |
| ScoringService.StatsAgreeWithAnswers | app/services/scoring.py:162-186 | When the totals match the answer rows, the stats list as many answers as the session counts, and its correct count is the number of correct answers listed. |
| Matchmaking.OldestFirst | app/services/matchmaking.py:58-65 | The `rpop` loop hands out the queue's last entries, oldest first. The old queue is the rest followed by them in reverse. |
| Matchmaking.CreateGameWithTeams | app/services/matchmaking.py:122-135 | Always matched. The status is started iff `start_game` went through. `all_players` is the first team's ids followed by the second's. The team id is the first team's when the first player's id is truthy, and the second team's when it is 0. |
| Matchmaking.MatchedTeamIdOfFalsyLeader | app/services/matchmaking.py:133 | A first team led by user id 0 reports the second team's id. |
| Matchmaking.FormTeamFailureReverses | app/services/matchmaking.py:58-64 | With too few entries no team is formed and no reservation or waiting team changes. The queue comes out reversed, and a second failure restores it. |
| Matchmaking.FormTeamTakesOldest | app/services/matchmaking.py:58-68 | A formed team is exactly the oldest `MAX_TEAM_SIZE` entries, and the queue keeps the rest. A user keeps a reservation iff they had one and none of the taken entries is theirs. |
| Matchmaking.FormTeamPairsOrParks | app/services/matchmaking.py:70-89 | The new team is the `teamSize` oldest queue entries, oldest first. With a waiting team, the oldest one (the list's last) is removed and the reply is `CreateGameWithTeams` of the new team and that one, listing the new team's players and then the waiting team's. Otherwise the subject's team list becomes exactly `[new team]` and the reply returns the new team's player ids. Other subjects' team lists are unchanged. |
| Matchmaking.JoinReservedIsNoop | app/services/matchmaking.py:19-21 | A player already holding a reservation is told its subject, and nothing changes. |
| Matchmaking.JoinWaitingBounds | app/services/matchmaking.py:23-48 | A player told to wait is queued and reserved. Their position is the queue length after the push. The estimate is at most the timeout and at most twice the position. |
| Matchmaking.LeaveRemovesPlayer | app/services/matchmaking.py:137-159 | The result is true iff the player held a reservation; false changes nothing. Otherwise the reservation is gone, the queue holds exactly the other players' entries, and other subjects are untouched. |
| Matchmaking.Matchmaker.PopOldest | app/services/matchmaking.py:60 | `rpop`: None on an empty queue. Otherwise the last entry, with the queue shortened by it. |
| Matchmaking.Matchmaker.PushBack | app/services/matchmaking.py:62-63 | The popped entries are appended to the emptied queue in pop order. |
| Matchmaking.Matchmaker.ReleaseMembers | app/services/matchmaking.py:67-68 | Exactly the team members lose their reservation markers. |
| Matchmaking.Matchmaker.PopUpTo | app/services/matchmaking.py:58-65 | It pops min(`MAX_TEAM_SIZE`, length) entries, oldest first, and the queue keeps the rest. |
| Matchmaking.Matchmaker.TryFormTeam | app/services/matchmaking.py:50-89 | The new state and the reply are `FormTeam` of the old state. |
| Matchmaking.Matchmaker.PairOrPark | app/services/matchmaking.py:70-89 | It takes the oldest waiting team and reports a match, or parks the new team and reports its player ids. |
| Matchmaking.Matchmaker.JoinQueue | app/services/matchmaking.py:12-48 | The new state and the reply are `Join` of the old state. |
| Matchmaking.Matchmaker.RewriteWithout | app/services/matchmaking.py:150-156 | The queue becomes the reverse of the other players' entries, with their relative order flipped. |
| Matchmaking.Matchmaker.LeaveQueue | app/services/matchmaking.py:137-159 | The new state and the result are `Leave` of the old state. |
| Websocket.Register | app/services/websocket.py:16-20 | The player is registered in the game with the socket, and indexed under the game. |
| Websocket.RegisterEffect | app/services/websocket.py:16-20 | Registering keeps both invariants: every indexed player is connected to its indexed game, and no game map is empty. It leaves every other player's connection and index entry unchanged. |
| Websocket.DropKeepsValid | app/services/websocket.py:32-42 | Disconnecting keeps both invariants. |
| Websocket.DropAllExactly | app/services/websocket.py:32-52 | Disconnecting several players, in any order, removes exactly them from the index. It removes exactly their connections to their indexed games and keeps every other socket. It schedules one notice per indexed player. |
| Websocket.DropAllConnection | app/services/websocket.py:32-52 | After several disconnects, a connection survives exactly when its player was not disconnected while indexed under that game. |
| Websocket.GameTargets | app/services/websocket.py:58-59 | The targets are connected players. Every connected player is targeted unless they are the excluded user with a truthy id. |
| Websocket.FalsyExcludeIsIgnored | app/services/websocket.py:59 | Excluding user 0 excludes nobody. |
| Websocket.ConnectKeepsPlayer | app/services/websocket.py:13-30 | After `connect` and its broadcast, a player with a truthy id stays registered with its socket and indexed under the game. |
| Websocket.Reached | app/services/websocket.py:70-78 | The members reached are exactly the listed members connected to the game whose send succeeds. |
| Websocket.TeamSendEffect | app/services/websocket.py:70-78 | A team broadcast reaches exactly `Reached`. It disconnects exactly the connected members whose send fails, and the registry changes exactly as disconnecting them would. |
| Websocket.TeamSendAsWrittenRaises | app/services/websocket.py:70-78 | Counterexample: the loop as written raises `KeyError` once a failed send removes the game's last connection. The corrected broadcast completes. |
| Websocket.TeamSendAsWrittenAgrees | app/services/websocket.py:70-78 | Wherever the loop as written does not raise, it has the corrected broadcast's outcome. |
| Websocket.TeamOf | app/services/websocket.py:100-104 | The players of the first team listing the sender, which include the sender. Nobody when no team lists them. |
| Websocket.TeamChatRecipients | app/services/websocket.py:95-104 | Team chat goes to the sender's whole team. Nothing is sent without a blob. |
| Websocket.TeammatesToNotify | app/services/websocket.py:174-184 | The recipients are the sender's team without the sender. |
| Websocket.ConnectionManager.Disconnect | app/services/websocket.py:32-52 | The registry becomes `Drop` of itself. An unindexed player is a no-op. The invariants are kept. |
| Websocket.ConnectionManager.DisconnectAll | app/services/websocket.py:67-68 | The listed players are disconnected in order. |
| Websocket.ConnectionManager.SendToTargets | app/services/websocket.py:58-65 | Every target whose send succeeds is delivered to. The failed list holds exactly the targets whose send fails. |
| Websocket.ConnectionManager.BroadcastToGame | app/services/websocket.py:54-68 | An unknown game is a no-op. Otherwise it delivers to the targets whose send succeeds, then disconnects exactly the failed targets, keeping the invariants. |
| Websocket.ConnectionManager.Connect | app/services/websocket.py:13-30 | It registers the socket and the index entry, then broadcasts to the game's other players. |
| Websocket.ConnectionManager.BroadcastToTeam | app/services/websocket.py:70-78 | The registry and the members reached are those of the corrected `TeamSend`. |
| Websocket.ConnectionManager.HandleTeamChat | app/services/websocket.py:95-113 | Nothing without a blob. Otherwise a team broadcast to `TeamChatRecipients`. |
| Websocket.ConnectionManager.NotifyTeammateAnswer | app/services/websocket.py:167-194 | Nothing when there are no teammates to notify. Otherwise a team broadcast to `TeammatesToNotify`. |
| Leaderboard.RankEntries | app/services/leaderboard.py:25-35 | One row per fetched user, in order. Row i is ranked offset+i+1 and carries the user's name, score, games and win rate. Its country is the requested country on a country page and the user's own otherwise. |
| Leaderboard.PagesDoNotOverlap | app/services/leaderboard.py:20-28 | Two different pages of the same size rank disjoint ranges, the earlier page below the later one. |
| Leaderboard.BuildPage | app/services/leaderboard.py:57-77 | A miss echoes the page, page size and total entries. It carries the requested country only on a country page. Its rows are `RankEntries` from the page's offset. |
| Leaderboard.CountryPageEntries | app/services/leaderboard.py:62-77 | Every row of a country page carries the requested country, and so does the page. |
| Leaderboard.LeaderboardCache.Lookup | app/services/leaderboard.py:14-42 | A hit returns the stored page verbatim and writes nothing. A miss stores exactly the page it returns, so the next read of the key is a hit returning it. |
| Leaderboard.LeaderboardCache.GetGlobalLeaderboard | app/services/leaderboard.py:8-42 | A hit returns the stored page unchanged. A miss builds the global page from offset (page-1)·size, without a country, and stores it under the page's key. |
| Leaderboard.LeaderboardCache.GetLocationLeaderboard | app/services/leaderboard.py:44-80 | A hit returns the stored page unchanged. A miss builds the country page with the country echoed on it and on every row, and stores it under the country and page key. |

## Left out

- Redis TTLs are not modelled: `ex=`, `setex` and `expire` on every key. A key never expires here, so every cache read happens before expiry.
- Timestamps are not modelled: `joined_at`, `created_at`, and the `timestamp` field of every message. The clock is the `now` parameter, in whole seconds.
- JSON encoding and decoding is not modelled, including the `JSONDecodeError` and "Invalid question format" branches of `get_current_question` and its catch-all `except`. The blob is stored as a datatype.
- Floating point is not modelled. Floats are exact reals, and the decay `exp(-ln 2 / 10 * response_time)` is passed to `CalculatePoints` as a number.
- Concurrency is not modelled. Each call runs atomically, and interleavings between concurrent joins, submits or broadcasts are out of scope.
- `disconnect` schedules a `player_disconnected` broadcast with `asyncio.create_task`. The model records it as a notice (game, player) and does not run it.
- Message payloads are not modelled. Only who receives a message, and who is disconnected after a failed send, is modelled.
- The WebSocket `accept` is not modelled.
- The `ping` and `game_action` branches of `handle_websocket_message` are not modelled. They answer the caller's own socket, and the second only calls `GetCurrentQuestion` and `GetRealTimeScores`.
- `broadcast_score_update` and `broadcast_game_end` are not modelled. They are `broadcast_to_game` without an excluded user, which `BroadcastToGame` with `None` covers.
- The store queries are replaced by their contracts or parameters. The leaderboard's rows and count arrive as parameters: the filter on `total_games > 0`, the country filter, the descending score order, and the offset and limit are not modelled.
- `create_game_with_teams` is modelled for its reply only. The new game and team rows it creates are not modelled. The ids they receive and whether `start_game` raised are the `NewGame` parameter.
- GameQueries.SelectQuestions: does not model the random order (`func.random()`). It takes eligible questions in bank order, keeping the filter and the limit.
- `dict` iteration order in `broadcast_to_game` is not modelled. Its targets and failures are sets.
- Matchmaking.Matchmaker: assumes `MAX_TEAM_SIZE` is positive. The configuration is not loaded.
- Cache keys are not modelled as strings. The leaderboard keys are the datatype `CacheKey`. Two keys are equal iff their page, page size and country are, which the formatted strings guarantee for the values used.
- ScoringService.IsCorrectAnswer: lower-cases ASCII letters only, whereas Python's `str.lower` also folds other scripts. `strip` is modelled with Python's full whitespace set.
- GameService.CheckAndAdvance: relies on the cache invariant that a live blob holds five questions and an in-range cursor. `start_game` establishes it and the advance step keeps it, so the `IndexError` the source would raise on a corrupted blob is not modelled.
- The routers, authentication, the question service, `main.py`, the database setup and the configuration loader are outside this model.
- Websocket.ConnectionManager.HandleTeamChat: models the broadcast with the corrected `broadcast_to_team` (see Findings). The as-written loop is modelled separately.
- Websocket.ConnectionManager.NotifyTeammateAnswer: models the broadcast with the corrected `broadcast_to_team` (see Findings). The as-written loop is modelled separately.

## Findings

| source | as written | input that shows it | evidently intended | confidence | as-written member | corrected member |
|---|---|---|---|---|---|---|
| app/services/websocket.py:70-78 | `broadcast_to_team` checks once that the game is registered, then indexes `active_connections[game_id]` for every member. A failed send calls `disconnect`, which deletes the game's map once its last connection goes, so the next member's lookup raises `KeyError`. | Game 7 has only player 1 connected, and player 1's send fails. The members are [1, 2]. After player 1 is disconnected, the lookup for player 2 raises. | Members after the game's last connection is dropped are skipped, and the broadcast completes. | not executed | Websocket.TeamSendAsWrittenRaises | Websocket.TeamSendEffect |

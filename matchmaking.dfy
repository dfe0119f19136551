// The matchmaking queue: one Redis list of waiting players per subject,
// one reservation marker per queued player, and one Redis list of formed
// teams per subject that wait for an opponent.
//
// A Redis list is a `seq` read head first: `lpush` puts an element in
// front, `rpush` behind, `rpop` takes the last one. Redis deletes a list
// once it is empty, so an empty list is never stored (see `Store`).

module Matchmaking {
  import opened Common
  import opened Models

  /** The JSON record a player is queued with; the join time is dropped. */
  datatype Entry = Entry(userId: UserId, subject: string)

  /** What `create_game_with_teams` learns from the store: the ids of the
      new game and of its two teams, and whether `start_game` went through. */
  datatype NewGame = NewGame(gameId: GameId, team1Id: TeamId, team2Id: TeamId, started: bool)

  datatype MatchedStatus = Started | StillWaiting

  /** The dicts `join_matchmaking_queue` and `try_form_team` return. */
  datatype JoinReply =
    | AlreadyInQueue(subject: string)
    | Waiting(estimatedWaitTime: int, queuePosition: nat)
    | TeamFormedWaitingOpponent(teamPlayers: seq<UserId>)
    | Matched(gameId: GameId, gameStatus: MatchedStatus, teamId: TeamId, allPlayers: seq<UserId>)

  /** The three families of keys the matchmaking service owns. */
  datatype MatchState = MatchState(
    queues: map<string, seq<Entry>>,
    reservations: map<UserId, Entry>,
    teamsWaiting: map<string, seq<seq<Entry>>>)

  /** A Redis list as read: a missing key reads as the empty list. */
  function ListAt<V>(m: map<string, seq<V>>, key: string): seq<V>
  {
    if key in m then m[key] else []
  }

  /** Writing a list back: an empty list is deleted, as Redis does. */
  function Store<V>(m: map<string, seq<V>>, key: string, l: seq<V>): (r: map<string, seq<V>>)
    ensures ListAt(r, key) == l
  {
    if l == [] then m - {key} else m[key := l]
  }

  /** A write touches only its own key, and stores no empty list. */
  lemma StoreElsewhere<V>(m: map<string, seq<V>>, key: string, l: seq<V>)
    ensures forall k :: k != key ==> ListAt(Store(m, key, l), k) == ListAt(m, k)
    ensures NoEmptyLists(m) ==> NoEmptyLists(Store(m, key, l))
  {
  }

  /** Writing back what a key holds changes nothing. */
  lemma StoreUnchanged<V>(m: map<string, seq<V>>, key: string)
    requires NoEmptyLists(m)
    ensures Store(m, key, ListAt(m, key)) == m
  {
  }

  /** A second write to the same key wins. */
  lemma StoreTwice<V>(m: map<string, seq<V>>, key: string, l1: seq<V>, l2: seq<V>)
    ensures Store(Store(m, key, l1), key, l2) == Store(m, key, l2)
  {
  }

  ghost predicate NoEmptyLists<V>(m: map<string, seq<V>>)
  {
    forall k :: k in m ==> m[k] != []
  }

  /** `[p["user_id"] for p in players]`. */
  function UserIds(players: seq<Entry>): (r: seq<UserId>)
    ensures |r| == |players|
    ensures forall k :: 0 <= k < |players| ==> r[k] == players[k].userId
  {
    seq(|players|, k requires 0 <= k < |players| => players[k].userId)
  }

  /** The ids of two lists in sequence are the ids of each, in sequence. */
  lemma UserIdsAppend(a: seq<Entry>, b: seq<Entry>)
    ensures UserIds(a + b) == UserIds(a) + UserIds(b)
  {
    var x := UserIds(a + b);
    var y := UserIds(a) + UserIds(b);
    forall k | 0 <= k < |x|
      ensures x[k] == y[k]
    {
      if k < |a| {
        assert (a + b)[k] == a[k];
      } else {
        assert (a + b)[k] == b[k - |a|];
      }
    }
  }

  /** The users of a list of entries, as a set. */
  function ReservedBy(players: seq<Entry>): set<UserId>
  {
    if players == [] then {}
    else ReservedBy(players[..|players| - 1]) + {players[|players| - 1].userId}
  }

  lemma {:induction false} ReservedByMembership(players: seq<Entry>, u: UserId)
    ensures u in ReservedBy(players) <==> exists k :: 0 <= k < |players| && players[k].userId == u
  {
    if players != [] {
      var n := |players| - 1;
      ReservedByMembership(players[..n], u);
      if u in ReservedBy(players[..n]) {
        var k :| 0 <= k < n && players[..n][k].userId == u;
        assert players[k].userId == u;
      }
    }
  }

  lemma ReservedBySnoc(players: seq<Entry>, i: nat)
    requires i < |players|
    ensures ReservedBy(players[..i + 1]) == ReservedBy(players[..i]) + {players[i].userId}
  {
    assert players[..i + 1][..i] == players[..i];
  }

  /** The entries of `q` that belong to someone other than `u`, in order. */
  function OthersThan(q: seq<Entry>, u: UserId): (r: seq<Entry>)
    ensures |r| <= |q|
  {
    if q == [] then []
    else OthersThan(q[..|q| - 1], u) + (if q[|q| - 1].userId != u then [q[|q| - 1]] else [])
  }

  lemma {:induction false} OthersThanMembership(q: seq<Entry>, u: UserId, e: Entry)
    ensures e in OthersThan(q, u) <==> e in q && e.userId != u
  {
    if q != [] {
      var q' := q[..|q| - 1];
      OthersThanMembership(q', u, e);
      assert q == q' + [q[|q| - 1]];
    }
  }

  lemma OthersThanSnoc(q: seq<Entry>, i: nat, u: UserId)
    requires i < |q|
    ensures OthersThan(q[..i + 1], u) == OthersThan(q[..i], u) + (if q[i].userId != u then [q[i]] else [])
  {
    assert q[..i + 1][..i] == q[..i];
  }

  /** The last `n` entries of a queue as `rpop` hands them out, oldest
      first: the old queue is the rest followed by them read back to front. */
  function OldestFirst(q: seq<Entry>, n: nat): (r: seq<Entry>)
    requires n <= |q|
    ensures |r| == n
    ensures forall k :: 0 <= k < n ==> r[k] == q[|q| - 1 - k]
    ensures q == q[..|q| - n] + Reverse(r)
  {
    var tail := q[|q| - n..];
    ReverseIndices(tail);
    ReverseReverse(tail);
    assert q == q[..|q| - n] + tail;
    Reverse(tail)
  }

  /** `create_game_with_teams`, as far as its reply goes: always matched,
      started unless `start_game` raised, the first team's id unless the
      first player's id is falsy, and both teams' players in order. */
  function CreateGameWithTeams(created: NewGame, team1: seq<Entry>, team2: seq<Entry>): (r: JoinReply)
    requires team1 != []
    ensures r.Matched? && r.gameId == created.gameId
    ensures r.gameStatus == Started <==> created.started
    ensures |r.allPlayers| == |team1| + |team2|
    ensures forall k :: 0 <= k < |team1| ==> r.allPlayers[k] == team1[k].userId
    ensures forall k :: 0 <= k < |team2| ==> r.allPlayers[|team1| + k] == team2[k].userId
    ensures team1[0].userId != 0 ==> r.teamId == created.team1Id
    ensures team1[0].userId == 0 ==> r.teamId == created.team2Id
  {
    Matched(created.gameId,
            if created.started then Started else StillWaiting,
            if team1[0].userId != 0 then created.team1Id else created.team2Id,
            UserIds(team1 + team2))
  }

  /** A user id 0 leading the first team reports the second team's id. */
  lemma MatchedTeamIdOfFalsyLeader(created: NewGame, team1: seq<Entry>, team2: seq<Entry>)
    requires team1 != [] && team1[0].userId == 0
    ensures CreateGameWithTeams(created, team1, team2).teamId == created.team2Id
  {
  }

  /** `try_form_team` as a function of the keys it reads: with fewer than
      `teamSize` queued entries it pushes the popped ones back (the queue
      comes out reversed); otherwise it takes the `teamSize` oldest, drops
      their reservations, and pairs them with the oldest waiting team or
      parks them as a waiting team. */
  function FormTeam(st: MatchState, subject: string, teamSize: nat, created: NewGame): (MatchState, Option<JoinReply>)
    requires teamSize > 0
  {
    var q := ListAt(st.queues, subject);
    if |q| < teamSize then
      (st.(queues := Store(st.queues, subject, Reverse(q))), None)
    else
      var team := OldestFirst(q, teamSize);
      var st1 := st.(queues := Store(st.queues, subject, q[..|q| - teamSize]),
                     reservations := st.reservations - ReservedBy(team));
      var w := ListAt(st.teamsWaiting, subject);
      if w != [] then
        (st1.(teamsWaiting := Store(st.teamsWaiting, subject, w[..|w| - 1])),
         Some(CreateGameWithTeams(created, team, w[|w| - 1])))
      else
        (st1.(teamsWaiting := Store(st.teamsWaiting, subject, [team])),
         Some(TeamFormedWaitingOpponent(UserIds(team))))
  }

  /** `join_matchmaking_queue` as a function of the keys it reads. */
  function Join(st: MatchState, u: UserId, subject: string, teamSize: nat, timeout: int, created: NewGame): (MatchState, JoinReply)
    requires teamSize > 0
  {
    if u in st.reservations then (st, AlreadyInQueue(st.reservations[u].subject))
    else
      var e := Entry(u, subject);
      var st1 := st.(queues := Store(st.queues, subject, [e] + ListAt(st.queues, subject)),
                     reservations := st.reservations[u := e]);
      var (st2, formed) := FormTeam(st1, subject, teamSize, created);
      if formed.Some? then (st2, formed.value)
      else
        var len := |ListAt(st2.queues, subject)|;
        (st2, JoinReply.Waiting(Min(len * 2, timeout), len))
  }

  /** `leave_matchmaking_queue` as a function of the keys it reads. */
  function Leave(st: MatchState, u: UserId): (MatchState, bool)
  {
    if u !in st.reservations then (st, false)
    else
      var subject := st.reservations[u].subject;
      var items := ListAt(st.queues, subject);
      (st.(queues := Store(st.queues, subject, Reverse(OthersThan(items, u))),
           reservations := st.reservations - {u}),
       true)
  }

  /** A failed formation changes nothing but the order of the queue, which
      it reverses; a second failure restores the original order. */
  lemma FormTeamFailureReverses(st: MatchState, subject: string, teamSize: nat, created: NewGame)
    requires teamSize > 0 && |ListAt(st.queues, subject)| < teamSize
    ensures var (st', r) := FormTeam(st, subject, teamSize, created);
      && r.None?
      && ListAt(st'.queues, subject) == Reverse(ListAt(st.queues, subject))
      && st'.reservations == st.reservations && st'.teamsWaiting == st.teamsWaiting
      && (forall s :: s != subject ==> ListAt(st'.queues, s) == ListAt(st.queues, s))
      && ListAt(FormTeam(st', subject, teamSize, created).0.queues, subject) == ListAt(st.queues, subject)
  {
    ReverseReverse(ListAt(st.queues, subject));
  }

  /** A successful formation takes exactly the `teamSize` oldest entries,
      oldest first, and shortens the queue by as many; the members lose
      their reservations and every other reservation stays. */
  lemma FormTeamTakesOldest(st: MatchState, subject: string, teamSize: nat, created: NewGame, v: UserId)
    requires teamSize > 0 && |ListAt(st.queues, subject)| >= teamSize
    ensures var q := ListAt(st.queues, subject);
      var (st', r) := FormTeam(st, subject, teamSize, created);
      var rest := ListAt(st'.queues, subject);
      && r.Some?
      && q == rest + Reverse(OldestFirst(q, teamSize))
      && (v in st'.reservations <==>
            v in st.reservations && forall k :: |q| - teamSize <= k < |q| ==> q[k].userId != v)
  {
    var q := ListAt(st.queues, subject);
    var team := OldestFirst(q, teamSize);
    ReservedByMembership(team, v);
    if exists k :: |q| - teamSize <= k < |q| && q[k].userId == v {
      var k :| |q| - teamSize <= k < |q| && q[k].userId == v;
      assert team[|q| - 1 - k].userId == v;
    }
  }

  /** A formed team (the `teamSize` oldest entries, oldest first) is paired
      with the oldest waiting team when there is one: that team leaves the
      list and the reply lists the new team's players, then the waiting
      team's. Otherwise the new team is parked as the only waiting team and
      its players are returned. No other subject's team list changes. */
  lemma FormTeamPairsOrParks(st: MatchState, subject: string, teamSize: nat, created: NewGame)
    requires teamSize > 0 && |ListAt(st.queues, subject)| >= teamSize
    ensures var w := ListAt(st.teamsWaiting, subject);
      var team := OldestFirst(ListAt(st.queues, subject), teamSize);
      var (st', r) := FormTeam(st, subject, teamSize, created);
      && r.Some?
      && (w != [] ==> && r.value == CreateGameWithTeams(created, team, w[|w| - 1])
                      && r.value.allPlayers == UserIds(team) + UserIds(w[|w| - 1])
                      && ListAt(st'.teamsWaiting, subject) == w[..|w| - 1])
      && (w == [] ==> && r.value == TeamFormedWaitingOpponent(UserIds(team))
                      && ListAt(st'.teamsWaiting, subject) == [team])
      && (forall s :: s != subject ==> ListAt(st'.teamsWaiting, s) == ListAt(st.teamsWaiting, s))
  {
    var w := ListAt(st.teamsWaiting, subject);
    var team := OldestFirst(ListAt(st.queues, subject), teamSize);
    if w != [] {
      UserIdsAppend(team, w[|w| - 1]);
      StoreElsewhere(st.teamsWaiting, subject, w[..|w| - 1]);
    } else {
      StoreElsewhere(st.teamsWaiting, subject, [team]);
    }
  }

  /** A player already holding a reservation is told its subject and
      nothing changes; otherwise the player is queued and reserved. */
  lemma JoinReservedIsNoop(st: MatchState, u: UserId, subject: string, teamSize: nat, timeout: int, created: NewGame)
    requires teamSize > 0 && u in st.reservations
    ensures Join(st, u, subject, teamSize, timeout, created) == (st, AlreadyInQueue(st.reservations[u].subject))
  {
  }

  /** A player told to wait sits in the queue, at a position equal to the
      queue's length, with a wait estimate never above the timeout. */
  lemma JoinWaitingBounds(st: MatchState, u: UserId, subject: string, teamSize: nat, timeout: int, created: NewGame)
    requires teamSize > 0 && u !in st.reservations
    requires Join(st, u, subject, teamSize, timeout, created).1.Waiting?
    ensures var (st', r) := Join(st, u, subject, teamSize, timeout, created);
      && r.queuePosition == |ListAt(st.queues, subject)| + 1
      && r.estimatedWaitTime <= timeout
      && r.estimatedWaitTime <= 2 * r.queuePosition
      && Entry(u, subject) in ListAt(st'.queues, subject)
      && u in st'.reservations
  {
    var q1 := [Entry(u, subject)] + ListAt(st.queues, subject);
    ReverseMembership(q1, Entry(u, subject));
  }

  /** Leaving removes every entry of the player and its reservation, keeps
      every other entry, and reports whether the player was queued. */
  lemma LeaveRemovesPlayer(st: MatchState, u: UserId, e: Entry)
    ensures var (st', left) := Leave(st, u);
      && (left <==> u in st.reservations)
      && (!left ==> st' == st)
      && (left ==> var subject := st.reservations[u].subject;
                   && u !in st'.reservations
                   && (e in ListAt(st'.queues, subject) <==> e in ListAt(st.queues, subject) && e.userId != u)
                   && (forall s :: s != subject ==> ListAt(st'.queues, s) == ListAt(st.queues, s)))
  {
    if u in st.reservations {
      var subject := st.reservations[u].subject;
      ReverseMembership(OthersThan(ListAt(st.queues, subject), u), e);
      OthersThanMembership(ListAt(st.queues, subject), u, e);
    }
  }

  /** The matchmaking keys in Redis. */
  class Matchmaker {
    const teamSize: nat
    const timeout: int
    var queues: map<string, seq<Entry>>
    var reservations: map<UserId, Entry>
    var teamsWaiting: map<string, seq<seq<Entry>>>

    ghost predicate Valid()
      reads this
    {
      teamSize > 0 && NoEmptyLists(queues) && NoEmptyLists(teamsWaiting)
    }

    function State(): MatchState
      reads this
    {
      MatchState(queues, reservations, teamsWaiting)
    }

    constructor (teamSize: nat, timeout: int)
      requires teamSize > 0
      ensures Valid()
      ensures this.teamSize == teamSize && this.timeout == timeout
      ensures queues == map[] && reservations == map[] && teamsWaiting == map[]
    {
      this.teamSize := teamSize;
      this.timeout := timeout;
      queues := map[];
      reservations := map[];
      teamsWaiting := map[];
    }

    /** `rpop` on the subject's queue. */
    method PopOldest(subject: string) returns (e: Option<Entry>)
      requires Valid()
      modifies this
      ensures Valid()
      ensures var q := old(ListAt(queues, subject));
        && (q == [] ==> e.None? && queues == old(queues))
        && (q != [] ==> e == Some(q[|q| - 1]) && queues == Store(old(queues), subject, q[..|q| - 1]))
      ensures reservations == old(reservations) && teamsWaiting == old(teamsWaiting)
    {
      var q := ListAt(queues, subject);
      if q == [] {
        return None;
      }
      e := Some(q[|q| - 1]);
      queues := Store(queues, subject, q[..|q| - 1]);
    }

    /** Gives the popped entries back with `rpush`, in pop order. */
    method PushBack(subject: string, popped: seq<Entry>)
      requires Valid() && ListAt(queues, subject) == []
      modifies this
      ensures Valid()
      ensures queues == Store(old(queues), subject, popped)
      ensures reservations == old(reservations) && teamsWaiting == old(teamsWaiting)
    {
      var j := 0;
      while j < |popped|
        invariant 0 <= j <= |popped|
        invariant Valid()
        invariant queues == Store(old(queues), subject, popped[..j])
        invariant reservations == old(reservations) && teamsWaiting == old(teamsWaiting)
      {
        assert popped[..j + 1] == popped[..j] + [popped[j]];
        queues := queues[subject := ListAt(queues, subject) + [popped[j]]];
        j := j + 1;
      }
      assert popped[..j] == popped;
    }

    /** Deletes the `user_queue:{id}` marker of every team member. */
    method ReleaseMembers(team: seq<Entry>)
      modifies this
      ensures reservations == old(reservations) - ReservedBy(team)
      ensures queues == old(queues) && teamsWaiting == old(teamsWaiting)
    {
      var i := 0;
      while i < |team|
        invariant 0 <= i <= |team|
        invariant reservations == old(reservations) - ReservedBy(team[..i])
        invariant queues == old(queues) && teamsWaiting == old(teamsWaiting)
      {
        ReservedBySnoc(team, i);
        reservations := reservations - {team[i].userId};
        i := i + 1;
      }
      assert team[..i] == team;
    }

    /** The `rpop` loop of `try_form_team`: pops until it holds
        `teamSize` entries or the queue runs dry. */
    method PopUpTo(subject: string) returns (players: seq<Entry>)
      requires Valid()
      modifies this
      ensures Valid()
      ensures var q := old(ListAt(queues, subject));
        && |players| == Min(teamSize, |q|)
        && players == OldestFirst(q, |players|)
        && queues == Store(old(queues), subject, q[..|q| - |players|])
      ensures reservations == old(reservations) && teamsWaiting == old(teamsWaiting)
    {
      ghost var q := ListAt(queues, subject);
      StoreUnchanged(queues, subject);
      assert q[..|q|] == q;
      players := [];
      var k := 0;
      while k < teamSize
        invariant 0 <= k <= teamSize && k <= |q|
        invariant Valid()
        invariant |players| == k && forall j :: 0 <= j < k ==> players[j] == q[|q| - 1 - j]
        invariant queues == Store(old(queues), subject, q[..|q| - k])
        invariant reservations == old(reservations) && teamsWaiting == old(teamsWaiting)
      {
        var popped := PopOldest(subject);
        if popped.None? {
          break;
        }
        StoreTwice(old(queues), subject, q[..|q| - k], q[..|q| - k - 1]);
        assert q[..|q| - k][..|q| - k - 1] == q[..|q| - k - 1];
        players := players + [popped.value];
        k := k + 1;
      }
      assert players == OldestFirst(q, k);
    }

    /** `try_form_team`. */
    method TryFormTeam(subject: string, created: NewGame) returns (r: Option<JoinReply>)
      requires Valid()
      modifies this
      ensures Valid()
      ensures (State(), r) == FormTeam(old(State()), subject, teamSize, created)
    {
      ghost var q := ListAt(queues, subject);
      var players := PopUpTo(subject);
      if |players| < teamSize {
        assert q == Reverse(players);
        ReverseReverse(players);
        StoreTwice(old(queues), subject, [], players);
        PushBack(subject, players);
        return None;
      }
      ReleaseMembers(players);
      StoreTwice(old(queues), subject, q[..|q| - teamSize], q[..|q| - teamSize]);
      var reply := PairOrPark(subject, created, players);
      r := Some(reply);
    }

    /** The end of `try_form_team`: the formed team meets the oldest
        waiting team, or waits at the head of the team list. */
    method PairOrPark(subject: string, created: NewGame, team: seq<Entry>) returns (r: JoinReply)
      requires Valid() && team != []
      modifies this
      ensures Valid()
      ensures var w := old(ListAt(teamsWaiting, subject));
        && (w != [] ==> teamsWaiting == Store(old(teamsWaiting), subject, w[..|w| - 1])
                        && r == CreateGameWithTeams(created, team, w[|w| - 1]))
        && (w == [] ==> teamsWaiting == Store(old(teamsWaiting), subject, [team])
                        && r == TeamFormedWaitingOpponent(UserIds(team)))
      ensures queues == old(queues) && reservations == old(reservations)
    {
      var w := ListAt(teamsWaiting, subject);
      if w != [] {
        StoreElsewhere(teamsWaiting, subject, w[..|w| - 1]);
        teamsWaiting := Store(teamsWaiting, subject, w[..|w| - 1]);
        r := CreateGameWithTeams(created, team, w[|w| - 1]);
      } else {
        StoreElsewhere(teamsWaiting, subject, [team]);
        teamsWaiting := Store(teamsWaiting, subject, [team]);
        r := TeamFormedWaitingOpponent(UserIds(team));
      }
    }

    /** `join_matchmaking_queue`: a reserved player is turned away; anyone
        else is queued at the head and reserved, then a team is attempted,
        and without one the player is told the queue length. */
    method JoinQueue(u: UserId, subject: string, created: NewGame) returns (r: JoinReply)
      requires Valid()
      modifies this
      ensures Valid()
      ensures (State(), r) == Join(old(State()), u, subject, teamSize, timeout, created)
    {
      if u in reservations {
        return AlreadyInQueue(reservations[u].subject);
      }
      var e := Entry(u, subject);
      queues := queues[subject := [e] + ListAt(queues, subject)];
      reservations := reservations[u := e];
      var formed := TryFormTeam(subject, created);
      if formed.Some? {
        return formed.value;
      }
      var len := |ListAt(queues, subject)|;
      r := JoinReply.Waiting(Min(len * 2, timeout), len);
    }

    /** The rewrite in `leave_matchmaking_queue`: reads the whole queue,
        deletes it, and pushes back with `lpush` every entry of another
        player. */
    method RewriteWithout(subject: string, u: UserId)
      requires Valid()
      modifies this
      ensures Valid()
      ensures queues == Store(old(queues), subject, Reverse(OthersThan(old(ListAt(queues, subject)), u)))
      ensures reservations == old(reservations) && teamsWaiting == old(teamsWaiting)
    {
      var items := ListAt(queues, subject);
      queues := queues - {subject};
      var rebuilt: seq<Entry> := [];
      assert OthersThan(items[..0], u) == [];
      var i := 0;
      while i < |items|
        invariant 0 <= i <= |items|
        invariant rebuilt == Reverse(OthersThan(items[..i], u))
        invariant queues == Store(old(queues), subject, rebuilt)
        invariant reservations == old(reservations) && teamsWaiting == old(teamsWaiting)
      {
        OthersThanSnoc(items, i, u);
        if items[i].userId != u {
          assert OthersThan(items[..i + 1], u) == OthersThan(items[..i], u) + [items[i]];
          ReverseSnoc(OthersThan(items[..i], u), items[i]);
          StoreTwice(old(queues), subject, rebuilt, [items[i]] + rebuilt);
          rebuilt := [items[i]] + rebuilt;
          queues := Store(queues, subject, rebuilt);
        } else {
          assert OthersThan(items[..i + 1], u) == OthersThan(items[..i], u);
        }
        i := i + 1;
      }
      assert items[..i] == items;
      StoreElsewhere(old(queues), subject, rebuilt);
    }

    /** `leave_matchmaking_queue`. */
    method LeaveQueue(u: UserId) returns (left: bool)
      requires Valid()
      modifies this
      ensures Valid()
      ensures (State(), left) == Leave(old(State()), u)
    {
      if u !in reservations {
        return false;
      }
      RewriteWithout(reservations[u].subject, u);
      reservations := reservations - {u};
      left := true;
    }
  }
}

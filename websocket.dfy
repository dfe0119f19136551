// The WebSocket connection registry: which socket each player of each game
// is connected through, the reverse index from player to game, and the
// broadcasts that send through it. A send is an oracle: `failing` names
// the players whose send raises. The `player_disconnected` broadcast that
// `disconnect` schedules is recorded as a notice instead of being run.

module Websocket {
  import opened Common
  import opened Models

  /** A handle standing for an accepted WebSocket. */
  type Socket = int

  /** `active_connections`, `user_games`, and the notices scheduled so far. */
  datatype Registry = Registry(
    active: map<GameId, map<UserId, Socket>>,
    userGames: map<UserId, GameId>,
    notices: seq<(GameId, UserId)>)

  /** Every indexed player is connected to the game the index names. */
  ghost predicate Indexed(reg: Registry)
  {
    forall u :: u in reg.userGames ==> reg.userGames[u] in reg.active && u in reg.active[reg.userGames[u]]
  }

  /** A game with no connection left is removed. */
  ghost predicate NoEmptyGames(reg: Registry)
  {
    forall g :: g in reg.active ==> reg.active[g] != map[]
  }

  ghost predicate RegistryValid(reg: Registry)
  {
    Indexed(reg) && NoEmptyGames(reg)
  }

  /** The registration half of `connect`. */
  function Register(reg: Registry, g: GameId, u: UserId, ws: Socket): (r: Registry)
    ensures g in r.active && u in r.active[g] && r.active[g][u] == ws
    ensures u in r.userGames && r.userGames[u] == g
  {
    var conns := if g in reg.active then reg.active[g] else map[];
    reg.(active := reg.active[g := conns[u := ws]], userGames := reg.userGames[u := g])
  }

  /** Registering keeps the registry consistent and touches no other
      player's connection or index entry. */
  lemma RegisterEffect(reg: Registry, g: GameId, u: UserId, ws: Socket, h: GameId, v: UserId)
    requires RegistryValid(reg)
    ensures RegistryValid(Register(reg, g, u, ws))
    ensures (h, v) != (g, u) ==>
      var r := Register(reg, g, u, ws);
      && (h in r.active && v in r.active[h] <==> h in reg.active && v in reg.active[h])
      && (h in reg.active && v in reg.active[h] ==> r.active[h][v] == reg.active[h][v])
    ensures v != u ==> (v in Register(reg, g, u, ws).userGames <==> v in reg.userGames)
    ensures v != u && v in reg.userGames ==> Register(reg, g, u, ws).userGames[v] == reg.userGames[v]
  {
  }

  /** `disconnect`: a player without an index entry is left alone;
      otherwise the player's connection in its indexed game is removed
      (and the game with it once empty), the index entry is deleted, and
      a `player_disconnected` notice is scheduled. */
  function Drop(reg: Registry, u: UserId): Registry
  {
    if u !in reg.userGames then reg
    else
      var g := reg.userGames[u];
      var active :=
        if g in reg.active && u in reg.active[g] then
          (if reg.active[g] - {u} == map[] then reg.active - {g} else reg.active[g := reg.active[g] - {u}])
        else reg.active;
      Registry(active, reg.userGames - {u}, reg.notices + [(g, u)])
  }

  /** Disconnecting several players one after the other. */
  function DropAll(reg: Registry, users: seq<UserId>): Registry
  {
    if users == [] then reg else Drop(DropAll(reg, users[..|users| - 1]), users[|users| - 1])
  }

  /** The index loses exactly the players in `dropped`. */
  ghost predicate IndexDropped(before: Registry, after: Registry, dropped: set<UserId>)
  {
    after.userGames == before.userGames - dropped
  }

  /** Player `v` was dropped while indexed under game `h`. */
  ghost predicate LeftGame(before: Registry, dropped: set<UserId>, h: GameId, v: UserId)
  {
    v in dropped && v in before.userGames && before.userGames[v] == h
  }

  /** A connection survives exactly when its player was not dropped from
      that game, and surviving connections keep their sockets. */
  ghost predicate ConnectionsDropped(before: Registry, after: Registry, dropped: set<UserId>)
  {
    && (forall h :: h in after.active ==>
          && h in before.active
          && forall v :: v in after.active[h] ==>
               v in before.active[h] && after.active[h][v] == before.active[h][v] && !LeftGame(before, dropped, h, v))
    && (forall h :: h in before.active ==>
          forall v :: v in before.active[h] && !LeftGame(before, dropped, h, v) ==>
            h in after.active && v in after.active[h])
  }

  /** One notice is scheduled per dropped player that had an index entry. */
  ghost predicate NoticesFor(before: Registry, after: Registry, dropped: set<UserId>)
  {
    && |before.notices| <= |after.notices|
    && after.notices[..|before.notices|] == before.notices
    && forall n :: n in after.notices[|before.notices|..] <==>
         exists v :: v in dropped && v in before.userGames && n == (before.userGames[v], v)
  }

  /** `disconnect` keeps the registry consistent. */
  lemma DropKeepsValid(reg: Registry, u: UserId)
    requires RegistryValid(reg)
    ensures RegistryValid(Drop(reg, u))
  {
    if u in reg.userGames {
      var r := Drop(reg, u);
      var g := reg.userGames[u];
      forall v | v in r.userGames
        ensures r.userGames[v] in r.active && v in r.active[r.userGames[v]]
      {
        assert v != u && reg.userGames[v] == r.userGames[v];
        if reg.userGames[v] == g {
          assert v in reg.active[g] - {u};
        }
      }
    }
  }

  /** Whatever the order, disconnecting a list of players drops exactly the
      players of the list: their index entries, their connection in their
      indexed game, and nothing else; a player listed twice or not indexed
      changes nothing more. */
  lemma {:induction false} DropAllExactly(reg: Registry, users: seq<UserId>)
    requires RegistryValid(reg)
    ensures var after := DropAll(reg, users);
      var dropped := set v | v in users;
      && RegistryValid(after)
      && IndexDropped(reg, after, dropped)
      && ConnectionsDropped(reg, after, dropped)
      && NoticesFor(reg, after, dropped)
  {
    if users != [] {
      var prefix := users[..|users| - 1];
      var u := users[|users| - 1];
      var mid := DropAll(reg, prefix);
      var after := Drop(mid, u);
      var s0 := set v | v in prefix;
      var s1 := set v | v in users;
      assert users == prefix + [u];
      assert s1 == s0 + {u};
      DropAllExactly(reg, prefix);
      DropKeepsValid(mid, u);
      assert after == DropAll(reg, users);
      DropStep(reg, mid, u, s0);
    }
  }

  /** One more disconnect extends the closed form by one player. */
  lemma DropStep(reg: Registry, mid: Registry, u: UserId, s0: set<UserId>)
    requires RegistryValid(reg) && RegistryValid(mid)
    requires IndexDropped(reg, mid, s0) && ConnectionsDropped(reg, mid, s0) && NoticesFor(reg, mid, s0)
    ensures var after := Drop(mid, u);
      && IndexDropped(reg, after, s0 + {u})
      && ConnectionsDropped(reg, after, s0 + {u})
      && NoticesFor(reg, after, s0 + {u})
  {
    ConnectionsStep(reg, mid, u, s0);
    NoticesStep(reg, mid, u, s0);
  }

  lemma ConnectionsStep(reg: Registry, mid: Registry, u: UserId, s0: set<UserId>)
    requires RegistryValid(reg) && RegistryValid(mid)
    requires IndexDropped(reg, mid, s0) && ConnectionsDropped(reg, mid, s0)
    ensures ConnectionsDropped(reg, Drop(mid, u), s0 + {u})
  {
    var after := Drop(mid, u);
    var s1 := s0 + {u};
    if u in mid.userGames {
      var g := mid.userGames[u];
      assert u in reg.userGames && reg.userGames[u] == g && u !in s0;
      forall h | h in reg.active
        ensures forall v :: v in reg.active[h] && !LeftGame(reg, s1, h, v) ==> h in after.active && v in after.active[h]
      {
        forall v | v in reg.active[h] && !LeftGame(reg, s1, h, v)
          ensures h in after.active && v in after.active[h]
        {
          assert !LeftGame(reg, s0, h, v);
          assert h in mid.active && v in mid.active[h];
          if h == g {
            assert v != u;
            assert v in mid.active[g] - {u};
          }
        }
      }
    } else {
      assert after == mid;
      forall h | h in after.active
        ensures forall v :: v in after.active[h] ==> !LeftGame(reg, s1, h, v)
      {
        forall v | v in after.active[h]
          ensures !LeftGame(reg, s1, h, v)
        {
          if v == u && u in reg.userGames {
            assert u in s0;
          }
        }
      }
    }
  }

  lemma NoticesStep(reg: Registry, mid: Registry, u: UserId, s0: set<UserId>)
    requires IndexDropped(reg, mid, s0) && NoticesFor(reg, mid, s0)
    ensures NoticesFor(reg, Drop(mid, u), s0 + {u})
  {
    if u in mid.userGames {
      NoticesStepIndexed(reg, mid, u, s0);
    } else {
      NoticesStepUnindexed(reg, mid, u, s0);
    }
  }

  lemma NoticesStepIndexed(reg: Registry, mid: Registry, u: UserId, s0: set<UserId>)
    requires IndexDropped(reg, mid, s0) && NoticesFor(reg, mid, s0)
    requires u in mid.userGames
    ensures NoticesFor(reg, Drop(mid, u), s0 + {u})
  {
    var after := Drop(mid, u);
    var s1 := s0 + {u};
    var g := mid.userGames[u];
    var k := |reg.notices|;
    assert u in reg.userGames && reg.userGames[u] == g && u !in s0;
    assert after.notices == mid.notices + [(g, u)];
    assert after.notices[..k] == mid.notices[..k];
    var tail0 := mid.notices[k..];
    var tail1 := after.notices[k..];
    assert tail1 == tail0 + [(g, u)];
    forall n
      ensures n in tail1 <==> exists v :: v in s1 && v in reg.userGames && n == (reg.userGames[v], v)
    {
      if n in tail1 {
        if n in tail0 {
          var v :| v in s0 && v in reg.userGames && n == (reg.userGames[v], v);
          assert v in s1;
        } else {
          assert n == (reg.userGames[u], u);
        }
      }
      if exists v :: v in s1 && v in reg.userGames && n == (reg.userGames[v], v) {
        var v :| v in s1 && v in reg.userGames && n == (reg.userGames[v], v);
        if v != u {
          assert v in s0;
          assert n in tail0;
        }
      }
    }
  }

  lemma NoticesStepUnindexed(reg: Registry, mid: Registry, u: UserId, s0: set<UserId>)
    requires IndexDropped(reg, mid, s0) && NoticesFor(reg, mid, s0)
    requires u !in mid.userGames
    ensures NoticesFor(reg, Drop(mid, u), s0 + {u})
  {
    var after := Drop(mid, u);
    var s1 := s0 + {u};
    assert after == mid;
    forall n
      ensures n in after.notices[|reg.notices|..] <==>
        exists v :: v in s1 && v in reg.userGames && n == (reg.userGames[v], v)
    {
      if exists v :: v in s1 && v in reg.userGames && n == (reg.userGames[v], v) {
        var v :| v in s1 && v in reg.userGames && n == (reg.userGames[v], v);
        if v == u {
          assert u in s0;
        }
        assert v in s0;
      }
    }
  }

  /** Whom `broadcast_to_game` sends to: every connected player of the
      game except `exclude_user`, which is only honoured when truthy. */
  function GameTargets(conns: map<UserId, Socket>, exclude: Option<UserId>): (r: set<UserId>)
    ensures r <= conns.Keys
    ensures forall v :: v in conns && (exclude.None? || exclude.value == 0 || v != exclude.value) ==> v in r
    ensures exclude.Some? && exclude.value != 0 ==> exclude.value !in r
  {
    set v | v in conns && !(exclude.Some? && exclude.value != 0 && v == exclude.value)
  }

  /** Player 0 is not excluded from its own `player_connected` broadcast. */
  lemma FalsyExcludeIsIgnored(conns: map<UserId, Socket>)
    ensures GameTargets(conns, Some(0)) == conns.Keys
  {
  }

  /** `connect` leaves the connecting player registered with its socket,
      provided the player was excluded from the broadcast (a truthy id). */
  lemma ConnectKeepsPlayer(reg: Registry, g: GameId, u: UserId, ws: Socket, failing: set<UserId>, after: Registry)
    requires RegistryValid(reg) && u != 0
    requires var r := Register(reg, g, u, ws);
      ConnectionsDropped(r, after, GameTargets(r.active[g], Some(u)) * failing)
      && IndexDropped(r, after, GameTargets(r.active[g], Some(u)) * failing)
    ensures g in after.active && u in after.active[g] && after.active[g][u] == ws
    ensures u in after.userGames && after.userGames[u] == g
  {
  }

  /** After several disconnects, a connection survives exactly when its
      player was not disconnected while indexed under that game. */
  lemma DropAllConnection(reg: Registry, users: seq<UserId>, g: GameId, v: UserId)
    requires RegistryValid(reg)
    ensures var after := DropAll(reg, users);
      (g in after.active && v in after.active[g])
        <==> (g in reg.active && v in reg.active[g] && !LeftGame(reg, (set x | x in users), g, v))
  {
    DropAllExactly(reg, users);
  }

  /** The outcome of a team broadcast: the registry, the players sent to,
      and the players disconnected after a failed send, in order. */
  datatype TeamOutcome = TeamOutcome(reg: Registry, delivered: seq<UserId>, dropped: seq<UserId>)

  /** `broadcast_to_team` with the game looked up afresh for every member:
      a member connected to the game at its turn is sent to, and
      disconnected if the send fails. */
  function TeamSend(reg: Registry, g: GameId, members: seq<UserId>, failing: set<UserId>): TeamOutcome
  {
    if members == [] then TeamOutcome(reg, [], [])
    else
      var o := TeamSend(reg, g, members[..|members| - 1], failing);
      var u := members[|members| - 1];
      if g in o.reg.active && u in o.reg.active[g] then
        if u in failing then TeamOutcome(Drop(o.reg, u), o.delivered, o.dropped + [u])
        else TeamOutcome(o.reg, o.delivered + [u], o.dropped)
      else o
  }

  /** The members a team broadcast reaches: those connected to the game
      beforehand whose send does not fail, in list order. */
  function Reached(active: map<GameId, map<UserId, Socket>>, g: GameId, members: seq<UserId>, failing: set<UserId>): (r: seq<UserId>)
    ensures forall v :: v in r <==> v in members && g in active && v in active[g] && v !in failing
  {
    if members == [] then []
    else
      var u := members[|members| - 1];
      Reached(active, g, members[..|members| - 1], failing)
        + (if g in active && u in active[g] && u !in failing then [u] else [])
  }

  /** A team broadcast reaches exactly the connected members whose send
      succeeds, disconnects exactly the connected members whose send
      fails, and changes the registry as disconnecting them would. */
  lemma {:induction false} TeamSendEffect(reg: Registry, g: GameId, members: seq<UserId>, failing: set<UserId>)
    requires RegistryValid(reg)
    ensures var o := TeamSend(reg, g, members, failing);
      && o.reg == DropAll(reg, o.dropped)
      && o.delivered == Reached(reg.active, g, members, failing)
      && (forall v :: v in o.dropped <==> v in members && v in failing && g in reg.active && v in reg.active[g])
  {
    if members != [] {
      var prefix := members[..|members| - 1];
      var u := members[|members| - 1];
      TeamSendEffect(reg, g, prefix, failing);
      var o := TeamSend(reg, g, prefix, failing);
      DropAllConnection(reg, o.dropped, g, u);
      assert members == prefix + [u];
      if g in o.reg.active && u in o.reg.active[g] && u in failing {
        assert (o.dropped + [u])[..|o.dropped|] == o.dropped;
      }
    }
  }

  /** `broadcast_to_team` as written: the game is looked up once before the
      loop and then indexed directly for every member, so the lookup
      raises `KeyError` (`None` here) once a failed send has removed the
      game's last connection. */
  function TeamSendAsWritten(reg: Registry, g: GameId, members: seq<UserId>, failing: set<UserId>): Option<TeamOutcome>
  {
    if g !in reg.active then Some(TeamOutcome(reg, [], []))
    else TeamLoopAsWritten(reg, g, members, failing)
  }

  function TeamLoopAsWritten(reg: Registry, g: GameId, members: seq<UserId>, failing: set<UserId>): Option<TeamOutcome>
  {
    if members == [] then Some(TeamOutcome(reg, [], []))
    else
      match TeamLoopAsWritten(reg, g, members[..|members| - 1], failing)
      case None => None
      case Some(o) =>
        var u := members[|members| - 1];
        if g !in o.reg.active then None
        else if u in o.reg.active[g] then
          if u in failing then Some(TeamOutcome(Drop(o.reg, u), o.delivered, o.dropped + [u]))
          else Some(TeamOutcome(o.reg, o.delivered + [u], o.dropped))
        else Some(o)
  }

  /** Player 1 is the game's only connection and its send fails; player 2
      is listed after it. The loop as written raises, while the corrected
      broadcast completes, reaching nobody and disconnecting player 1. */
  lemma TeamSendAsWrittenRaises()
    ensures var reg := Registry(map[7 := map[1 := 0]], map[1 := 7], []);
      && TeamSendAsWritten(reg, 7, [1, 2], {1}).None?
      && TeamSend(reg, 7, [1, 2], {1}) == TeamOutcome(Registry(map[], map[], [(7, 1)]), [], [1])
  {
    var reg := Registry(map[7 := map[1 := 0]], map[1 := 7], []);
    assert [1, 2][..1] == [1];
    assert [1][..0] == [];
    var after := Drop(reg, 1);
    assert map[1 := 0] - {1} == map[];
    assert after.active == map[];
    assert after.userGames == map[];
    assert TeamLoopAsWritten(reg, 7, [], {1}) == Some(TeamOutcome(reg, [], []));
    assert 7 in reg.active && 1 in reg.active[7];
    assert TeamLoopAsWritten(reg, 7, [1], {1}) == Some(TeamOutcome(Drop(reg, 1), [], [] + [1]));
    assert [] + [1] == [1];
    assert TeamSend(reg, 7, [1], {1}) == TeamOutcome(after, [], [1]);
  }

  /** Where the loop as written does not raise, it does what the corrected
      broadcast does. */
  lemma {:induction false} TeamSendAsWrittenAgrees(reg: Registry, g: GameId, members: seq<UserId>, failing: set<UserId>)
    requires TeamSendAsWritten(reg, g, members, failing).Some?
    ensures TeamSendAsWritten(reg, g, members, failing).value == TeamSend(reg, g, members, failing)
  {
    if g !in reg.active {
      TeamSendWithoutGame(reg, g, members, failing);
    } else {
      LoopAgrees(reg, g, members, failing);
    }
  }

  lemma {:induction false} LoopAgrees(reg: Registry, g: GameId, members: seq<UserId>, failing: set<UserId>)
    requires TeamLoopAsWritten(reg, g, members, failing).Some?
    ensures TeamLoopAsWritten(reg, g, members, failing).value == TeamSend(reg, g, members, failing)
  {
    if members != [] {
      LoopAgrees(reg, g, members[..|members| - 1], failing);
    }
  }

  lemma {:induction false} TeamSendWithoutGame(reg: Registry, g: GameId, members: seq<UserId>, failing: set<UserId>)
    requires g !in reg.active
    ensures TeamSend(reg, g, members, failing) == TeamOutcome(reg, [], [])
  {
    if members != [] {
      TeamSendWithoutGame(reg, g, members[..|members| - 1], failing);
    }
  }

  /** The players of the first team of the live blob that lists `u`, or
      nobody when no team does. */
  function TeamOf(teams: seq<TeamRoster>, u: UserId): (r: seq<UserId>)
    ensures FirstTeamIndex(teams, u).None? ==> r == []
    ensures FirstTeamIndex(teams, u).Some? ==> u in r && r == teams[FirstTeamIndex(teams, u).value].players
  {
    match FirstTeamIndex(teams, u)
    case None => []
    case Some(k) => teams[k].players
  }

  /** The recipients of a `team_chat` message: the sender's whole team. */
  function TeamChatRecipients(live: map<GameId, LiveSession>, g: GameId, u: UserId): (r: seq<UserId>)
    ensures g !in live ==> r == []
    ensures g in live ==> r == TeamOf(live[g].teams, u)
  {
    if g !in live then [] else TeamOf(live[g].teams, u)
  }

  /** The recipients of `teammate_answered`: the sender's team without the
      sender. */
  function TeammatesToNotify(live: map<GameId, LiveSession>, g: GameId, u: UserId): (r: seq<UserId>)
    ensures u !in r
    ensures forall v :: v in r <==> v in TeamChatRecipients(live, g, u) && v != u
  {
    if g !in live then [] else Without(TeamOf(live[g].teams, u), u)
  }

  /** The registry held by the process. */
  class ConnectionManager {
    var active: map<GameId, map<UserId, Socket>>
    var userGames: map<UserId, GameId>
    var notices: seq<(GameId, UserId)>

    function State(): Registry
      reads this
    {
      Registry(active, userGames, notices)
    }

    ghost predicate Valid()
      reads this
    {
      RegistryValid(State())
    }

    constructor ()
      ensures Valid()
      ensures active == map[] && userGames == map[] && notices == []
    {
      active := map[];
      userGames := map[];
      notices := [];
    }

    /** `disconnect`. */
    method Disconnect(u: UserId)
      requires Valid()
      modifies this
      ensures Valid()
      ensures State() == Drop(old(State()), u)
    {
      DropKeepsValid(State(), u);
      if u in userGames {
        var g := userGames[u];
        if g in active && u in active[g] {
          active := active[g := active[g] - {u}];
          if active[g] == map[] {
            active := active - {g};
          }
        }
        userGames := userGames - {u};
        notices := notices + [(g, u)];
      }
    }

    /** Disconnects the listed players in order. */
    method DisconnectAll(users: seq<UserId>)
      requires Valid()
      modifies this
      ensures Valid()
      ensures State() == DropAll(old(State()), users)
    {
      var i := 0;
      while i < |users|
        invariant 0 <= i <= |users|
        invariant Valid()
        invariant State() == DropAll(old(State()), users[..i])
      {
        assert users[..i + 1][..i] == users[..i];
        Disconnect(users[i]);
        i := i + 1;
      }
      assert users[..i] == users;
    }

    /** The send loop of `broadcast_to_game`: every target is sent to; the
        ones whose send fails are collected. */
    method SendToTargets(conns: map<UserId, Socket>, exclude: Option<UserId>, failing: set<UserId>)
      returns (delivered: set<UserId>, failed: seq<UserId>)
      ensures delivered == GameTargets(conns, exclude) - failing
      ensures forall v :: v in failed <==> v in GameTargets(conns, exclude) && v in failing
    {
      var pending := conns.Keys;
      delivered := {};
      failed := [];
      while |pending| > 0
        invariant pending <= conns.Keys
        invariant delivered == (GameTargets(conns, exclude) - pending) - failing
        invariant forall v :: v in failed <==> v in GameTargets(conns, exclude) - pending && v in failing
        decreases pending
      {
        var v :| v in pending;
        pending := pending - {v};
        if exclude.Some? && exclude.value != 0 && v == exclude.value {
          continue;
        }
        if v in failing {
          failed := failed + [v];
        } else {
          delivered := delivered + {v};
        }
      }
    }

    /** `broadcast_to_game`: nothing for an unknown game; otherwise every
        target is sent to, and afterwards exactly the targets whose send
        failed are disconnected. */
    method BroadcastToGame(g: GameId, exclude: Option<UserId>, failing: set<UserId>) returns (delivered: set<UserId>)
      requires Valid()
      modifies this
      ensures Valid()
      ensures g !in old(active) ==> delivered == {} && unchanged(this)
      ensures g in old(active) ==>
        var targets := GameTargets(old(active[g]), exclude);
        && delivered == targets - failing
        && IndexDropped(old(State()), State(), targets * failing)
        && ConnectionsDropped(old(State()), State(), targets * failing)
        && NoticesFor(old(State()), State(), targets * failing)
    {
      if g !in active {
        return {};
      }
      var conns := active[g];
      var failed;
      delivered, failed := SendToTargets(conns, exclude, failing);
      forall v
        ensures v in (set v | v in failed) <==> v in GameTargets(conns, exclude) * failing
      {
        assert v in (set v | v in failed) <==> v in failed;
      }
      assert (set v | v in failed) == GameTargets(conns, exclude) * failing;
      DropAllExactly(State(), failed);
      DisconnectAll(failed);
    }

    /** `connect`: registers the socket and the index entry, then tells
        the game's other players. */
    method Connect(ws: Socket, g: GameId, u: UserId, failing: set<UserId>) returns (delivered: set<UserId>)
      requires Valid()
      modifies this
      ensures Valid()
      ensures var reg := Register(old(State()), g, u, ws);
        var targets := GameTargets(reg.active[g], Some(u));
        && delivered == targets - failing
        && IndexDropped(reg, State(), targets * failing)
        && ConnectionsDropped(reg, State(), targets * failing)
        && NoticesFor(reg, State(), targets * failing)
    {
      RegisterEffect(State(), g, u, ws, g, u);
      if g !in active {
        active := active[g := map[]];
      }
      active := active[g := active[g][u := ws]];
      userGames := userGames[u := g];
      assert State() == Register(old(State()), g, u, ws);
      delivered := BroadcastToGame(g, Some(u), failing);
    }

    /** `broadcast_to_team`, with the game looked up for every member
        (the loop as written is `TeamSendAsWritten`). */
    method BroadcastToTeam(g: GameId, members: seq<UserId>, failing: set<UserId>) returns (delivered: seq<UserId>)
      requires Valid()
      modifies this
      ensures Valid()
      ensures State() == TeamSend(old(State()), g, members, failing).reg
      ensures delivered == TeamSend(old(State()), g, members, failing).delivered
    {
      delivered := [];
      ghost var dropped: seq<UserId> := [];
      var i := 0;
      while i < |members|
        invariant 0 <= i <= |members|
        invariant Valid()
        invariant TeamOutcome(State(), delivered, dropped) == TeamSend(old(State()), g, members[..i], failing)
      {
        assert members[..i + 1][..i] == members[..i];
        var u := members[i];
        if g in active && u in active[g] {
          if u in failing {
            Disconnect(u);
            dropped := dropped + [u];
          } else {
            delivered := delivered + [u];
          }
        }
        i := i + 1;
      }
      assert members[..i] == members;
    }

    /** The `team_chat` branch of `handle_websocket_message`. */
    method HandleTeamChat(live: map<GameId, LiveSession>, g: GameId, u: UserId, failing: set<UserId>)
      returns (delivered: seq<UserId>)
      requires Valid()
      modifies this
      ensures Valid()
      ensures g !in live ==> delivered == [] && unchanged(this)
      ensures g in live ==>
        var o := TeamSend(old(State()), g, TeamChatRecipients(live, g, u), failing);
        State() == o.reg && delivered == o.delivered
    {
      if g !in live {
        return [];
      }
      var members := TeamChatRecipients(live, g, u);
      delivered := BroadcastToTeam(g, members, failing);
    }

    /** `notify_team_mate_answer`. */
    method NotifyTeammateAnswer(live: map<GameId, LiveSession>, g: GameId, u: UserId, failing: set<UserId>)
      returns (delivered: seq<UserId>)
      requires Valid()
      modifies this
      ensures Valid()
      ensures TeammatesToNotify(live, g, u) == [] ==> delivered == [] && unchanged(this)
      ensures TeammatesToNotify(live, g, u) != [] ==>
        var o := TeamSend(old(State()), g, TeammatesToNotify(live, g, u), failing);
        State() == o.reg && delivered == o.delivered
    {
      if g !in live {
        return [];
      }
      var members := TeammatesToNotify(live, g, u);
      if members == [] {
        return [];
      }
      delivered := BroadcastToTeam(g, members, failing);
    }
  }
}

/** The connection hub of server/server.go: which connection speaks for each player, which
    connections are attached to each game, and the handlers that act on client messages.
    Locks and goroutines are not modelled: each operation runs to completion on its own. */
module Hub {
  import opened Wrappers
  import opened Rounds
  import opened UuidGen
  import opened Registry
  import opened Delivery

  const InvalidGameIdError := "invalid game_id"
  const NotInGameError := "not in a game"
  const NoActiveRoundError := "no active round"
  const NotAPlayerError := "not a player in this game"

  type Rosters = map<string, seq<Connection>>

  /** A game's roster; a game without an entry has none (Go's nil slice). */
  function RosterOf(gc: Rosters, gameID: string): seq<Connection> {
    if gameID in gc then gc[gameID] else []
  }

  /** Every stored roster has at least one member. */
  predicate NonEmptyRosters(gc: Rosters) {
    forall g :: g in gc ==> gc[g] != []
  }

  /** The sequence without the first occurrence of x. */
  function RemoveFirst(s: seq<Connection>, x: Connection): (r: seq<Connection>)
    ensures x in s ==> |r| == |s| - 1
    ensures x !in s ==> r == s
  {
    if s == [] then []
    else if s[0] == x then s[1..]
    else [s[0]] + RemoveFirst(s[1..], x)
  }

  /** Exactly one copy of x leaves, when there is one, and nothing else. */
  lemma {:induction false} RemoveFirstMultiset(s: seq<Connection>, x: Connection)
    ensures multiset(RemoveFirst(s, x)) == multiset(s) - multiset{x}
  {
    if s != [] {
      assert s == [s[0]] + s[1..];
      if s[0] != x {
        RemoveFirstMultiset(s[1..], x);
      }
    }
  }

  /** Removing the first occurrence splices it out and keeps the order of the others. */
  lemma {:induction false} RemoveFirstAt(s: seq<Connection>, x: Connection, i: nat)
    requires i < |s| && s[i] == x && x !in s[..i]
    ensures RemoveFirst(s, x) == s[..i] + s[i + 1..]
  {
    if i > 0 {
      assert s[1..][..i - 1] == s[1..i];
      RemoveFirstAt(s[1..], x, i - 1);
      assert s[1..][i..] == s[i + 1..];
    }
  }

  /** The rosters after conn is appended to the roster of gameID. */
  function WithMember(gc: Rosters, conn: Connection, gameID: string): Rosters {
    gc[gameID := RosterOf(gc, gameID) + [conn]]
  }

  /** The rosters after the first occurrence of conn leaves the roster of gameID; a roster
      left empty is deleted. */
  function WithoutMember(gc: Rosters, conn: Connection, gameID: string): (r: Rosters)
    ensures forall g :: g != gameID ==> (g in r <==> g in gc) && (g in r ==> r[g] == gc[g])
    ensures gameID in r ==> gameID in gc && r[gameID] == RemoveFirst(gc[gameID], conn)
    ensures gameID !in r ==> RemoveFirst(RosterOf(gc, gameID), conn) == []
    ensures NonEmptyRosters(gc) ==> NonEmptyRosters(r)
  {
    if gameID !in gc then gc
    else
      var rest := RemoveFirst(gc[gameID], conn);
      if rest == [] then gc - {gameID} else gc[gameID := rest]
  }

  /** Appending keeps every roster non-empty. */
  lemma WithMemberNonEmpty(gc: Rosters, conn: Connection, gameID: string)
    requires NonEmptyRosters(gc)
    ensures NonEmptyRosters(WithMember(gc, conn, gameID))
    ensures RosterOf(WithMember(gc, conn, gameID), gameID) == RosterOf(gc, gameID) + [conn]
  {
  }

  /** Leaving undoes joining: a connection appended to a roster it was not on and then
      removed leaves the rosters as they were. */
  lemma AddThenRemove(gc: Rosters, conn: Connection, gameID: string)
    requires NonEmptyRosters(gc) && conn !in RosterOf(gc, gameID)
    ensures WithoutMember(WithMember(gc, conn, gameID), conn, gameID) == gc
  {
    var before := RosterOf(gc, gameID);
    var after := before + [conn];
    assert after[..|before|] == before;
    RemoveFirstAt(after, conn, |before|);
    assert after[|before| + 1..] == [];
    assert RemoveFirst(after, conn) == before;
    var joined := WithMember(gc, conn, gameID);
    assert joined[gameID] == after;
    if gameID in gc {
      assert before != [];
      assert WithoutMember(joined, conn, gameID) == joined[gameID := before];
    } else {
      assert WithoutMember(joined, conn, gameID) == joined - {gameID};
    }
  }

  /** A joiner appended to a roster does not change what a broadcast excluding its player
      needs: the other players' connections whose channels are as sent records can take
      their copies on the longer roster too. */
  lemma JoinedCanDeliver(roster: seq<Connection>, joined: seq<Connection>, conn: Connection,
                         sent: map<Connection, Outbox>)
    requires joined == roster + [conn] || joined == roster
    requires forall d :: d in roster && d.playerID != conn.playerID ==>
      d in sent && d.outbox == sent[d] && CanSendTimes(sent[d], multiset(roster)[d])
    ensures CanDeliver(joined, conn.playerID)
  {
    assert multiset(roster + [conn]) == multiset(roster) + multiset{conn};
  }

  /** ... nor its outcome: a broadcast excluding the joiner's player over the longer roster,
      from channels that agree with sent away from the joiner, delivers to the original
      roster as one from sent would, and spares the joiner's player's other connections. */
  lemma JoinedDelivery(roster: seq<Connection>, joined: seq<Connection>, conn: Connection,
                       sent: map<Connection, Outbox>, announced: map<Connection, Outbox>, msg: Message)
    requires joined == roster + [conn] || joined == roster
    requires forall d :: d in roster ==> d in sent
    requires forall d :: d in roster && d != conn ==> d in announced && announced[d] == sent[d]
    requires Delivered(joined, announced, msg, conn.playerID) && Kept(joined, announced, conn.playerID)
    ensures Delivered(roster, sent, msg, conn.playerID)
    ensures Kept(roster, sent[conn := conn.outbox], conn.playerID)
  {
    assert multiset(roster + [conn]) == multiset(roster) + multiset{conn};
    forall c | c in roster && c.playerID != conn.playerID
      ensures c in sent && CanSendTimes(sent[c], multiset(roster)[c])
      ensures c.outbox == SendTimes(sent[c], msg, multiset(roster)[c])
    {
      assert c in joined && multiset(joined)[c] == multiset(roster)[c];
    }
    forall c | c in roster && c.playerID == conn.playerID && c != conn
      ensures c.outbox == sent[c]
    {
      assert c in joined;
    }
  }

  /** The slot of the in-progress round a move is written to. */
  datatype Slot = P1Slot | P2Slot

  /** What make_move does with a request: refuse it with an error text, or write the move
      into a slot of the in-progress round. */
  datatype MoveDecision = Refuse(reason: string) | Record(slot: Slot, move: Move)

  /** The round with move written into slot and everything else kept. */
  function Fill(r: Round, slot: Slot, move: Move): Round {
    match slot
    case P1Slot => r.(p1 := move)
    case P2Slot => r.(p2 := move)
  }

  /** Both sides of the round hold a valid move: the point at which the round is played. */
  predicate Complete(r: Round) {
    IsValidMove(r.p1) && IsValidMove(r.p2)
  }

  class Server {
    const gm: Manager
    /** The connection speaking for each player. */
    var conns: map<string, Connection>
    /** The connections attached to each game, in joining order. */
    var gameConns: Rosters

    ghost predicate Valid()
      reads this, gm, gm.gen
    {
      && gm.Valid()
      && (forall p :: p in conns ==> conns[p].playerID == p)
      && NonEmptyRosters(gameConns)
    }

    /** NewServer, over the given game registry. */
    constructor (gm: Manager)
      requires gm.Valid()
      ensures Valid()
      ensures this.gm == gm && conns == map[] && gameConns == map[]
    {
      this.gm := gm;
      conns := map[];
      gameConns := map[];
    }

    /** The connection currently registered for a player, as a frame. */
    function Registered(playerID: string): set<Connection>
      reads this
    {
      if playerID in conns then {conns[playerID]} else {}
    }

    /** Registers conn for its player. The latest registration wins; the socket of the
        connection it replaces is closed, even when it is conn itself. */
    method RegisterConnection(conn: Connection)
      requires Valid()
      modifies this`conns, Registered(conn.playerID)`socketClosed
      ensures Valid()
      ensures conns == old(conns)[conn.playerID := conn] && gameConns == old(gameConns)
      ensures conn.playerID in old(conns) ==> old(conns)[conn.playerID].socketClosed
    {
      if conn.playerID in conns {
        var previous := conns[conn.playerID];
        previous.socketClosed := true;
      }
      conns := conns[conn.playerID := conn];
    }

    /** Unregisters conn: its player's entry is removed only while it still points at this
        very connection, and conn leaves its game's roster. */
    method UnregisterConnection(conn: Connection)
      requires Valid()
      modifies this`conns, this`gameConns, conn`gameID
      ensures Valid()
      ensures conn.playerID in old(conns) && old(conns)[conn.playerID] == conn ==>
        conns == old(conns) - {conn.playerID}
      ensures conn.playerID !in old(conns) || old(conns)[conn.playerID] != conn ==>
        conns == old(conns)
      ensures old(conn.gameID) == "" ==> gameConns == old(gameConns)
      ensures old(conn.gameID) != "" ==> gameConns == WithoutMember(old(gameConns), conn, old(conn.gameID))
      ensures conn.gameID == ""
    {
      if conn.playerID in conns && conns[conn.playerID] == conn {
        conns := conns - {conn.playerID};
      }
      RemovePlayerFromGame(conn, conn.gameID);
      if conn.gameID != "" {
        // The branch that would mark the player disconnected: RemovePlayerFromGame has
        // already cleared gameID, so it is never taken.
        assert false;
      }
    }

    /** Attaches conn to an existing game: appends it to the roster, with no check for a
        duplicate and no removal from a previous roster. Nothing changes for an unknown
        game. */
    method AddPlayerToGame(conn: Connection, gameID: string)
      requires Valid()
      modifies this`gameConns, conn`gameID
      ensures Valid() && conns == old(conns)
      ensures gameID !in gm.games ==> gameConns == old(gameConns) && conn.gameID == old(conn.gameID)
      ensures gameID in gm.games ==>
        gameConns == WithMember(old(gameConns), conn, gameID) && conn.gameID == gameID
    {
      var found := gm.GetGame(gameID);
      if found.None? {
        return;
      }
      conn.gameID := gameID;
      WithMemberNonEmpty(gameConns, conn, gameID);
      gameConns := WithMember(gameConns, conn, gameID);
    }

    /** Detaches conn from the roster of gameID by splicing out its first occurrence, and
        clears conn's game. A connection attached to no game changes nothing. */
    method RemovePlayerFromGame(conn: Connection, gameID: string)
      requires Valid()
      modifies this`gameConns, conn`gameID
      ensures Valid() && conns == old(conns)
      ensures old(conn.gameID) == "" ==> gameConns == old(gameConns)
      ensures old(conn.gameID) != "" ==> gameConns == WithoutMember(old(gameConns), conn, gameID)
      ensures conn.gameID == ""
    {
      if conn.gameID == "" {
        return;
      }
      if gameID in gameConns {
        var connections := gameConns[gameID];
        var i := 0;
        while i < |connections|
          invariant i <= |connections|
          invariant gameConns == old(gameConns)
          invariant conn !in connections[..i]
        {
          if connections[i] == conn {
            RemoveFirstAt(connections, conn, i);
            gameConns := gameConns[gameID := connections[..i] + connections[i + 1..]];
            break;
          }
          assert connections[..i + 1] == connections[..i] + [connections[i]];
          i := i + 1;
        }
        ghost var rest := RemoveFirst(connections, conn);
        assert gameConns == old(gameConns)[gameID := rest] by {
          if i == |connections| {
            assert connections[..i] == connections;
            assert rest == connections;
          }
        }
        if |gameConns[gameID]| == 0 {
          gameConns := gameConns - {gameID};
          assert gameConns == old(gameConns) - {gameID};
        }
      }
      conn.gameID := "";
    }

    /** Sends msg to every connection on the roster of gameID whose player is not exclude,
        in roster order; an unknown game sends nothing. */
    method BroadcastToGame(gameID: string, msg: Message, exclude: string)
      requires CanDeliver(RosterOf(gameConns, gameID), exclude)
      modifies RosterOf(gameConns, gameID)`outbox
      ensures Delivered(old(RosterOf(gameConns, gameID)), old(Outboxes(RosterOf(gameConns, gameID))), msg, exclude)
      ensures Kept(old(RosterOf(gameConns, gameID)), old(Outboxes(RosterOf(gameConns, gameID))), exclude)
    {
      if gameID !in gameConns {
        return;
      }
      var roster := gameConns[gameID];
      ghost var sent: map<Connection, Outbox> := Outboxes(roster);
      ghost var now := sent;
      var i := 0;
      while i < |roster|
        invariant Progress(roster, sent, now, msg, exclude, i)
        invariant forall k :: 0 <= k < |roster| ==> roster[k] in now && roster[k].outbox == now[roster[k]]
      {
        now := Visit(roster[i], roster, i, msg, exclude, sent, now);
        i := i + 1;
      }
      VisitDone(roster, sent, now, msg, exclude);
    }

    /** The game of a join_game payload that is looked up: its game_id when that is a string. */
    function Requested(data: map<string, Value>): Option<string> {
      StringField(data, "game_id")
    }

    /** The roster a join_game request broadcasts to: that of the requested game. */
    function JoinRoster(data: map<string, Value>): seq<Connection>
      reads this
    {
      match Requested(data)
      case None => []
      case Some(g) => RosterOf(gameConns, g)
    }

    /** The game a join for gameID ends in: gameID when it is registered, otherwise the
        game created for the join, which takes the first free candidate identifier. None
        when creation runs out of identifiers. */
    function JoinedGame(gameID: string): (r: Option<string>)
      reads this, gm, gm.gen
      ensures r.Some? && r.value != gameID ==> gameID !in gm.games && r.value !in gm.games
      ensures gameID in gm.games ==> r == Some(gameID)
    {
      if gameID in gm.games then Some(gameID)
      else match FirstAbsent(gm.games.Keys, Candidates(gm.gen.values, gm.gen.index))
        case None => None
        case Some(k) => Some(Candidates(gm.gen.values, gm.gen.index)[k])
    }

    /** The game a join_game request attaches its connection to; None when it is refused. */
    function JoinTarget(data: map<string, Value>): (r: Option<string>)
      reads this, gm, gm.gen
      ensures r.Some? ==> Requested(data).Some?
      ensures Requested(data).Some? && Requested(data).value in gm.games ==> r == Requested(data)
      ensures r.Some? ==> (r.value in gm.games <==> Requested(data).value in gm.games)
    {
      match Requested(data)
      case None => None
      case Some(g) => JoinedGame(g)
    }

    /** The lookup of join_game: the registered game gameID, or else a new game with
        playerID as P1 and an empty P2. */
    method GameToJoin(playerID: string, gameID: string, now: int) returns (r: Result<Game, string>)
      requires Valid()
      modifies gm, gm.gen
      ensures Valid()
      ensures r.Success? <==> old(JoinedGame(gameID)).Some?
      ensures r.Success? ==>
        && r.value.id == old(JoinedGame(gameID)).value
        && gm.games == old(gm.games)[r.value.id := r.value]
      ensures r.Success? && gameID !in old(gm.games) ==>
        && fresh(r.value) && r.value.p1 == playerID && r.value.p2 == ""
        && r.value.currentRound == None && r.value.lastActivity == now
      ensures r.Failure? ==> r.error == IdExhaustedError && gm.games == old(gm.games)
      ensures gameID in old(gm.games) ==> r == Success(old(gm.games)[gameID]) && gm.games == old(gm.games)
      ensures gameID in old(gm.games) ==> gm.gen.index == old(gm.gen.index)
      ensures gameID !in old(gm.games) ==>
        gm.gen.index == CursorAfterCreate(gm.gen.values, old(gm.games).Keys, old(gm.gen.index))
    {
      var found := gm.GetGame(gameID);
      if found.Some? {
        return Success(found.value);
      }
      r := gm.CreateGame(playerID, "", now);
    }

    /** join_game: attaches conn to the requested game, creating a game with conn's player
        as P1 and an empty P2 when none is registered under that identifier; confirms to conn
        and announces the player to the requested game's roster, other connections of the
        same player excepted. A game_id that is not a string, or a creation that runs out of
        identifiers, is answered with an error and changes nothing else. */
    method HandleJoinGame(conn: Connection, data: map<string, Value>, now: int)
      requires Valid()
      requires !conn.outbox.closed
      requires JoinTarget(data).Some? ==> CanDeliver(JoinRoster(data), conn.playerID)
      modifies this`gameConns, conn`gameID, conn`outbox, gm, gm.gen, JoinRoster(data)`outbox
      ensures Valid() && conns == old(conns)
      ensures old(JoinTarget(data)).None? ==>
        && gm.games == old(gm.games)
        && gameConns == old(gameConns) && conn.gameID == old(conn.gameID)
        && conn.outbox == Send(old(conn.outbox),
             ErrorMessage(if Requested(data).None? then InvalidGameIdError else IdExhaustedError))
        && (forall c :: c in old(JoinRoster(data)) && c != conn ==> c.outbox == old(c.outbox))
      ensures old(JoinTarget(data)).Some? ==>
        var g := old(JoinTarget(data)).value;
        && g in gm.games && gm.games == old(gm.games)[g := gm.games[g]]
        && (g !in old(gm.games) ==>
              && fresh(gm.games[g]) && gm.games[g].p1 == conn.playerID && gm.games[g].p2 == ""
              && gm.games[g].currentRound == None && gm.games[g].lastActivity == now)
        && gameConns == WithMember(old(gameConns), conn, g) && conn.gameID == g
        && conn.outbox == Send(old(conn.outbox), GameJoined(g))
        && Delivered(old(JoinRoster(data)), old(Outboxes(JoinRoster(data))), PlayerJoined(conn.playerID), conn.playerID)
        && Kept(old(JoinRoster(data)), old(Outboxes(JoinRoster(data)))[conn := conn.outbox], conn.playerID)
      ensures Requested(data).None? ==> gm.gen.index == old(gm.gen.index)
      ensures Requested(data).Some? && Requested(data).value in old(gm.games) ==>
        gm.games == old(gm.games) && gm.gen.index == old(gm.gen.index)
      ensures Requested(data).Some? && Requested(data).value !in old(gm.games) ==>
        gm.gen.index == CursorAfterCreate(gm.gen.values, old(gm.games).Keys, old(gm.gen.index))
    {
      ghost var roster: seq<Connection> := JoinRoster(data);
      ghost var sent: map<Connection, Outbox> := Outboxes(roster);
      var requested := Requested(data);
      if requested.None? {
        conn.SendMessage(ErrorMessage(InvalidGameIdError));
        return;
      }
      var gameID := requested.value;
      var game := GameToJoin(conn.playerID, gameID, now);
      if game.Failure? {
        conn.SendMessage(ErrorMessage(game.error));
        return;
      }
      assert RosterOf(gameConns, gameID) == roster;
      assert Outboxes(roster) == sent;
      AttachAndAnnounce(conn, game.value.id, gameID);
    }

    /** The end of join_game once the game is in hand: conn joins the roster of gameID, is
        told so, and the roster of the requested game hears of its player. The connections
        of conn's player on that roster, conn excepted, receive nothing. */
    method AttachAndAnnounce(conn: Connection, gameID: string, requested: string)
      requires Valid() && gameID in gm.games
      requires !conn.outbox.closed && CanDeliver(RosterOf(gameConns, requested), conn.playerID)
      modifies this`gameConns, conn`gameID, conn`outbox, RosterOf(gameConns, requested)`outbox
      ensures Valid() && conns == old(conns)
      ensures gameConns == WithMember(old(gameConns), conn, gameID) && conn.gameID == gameID
      ensures conn.outbox == Send(old(conn.outbox), GameJoined(gameID))
      ensures Delivered(old(RosterOf(gameConns, requested)), old(Outboxes(RosterOf(gameConns, requested))),
        PlayerJoined(conn.playerID), conn.playerID)
      ensures Kept(old(RosterOf(gameConns, requested)), old(Outboxes(RosterOf(gameConns, requested)))[conn := conn.outbox],
        conn.playerID)
    {
      ghost var roster: seq<Connection> := RosterOf(gameConns, requested);
      ghost var sent: map<Connection, Outbox> := Outboxes(roster);
      ghost var joined: seq<Connection> := if requested == gameID then roster + [conn] else roster;
      AddPlayerToGame(conn, gameID);
      assert RosterOf(gameConns, requested) == joined;
      conn.SendMessage(GameJoined(gameID));
      forall d | d in roster && d != conn
        ensures d.outbox == sent[d]
      {
      }
      JoinedCanDeliver(roster, joined, conn, sent);
      ghost var announced: map<Connection, Outbox> := Outboxes(joined);
      BroadcastToGame(requested, PlayerJoined(conn.playerID), conn.playerID);
      JoinedDelivery(roster, joined, conn, sent, announced, PlayerJoined(conn.playerID));
    }
  
    /** The registered game gameID, as a frame. */
    function GameAt(gameID: string): set<Game>
      reads gm
    {
      if gameID in gm.games then {gm.games[gameID]} else {}
    }

    /** The checks of make_move in the order the handler makes them, and the slot a move that
        passes them all is written to. */
    function DecideMove(conn: Connection, data: map<string, Value>): (d: MoveDecision)
      reads this, gm, conn, GameAt(conn.gameID)
      ensures conn.gameID == "" ==> d == Refuse(NotInGameError)
      ensures d.Record? ==>
        && conn.gameID in gm.games && gm.games[conn.gameID].currentRound.Some?
        && StringField(data, "move") == Some(d.move) && IsValidMove(d.move)
        && conn.playerID in {gm.games[conn.gameID].p1, gm.games[conn.gameID].p2}
        && (d.slot == P1Slot <==> conn.playerID == gm.games[conn.gameID].p1)
      ensures d.Refuse? ==>
        d.reason in {NotInGameError, InvalidMoveError, NotFoundError, NoActiveRoundError, NotAPlayerError}
      // Each refusal exactly when every earlier check passes and its own check fails.
      ensures d == Refuse(NotInGameError) <==> conn.gameID == ""
      ensures d == Refuse(NotFoundError) <==>
        conn.gameID != "" && StringField(data, "move").Some? && conn.gameID !in gm.games
      ensures d == Refuse(NoActiveRoundError) <==>
        && conn.gameID != "" && StringField(data, "move").Some? && conn.gameID in gm.games
        && gm.games[conn.gameID].currentRound.None?
      ensures d == Refuse(InvalidMoveError) <==>
        && conn.gameID != ""
        && (|| StringField(data, "move").None?
            || (&& conn.gameID in gm.games && gm.games[conn.gameID].currentRound.Some?
                && !IsValidMove(StringField(data, "move").value)))
      ensures d == Refuse(NotAPlayerError) <==>
        && conn.gameID != "" && StringField(data, "move").Some? && conn.gameID in gm.games
        && gm.games[conn.gameID].currentRound.Some? && IsValidMove(StringField(data, "move").value)
        && conn.playerID !in {gm.games[conn.gameID].p1, gm.games[conn.gameID].p2}
      ensures d.Record? <==>
        && conn.gameID != "" && StringField(data, "move").Some? && conn.gameID in gm.games
        && gm.games[conn.gameID].currentRound.Some? && IsValidMove(StringField(data, "move").value)
        && conn.playerID in {gm.games[conn.gameID].p1, gm.games[conn.gameID].p2}
    {
      if conn.gameID == "" then Refuse(NotInGameError)
      else match StringField(data, "move")
        case None => Refuse(InvalidMoveError)
        case Some(text) =>
          if conn.gameID !in gm.games then Refuse(NotFoundError)
          else
            var game := gm.games[conn.gameID];
            if game.currentRound.None? then Refuse(NoActiveRoundError)
            else
              var parsed := ParseMove(text);
              if parsed.err.Some? then Refuse(InvalidMoveError)
              else if conn.playerID == game.p1 then Record(P1Slot, parsed.value)
              else if conn.playerID == game.p2 then Record(P2Slot, parsed.value)
              else Refuse(NotAPlayerError)
    }

    /** make_move sends nothing on a closed channel: conn's channel is open whenever the
        handler answers conn, and the game's roster can take round_played whenever the round
        is played. played is the outcome of the game's PlayRound: its error, or the
        in-progress slot it leaves. */
    predicate MoveSafe(conn: Connection, data: map<string, Value>, played: Result<Option<Round>, string>)
      reads this, gm, conn, GameAt(conn.gameID), RosterOf(gameConns, conn.gameID)
    {
      match DecideMove(conn, data)
      case Refuse(_) => !conn.outbox.closed
      case Record(slot, move) =>
        Complete(Fill(gm.games[conn.gameID].currentRound.value, slot, move)) ==>
          if played.Failure? then !conn.outbox.closed
          else CanDeliver(RosterOf(gameConns, conn.gameID), "")
    }

    /** make_move: records the sender's move in its slot of the in-progress round; once both
        slots hold valid moves the round is played and round_played goes to the whole roster.
        Every refusal is an error to the sender alone. */
    method HandleMakeMove(conn: Connection, data: map<string, Value>, played: Result<Option<Round>, string>)
      requires Valid() && MoveSafe(conn, data, played)
      modifies conn`outbox, GameAt(conn.gameID)`currentRound, RosterOf(gameConns, conn.gameID)`outbox
      ensures match old(DecideMove(conn, data))
        case Refuse(reason) =>
          && conn.outbox == Send(old(conn.outbox), ErrorMessage(reason))
          && unchanged(GameAt(conn.gameID))
          && Quiet(RosterOf(gameConns, conn.gameID), old(Outboxes(RosterOf(gameConns, conn.gameID))), conn)
        case Record(slot, move) =>
          var game := gm.games[conn.gameID];
          var round := Fill(old(game.currentRound.value), slot, move);
          if !Complete(round) then
            && game.currentRound == Some(round) && conn.outbox == old(conn.outbox)
            && Quiet(RosterOf(gameConns, conn.gameID), old(Outboxes(RosterOf(gameConns, conn.gameID))), conn)
          else if played.Failure? then
            && game.currentRound == Some(round)
            && conn.outbox == Send(old(conn.outbox), ErrorMessage(played.error))
            && Quiet(RosterOf(gameConns, conn.gameID), old(Outboxes(RosterOf(gameConns, conn.gameID))), conn)
          else
            && game.currentRound == played.value
            && Delivered(RosterOf(gameConns, conn.gameID), old(Outboxes(RosterOf(gameConns, conn.gameID))),
                 RoundPlayed(conn.gameID), "")
            && (conn !in RosterOf(gameConns, conn.gameID) ==> conn.outbox == old(conn.outbox))
    {
      ghost var sent := Outboxes(RosterOf(gameConns, conn.gameID));
      var decision := DecideMove(conn, data);
      if decision.Refuse? {
        conn.SendMessage(ErrorMessage(decision.reason));
        return;
      }
      var gameID := conn.gameID;
      var game := gm.games[gameID];
      var round := Fill(game.currentRound.value, decision.slot, decision.move);
      game.currentRound := Some(round);
      if IsValidMove(round.p1) && IsValidMove(round.p2) {
        if played.Failure? {
          conn.SendMessage(ErrorMessage(played.error));
          return;
        }
        game.currentRound := played.value;
        assert Outboxes(RosterOf(gameConns, gameID)) == sent;
        BroadcastToGame(gameID, RoundPlayed(gameID), "");
      }
    }
  
    /** start_round sends nothing on a closed channel. begun is the outcome of the game's
        NewRound: its error, or the fresh in-progress round. */
    predicate StartSafe(conn: Connection, begun: Result<Round, string>)
      reads this, gm, conn, RosterOf(gameConns, conn.gameID)
    {
      if conn.gameID == "" || conn.gameID !in gm.games || begun.Failure? then !conn.outbox.closed
      else CanDeliver(RosterOf(gameConns, conn.gameID), "")
    }

    /** start_round: opens a round in the sender's game and announces it to the whole
        roster; a sender in no game, an unregistered game or a refusal by the game is
        answered with an error to the sender alone. */
    method HandleStartRound(conn: Connection, begun: Result<Round, string>)
      requires Valid() && StartSafe(conn, begun)
      modifies conn`outbox, GameAt(conn.gameID)`currentRound, RosterOf(gameConns, conn.gameID)`outbox
      ensures conn.gameID == "" ==> conn.outbox == Send(old(conn.outbox), ErrorMessage(NotInGameError))
      ensures conn.gameID != "" && conn.gameID !in gm.games ==>
        conn.outbox == Send(old(conn.outbox), ErrorMessage(NotFoundError))
      ensures conn.gameID != "" && conn.gameID in gm.games && begun.Failure? ==>
        conn.outbox == Send(old(conn.outbox), ErrorMessage(begun.error))
      ensures conn.gameID == "" || conn.gameID !in gm.games || begun.Failure? ==>
        && unchanged(GameAt(conn.gameID))
        && Quiet(RosterOf(gameConns, conn.gameID), old(Outboxes(RosterOf(gameConns, conn.gameID))), conn)
      ensures conn.gameID != "" && conn.gameID in gm.games && begun.Success? ==>
        && gm.games[conn.gameID].currentRound == Some(begun.value)
        && Delivered(RosterOf(gameConns, conn.gameID), old(Outboxes(RosterOf(gameConns, conn.gameID))),
             RoundStarted(conn.gameID), "")
        && (conn !in RosterOf(gameConns, conn.gameID) ==> conn.outbox == old(conn.outbox))
    {
      var gameID := conn.gameID;
      if gameID == "" {
        conn.SendMessage(ErrorMessage(NotInGameError));
        return;
      }
      var found := gm.GetGame(gameID);
      if found.None? {
        conn.SendMessage(ErrorMessage(NotFoundError));
        return;
      }
      if begun.Failure? {
        conn.SendMessage(ErrorMessage(begun.error));
        return;
      }
      ghost var sent := Outboxes(RosterOf(gameConns, gameID));
      found.value.currentRound := Some(begun.value);
      assert Outboxes(RosterOf(gameConns, gameID)) == sent;
      BroadcastToGame(gameID, RoundStarted(gameID), "");
    }

    /** Dispatches a client message on its type; an unknown type changes nothing. The
        outcomes of the game's NewRound and PlayRound are parameters. */
    method HandleMessage(conn: Connection, msg: Message, now: int,
                         begun: Result<Round, string>, played: Result<Option<Round>, string>)
      requires Valid()
      requires msg.kind == "join_game" ==>
        !conn.outbox.closed && (JoinTarget(msg.data).Some? ==> CanDeliver(JoinRoster(msg.data), conn.playerID))
      requires msg.kind == "make_move" ==> MoveSafe(conn, msg.data, played)
      requires msg.kind == "start_round" ==> StartSafe(conn, begun)
      modifies this`gameConns, conn`gameID, conn`outbox, gm, gm.gen, JoinRoster(msg.data)`outbox
      modifies GameAt(conn.gameID)`currentRound, RosterOf(gameConns, conn.gameID)`outbox
      ensures Valid() && conns == old(conns)
      ensures msg.kind != "join_game" ==>
        gameConns == old(gameConns) && conn.gameID == old(conn.gameID) && gm.games == old(gm.games)
      ensures msg.kind != "join_game" ==> gm.gen.index == old(gm.gen.index)
      ensures msg.kind != "join_game" ==>
        forall c :: c in old(JoinRoster(msg.data)) && c != conn && c !in RosterOf(gameConns, conn.gameID) ==>
          c.outbox == old(c.outbox)
      ensures msg.kind !in {"join_game", "make_move", "start_round"} ==>
        && unchanged(conn) && unchanged(GameAt(conn.gameID))
        && Quiet(RosterOf(gameConns, conn.gameID), old(Outboxes(RosterOf(gameConns, conn.gameID))), conn)
        && (forall c :: c in old(JoinRoster(msg.data)) ==> c.outbox == old(c.outbox))
    {
      if msg.kind == "join_game" {
        HandleJoinGame(conn, msg.data, now);
      } else if msg.kind == "make_move" {
        HandleMakeMove(conn, msg.data, played);
      } else if msg.kind == "start_round" {
        HandleStartRound(conn, begun);
      }
    }
  }

  /** A valid move completes the round exactly when the other slot already holds one. */
  lemma FillCompletes(r: Round, slot: Slot, move: Move)
    requires IsValidMove(move)
    ensures Complete(Fill(r, slot, move)) <==> IsValidMove(if slot == P1Slot then r.p2 else r.p1)
  {
  }

  /** A game whose P2 is empty, as join_game creates them, never has a move written to its
      P2 slot: no connection's player is the empty identity. */
  lemma OpenSeatNeverRecorded(s: Server, conn: Connection, data: map<string, Value>)
    requires conn.gameID in s.gm.games && s.gm.games[conn.gameID].p2 == ""
    ensures s.DecideMove(conn, data).Record? ==> s.DecideMove(conn, data).slot == P1Slot
  {
  }

  /** A game whose two players are one identity only ever has its P1 slot written: the P1
      test comes first. */
  lemma SelfPlayFillsP1(s: Server, conn: Connection, data: map<string, Value>)
    requires conn.gameID in s.gm.games && s.gm.games[conn.gameID].p1 == s.gm.games[conn.gameID].p2
    ensures s.DecideMove(conn, data).Record? ==> s.DecideMove(conn, data).slot == P1Slot
  {
  }

  /** A second connection under the same identity replaces the first and closes its socket;
      unregistering the stale one afterwards leaves the new one registered. */
  method ReRegisterScenario(pid: PlayerId) returns (newRegistered: bool, staleClosed: bool, newOpen: bool)
    ensures newRegistered && staleClosed && newOpen
  {
    var gen := new MockUUIDGenerator([]);
    var gm := new Manager(gen);
    var s := new Server(gm);
    var stale := new Connection(pid);
    var latest := new Connection(pid);
    s.RegisterConnection(stale);
    s.RegisterConnection(latest);
    s.UnregisterConnection(stale);
    newRegistered := pid in s.conns && s.conns[pid] == latest;
    staleClosed := stale.socketClosed;
    newOpen := !latest.socketClosed;
  }

  /** Two players attached to game "g", with empty channels. */
  method TwoPlayerGame() returns (s: Server, game: Game, a: Connection, b: Connection)
    ensures fresh(s) && fresh(s.gm) && fresh(s.gm.gen) && fresh(game) && fresh(a) && fresh(b)
    ensures s.Valid() && s.gm.games == map["g" := game] && RosterOf(s.gameConns, "g") == [a, b]
    ensures game.p1 == "alice" && game.p2 == "bob" && game.currentRound == None
    ensures a.playerID == "alice" && a.gameID == "g" && a.outbox == Outbox([], false)
    ensures b.playerID == "bob" && b.gameID == "g" && b.outbox == Outbox([], false)
  {
    var gen := new MockUUIDGenerator(["g"]);
    var gm := new Manager(gen);
    s := new Server(gm);
    a := new Connection("alice");
    b := new Connection("bob");
    FirstAbsentIsFirst({}, Candidates(gen.values, 0), 0);
    var created := gm.CreateGame("alice", "bob", 0);
    game := created.value;
    s.AddPlayerToGame(a, "g");
    s.AddPlayerToGame(b, "g");
  }

  /** start_round from either player reaches both. */
  method StartRoundScenario() returns (aHeard: seq<Message>, bHeard: seq<Message>, started: bool)
    ensures aHeard == [RoundStarted("g")] && bHeard == [RoundStarted("g")] && started
  {
    var s, game, a, b := TwoPlayerGame();
    assert multiset([a, b])[a] == 1 && multiset([a, b])[b] == 1;
    s.HandleStartRound(b, Success(Round("", "", "", 0, 0)));
    aHeard := a.outbox.items;
    bHeard := b.outbox.items;
    started := game.currentRound == Some(Round("", "", "", 0, 0));
  }
}

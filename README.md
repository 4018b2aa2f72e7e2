# rps-backend core, modelled in Dafny

rps-backend is the server side of an online rock-paper-scissors game. Clients connect
over a websocket under a player identifier and send three kinds of message: `join_game`,
`make_move` and `start_round`. The server keeps one connection per player and a roster
of the connections attached to each game. It answers the sender and broadcasts game
events to the roster. Each connection has a bounded outbound queue, and a full queue
makes the server drop the message and close the queue. Behind the server sit:

- a game registry that creates games under collision-checked identifiers;
- a scripted identifier generator used to drive that registry;
- the rules that resolve a round;
- a matchmaking queue that pairs waiting players.

This project models that core:

| file | module | models |
|---|---|---|
| `wrappers.dfy` | `Wrappers` | `Option`, `Result`, and Go's `(value, error)` pair |
| `rounds.dfy` | `Rounds` | `game/round.go`: moves, parsing and the checked round resolution |
| `game_moves.dfy` | `GameMoves` | `game/game.go`: the second, unchecked set of move helpers, related to the first |
| `uuid_generator.dfy` | `UuidGen` | `game/uuid_generator.go`: the scripted generator, as a class over a cursor |
| `manager.dfy` | `Registry` | `game/manager.go`: the registry as a class holding a map of `Game` objects |
| `queue.dfy` | `Models`, `Matchmaking` | `matchmaking/queue.go`: the queue as a class holding a map |
| `delivery.dfy` | `Delivery` | `server/server.go`: messages, the bounded send queue, one broadcast step |
| `server.dfy` | `Hub` | `server/server.go`: registration, rosters, the three handlers, broadcast |
| `locking.dfy` | `Locking` | `server/server.go`: the order in which the server lock is taken |

How the model represents the Go program:

- **Objects updated in place are classes.** `Connection`, `Game`, `Manager`,
  `MatchmakingQueue`, `MockUUIDGenerator` and `Server` are classes. `Server` and
  `Connection` methods name in `modifies` only the fields they change. `Manager` and
  `MatchmakingQueue` methods use `modifies this`, since the map is their only mutable
  field. Each method states its new state, including where it leaves the generator's
  cursor.
- **Loops are `while` loops with invariants.** This covers the retry loop of
  `CreateGame`, the splice loop of `removePlayerFromGame`, the two sweeps and the
  broadcast.
- **Pure rules are functions, with lemmas about them.**
- **The broadcast is specified by a function.** Its outcome is stated in terms of
  `SendTimes`, the channel after n sends. A connection that appears several times on a
  roster receives one copy per appearance.
- **Panics are preconditions.** Sending on a closed channel panics in Go, so every
  sending operation requires exactly the condition under which it does not panic. That
  condition is `CanSendTimes` / `CanDeliver`: at most the last copy for each recipient
  finds its queue full.

Where the code departs from the system's documented behaviour, the model follows the code:

- A `join_game` whose `game_id` is missing or is not a string is refused with
  "invalid game_id". A string that names no registered game creates a new game, with the
  sender as P1 and an empty P2, under a fresh identifier. The sender joins that game,
  but the `player_joined` broadcast still goes to the roster of the identifier the
  client sent (server.go:252).
- Rosters may hold one connection several times: `addPlayerToGame` appends without a
  check. The broadcast outcome is stated per roster entry.
- `game/round.go` and `game/game.go` both declare `Move`, `IsValidMove` and `ParseMove` in
  one package. Both are modelled, in separate modules, with lemmas relating them. The
  handlers use the `game/round.go` variant, whose error text is "invalid move".

## Model

| member | source | states |
|---|---|---|
| Rounds.Rank | game/round.go:10-14 | each valid move is the token with its rank in the cyclic order rock, paper, scissors |
| Rounds.ParseMove | game/round.go:28-34 | succeeds exactly on the three tokens and returns the text unchanged; otherwise returns "" and the error "invalid move" |
| Rounds.ResolveRound | game/round.go:36-50 | an error exactly when a move is invalid; otherwise "draw" exactly for equal moves, "p1" exactly when P1 beats P2 under the cyclic reference rule, and "p2" exactly when P2 beats P1 |
| Rounds.IsValidMove | game/round.go:24-26 | the move is one of the three tokens (a definition; its property is the next row) |
| Rounds.ValidMovesAreTokens | game/round.go:24-26 | the valid moves are exactly the three tokens |
| Rounds.BeatsIsATournament | game/round.go:44-49 | no move beats itself; of two distinct valid moves exactly one beats the other |
| Rounds.WinTable | game/round_test.go:59-80 | the nine valid pairs resolve as the test table lists |
| Rounds.ResolveRoundSwap | game/round.go:36-50 | swapping the players keeps a draw and exchanges the winner |
| Rounds.ParseMoveExamples | game/round_test.go:26-40 | the tokens parse; "lizard", "", "Rock" and " rock" do not |
| GameMoves.IsValidMove | game/game.go:13-15 | the move is one of the three tokens (a definition; GameMoves.SameValidMoves relates it to game/round.go) |
| GameMoves.ParseMove | game/game.go:17-23 | succeeds exactly on the three tokens; the error message carries the offending text |
| GameMoves.ResolveRound | game/game.go:25-35 | always an outcome; a draw exactly for equal strings; "p1" exactly for a valid pair in which P1 beats P2 |
| GameMoves.SameValidMoves | game/game.go:13-15 | both files accept the same moves |
| GameMoves.ParseMoveAgrees | game/game.go:17-23 | both parsers succeed on the same inputs with the same value |
| GameMoves.ResolveRoundAgrees | game/game.go:25-35 | on valid moves the total resolution equals the checked one |
| GameMoves.InvalidPairsResolve | game/game.go:25-35 | invalid pairs get an outcome here and an error in game/round.go |
| UuidGen.IndexAfter | game/uuid_generator.go:24-31 | n calls advance the cursor by at most n and never past the end of the script; it falls short of n only at the end |
| UuidGen.DrawComposes | game/uuid_generator.go:24-31 | n calls and then one more are n + 1 calls, and they yield the next stream element |
| UuidGen.MockUUIDGenerator.constructor | game/uuid_generator.go:20-22 | a fresh generator has its cursor at the start of the script |
| UuidGen.MockUUIDGenerator.Generate | game/uuid_generator.go:24-31 | yields the scripted value at the cursor and advances, or yields "" once the script is used up |
| UuidGen.ScriptedThenEmpty | game/uuid_generator.go:24-31 | a two-value script yields both values, then "" |
| Registry.Game.constructor | game/manager.go:46 | a new game has its identifier and players, no round, and last activity now |
| Registry.Candidates | game/manager.go:33-44 | the five identifiers the retry loop checks, in draw order |
| Registry.FirstAbsent | game/manager.go:36-44 | the first candidate not in use, with all earlier candidates in use; None when all are in use |
| Registry.FirstAbsentIsFirst | game/manager.go:36-44 | a position with all earlier candidates in use and itself free is the first free one |
| Registry.CursorAfterCreate | game/manager.go:33-44 | creation always moves the cursor forward, unless the script is used up |
| Registry.CursorAfterFreeDraw | game/manager.go:33-44 | when the first draw is free, creation moves the cursor by exactly one |
| Registry.Expired | game/manager.go:76 | a game is expired when more than maxAge has passed since its last activity (a definition; Registry.Manager.CleanupExpiredGames uses it) |
| Registry.Manager.constructor | game/manager.go:22-27 | an empty registry over the given generator |
| Registry.Manager.CreateGame | game/manager.go:29-49 | fails with "failed to generate unique game ID" exactly when all five candidates are in use, leaving the registry unchanged; otherwise stores a fresh game under the first free candidate and nothing else; the cursor advances once per draw, including the unchecked sixth |
| Registry.Manager.GetGame | game/manager.go:51-57 | present exactly when the identifier is stored, with the stored game |
| Registry.Manager.RemoveGame | game/manager.go:59-69 | "game not found" exactly for an absent identifier, with no change; otherwise deletes that entry only |
| Registry.Manager.CleanupExpiredGames | game/manager.go:71-80 | keeps exactly the games active within maxAge |
| Registry.DuplicateIdScenario | game/manager_test.go:39-63 | with the script [x, x, y] the second game retries past x and takes y |
| Registry.ExhaustedRetriesScenario | game/manager_test.go:65-78 | with a script of one repeated identifier the second creation fails and the registry keeps one game |
| Matchmaking.MatchmakingQueue.constructor | matchmaking/queue.go:20-24 | an empty queue |
| Matchmaking.MatchmakingQueue.AddPlayer | matchmaking/queue.go:26-34 | files the player under its identifier at now, replacing an earlier entry; the size grows only for a new identifier |
| Matchmaking.MatchmakingQueue.RemovePlayer | matchmaking/queue.go:36-41 | deletes that entry only; an absent player changes nothing |
| Matchmaking.MatchmakingQueue.TryMatch | matchmaking/queue.go:43-68 | fewer than two players: no match and no change; otherwise two distinct queued players are returned and exactly they are removed |
| Matchmaking.MatchmakingQueue.GetQueueSize | matchmaking/queue.go:70-74 | the number of queued players |
| Matchmaking.MatchmakingQueue.CleanupTimeoutQueuePlayers | matchmaking/queue.go:76-87 | keeps exactly the players who have waited at most maxWait |
| Matchmaking.TimedOut | matchmaking/queue.go:82 | a player has timed out when it has waited more than maxWait (a definition; Matchmaking.MatchmakingQueue.CleanupTimeoutQueuePlayers uses it) |
| Matchmaking.ThreeQueuedScenario | matchmaking/queue_test.go:110-136 | three players give a match of two distinct ones and leave one |
| Matchmaking.RemoveBeforeMatchScenario | matchmaking/queue_test.go:138-153 | two added and one removed leave nothing to match |
| Matchmaking.RemoveThenMatchScenario | matchmaking/queue_test.go:155-181 | the remaining player is matched with the newcomer and the queue empties |
| Matchmaking.CleanupScenario | matchmaking/queue_test.go:251-275 | a player waiting past the limit is swept; one within it stays |
| Delivery.StringField | server/server.go:216 | present exactly when the key holds a string, with that string |
| Delivery.Send | server/server.go:185-200 | queued while the 256-slot channel has room; otherwise dropped, with the channel closed |
| Delivery.SendTimes | server/server.go:382-386 | after n safe sends the channel is closed exactly when they overflow it, and holds n copies, or n - 1 when closed |
| Delivery.SendTimesQueues | server/server.go:382-386 | n safe sends append exactly n copies of the message, or n - 1 when the last one closes the channel |
| Delivery.SendTimesStep | server/server.go:382-386 | one more safe send is the next send |
| Delivery.CanSendFewer | server/server.go:382-386 | fewer sends than a safe number are safe |
| Delivery.Connection.constructor | server/server.go:62-66 | a new connection has its player, no game and an empty open channel |
| Delivery.Connection.SendMessage | server/server.go:185-200 | the channel becomes Send of the old channel and the message |
| Delivery.Recipients | server/server.go:382-386 | only roster entries of other players are reached |
| Delivery.RecipientsCount | server/server.go:382-386 | a connection of another player is reached once per roster entry; the excluded player's never |
| Delivery.RecipientsWithoutExclusion | server/server.go:326-332 | the empty exclusion reaches the whole roster |
| Delivery.RecipientsAppendExcluded | server/server.go:252-255 | appending the excluded player's connection changes no recipient |
| Delivery.VisitSend | server/server.go:383-385 | visiting a recipient stays within its channel's capacity and adds one copy for it |
| Delivery.VisitSkip | server/server.go:383 | visiting the excluded player's entry changes no channel |
| Delivery.Visit | server/server.go:383-385 | one step of the broadcast loop: the entry at i is sent one copy unless it is the excluded player's, and every channel then matches the progress through entry i + 1 |
| Delivery.VisitDone | server/server.go:382-386 | after the last entry each recipient holds one copy per roster entry, and the excluded player's connections are as before |
| Delivery.DeliveredToRecipients | server/server.go:382-386 | a delivered broadcast gives each recipient one copy per time it appears among the recipients |
| Hub.RemoveFirst | server/server.go:129-134 | one element shorter when x occurs; unchanged otherwise |
| Hub.RemoveFirstMultiset | server/server.go:129-134 | exactly one copy of x leaves the roster |
| Hub.RemoveFirstAt | server/server.go:131 | removing at the first occurrence is the splice the loop performs |
| Hub.WithoutMember | server/server.go:128-139 | other rosters untouched; the roster loses conn's first entry and is deleted when left empty |
| Hub.WithMember | server/server.go:116 | the game's roster with conn appended (a definition; Hub.WithMemberNonEmpty states its effect) |
| Hub.WithMemberNonEmpty | server/server.go:116 | appending keeps every roster non-empty and extends the game's roster by conn |
| Hub.AddThenRemove | server/server.go:105-142 | joining a game and then leaving it restores the rosters |
| Hub.JoinedCanDeliver | server/server.go:241-255 | the joiner's own entry does not change what the announcement needs |
| Hub.JoinedDelivery | server/server.go:241-255 | announcing over the roster with the joiner appended is the announcement to the old roster |
| Hub.Fill | server/server.go:303-307 | writes the move into the chosen slot of the round (a definition; Hub.FillCompletes states its effect) |
| Hub.Complete | server/server.go:316 | both slots of the round hold a valid move (a definition; Hub.FillCompletes uses it) |
| Hub.FillCompletes | server/server.go:303-316 | a valid move completes the round exactly when the other slot holds a valid move |
| Hub.OpenSeatNeverRecorded | server/server.go:230 | in a game created by join_game, whose P2 is "", no move is written to P2 |
| Hub.SelfPlayFillsP1 | server/server.go:303-307 | when both players are one identity only the P1 slot is written |
| Hub.Server.constructor | server/server.go:40-46 | no connections and no rosters |
| Hub.Server.RegisterConnection | server/server.go:74-84 | the player now maps to conn; the connection it replaces has its socket closed |
| Hub.Server.UnregisterConnection | server/server.go:86-103 | the player's entry goes only while it is conn itself; conn leaves its roster; the disconnect branch is dead |
| Hub.Server.AddPlayerToGame | server/server.go:105-117 | an unknown game changes nothing; otherwise conn is appended to the roster and records the game |
| Hub.Server.RemovePlayerFromGame | server/server.go:119-142 | no game: no change; otherwise the roster loses conn's first entry, is deleted when empty, and conn records no game |
| Hub.Server.BroadcastToGame | server/server.go:373-387 | each connection of another player on the roster receives one copy per entry it has; the excluded player's connections receive nothing |
| Hub.Server.Requested | server/server.go:216 | the game_id field when it is a string (a definition) |
| Hub.Server.JoinTarget | server/server.go:215-239 | a target only for a string game_id; a registered requested game is itself the target; a target is registered exactly when the requested game is |
| Hub.Server.JoinedGame | server/server.go:226-239 | the requested game when it is registered; otherwise the identifier the new game takes, which is not in use |
| Hub.Server.GameToJoin | server/server.go:226-239 | succeeds exactly when a game is found or can be created; a found game is the registered one, and the registry and generator are left unchanged; a created game is fresh, with the player as P1 and P2 empty; after a creation or a failed creation the cursor stands where Registry.CursorAfterCreate says |
| Hub.Server.HandleJoinGame | server/server.go:215-256 | a non-string game_id or exhausted identifiers: one error to the sender and no other change; otherwise conn joins the found game, with the registry left unchanged, or the created one, receives game_joined, and the requested game's roster hears player_joined, except the joiner's player; the generator's cursor moves only when no game was found, to where Registry.CursorAfterCreate says |
| Hub.Server.AttachAndAnnounce | server/server.go:241-255 | conn is appended and told game_joined; the requested roster receives player_joined per entry, except conn's player |
| Hub.Server.DecideMove | server/server.go:258-314 | each refusal (not in a game, no string move, unknown game, no round, invalid move, not a player) happens exactly when every earlier check passes and its own fails; all checks passing by one of the two players gives a recorded move; a recorded move is a valid parsed string from a registered game with a round, sent by one of its players, in P1's slot exactly for P1 |
| Hub.Server.HandleMakeMove | server/server.go:258-334 | a refusal: an error to the sender alone, the game untouched; otherwise the move is stored; a completed round is played and round_played reaches the whole roster, or the play error reaches the sender |
| Hub.Server.HandleStartRound | server/server.go:336-371 | no game or an unknown game: an error to the sender alone; a refusal by the game: its error to the sender; otherwise the round is opened and round_started reaches the whole roster |
| Hub.Server.HandleMessage | server/server.go:202-213 | only join_game changes rosters, the registry or the generator's cursor; make_move and start_round send only to conn and conn's game roster; an unknown type changes nothing: no connection, game or channel |
| Hub.ReRegisterScenario | server/server.go:74-103 | a second connection under one identity replaces the first, and unregistering the stale one keeps the new one |
| Hub.TwoPlayerGame | server/server.go:105-117 | two players attached to one game form its roster in joining order |
| Hub.StartRoundScenario | server/server.go:336-371 | start_round from either player reaches both, once each |
| Locking.Run | server/server.go:74-142 | taking the held lock blocks; releasing an unheld lock is fatal |
| Locking.Locked | server/server.go:87-88 | an operation that takes the lock first and releases it last, with what it calls in between (a definition; Locking.LockedCompletes states when it completes) |
| Locking.RunAppend | server/server.go:86-103 | a run of two stretches runs the second from where the first left the lock |
| Locking.LockedCompletes | server/server.go:86-103 | a locked operation completes exactly when what it calls does not take the lock |
| Locking.NestedLockBlocks | server/server.go:86-94 | a callee that takes the lock never returns to a caller holding it |
| Locking.UnregisterAsWrittenBlocks | server/server.go:86-94 | unregisterConnection as written never completes |
| Locking.UnregisterCorrectedCompletes | server/server.go:86-103 | with the removal done under the held lock the disconnect completes |
| Locking.JoinGameLocksComplete | server/server.go:241-255 | join_game's two locked calls in turn complete |

## Findings

| source | as written | input that shows it | evidently intended | confidence | as-written member | corrected member |
|---|---|---|---|---|---|---|
| server/server.go:86-94 | `unregisterConnection` holds `s.mu` and calls `removePlayerFromGame`, which locks `s.mu` again. `sync.RWMutex` is not re-entrant. | any disconnect: a websocket read error ends `readMessages`, whose deferred call runs `unregisterConnection` | the removal runs under the lock already held, and the disconnect completes | high, not executed | Locking.UnregisterAsWrittenBlocks | Locking.UnregisterCorrectedCompletes |

The rest of the model uses the corrected behaviour: `Hub.Server.UnregisterConnection`
runs the roster removal to completion.

## Left out

- Websocket I/O, the HTTP upgrade and JSON encoding are not modelled. A queued message is
  a `Message` value. Inbound payload fields are either strings or something else.
- The writer goroutine that drains a send channel is not modelled. Channels only fill up.
- `readMessages`, `writeMessages`, `close` and `HandleWebSocket` are not modelled: they
  are goroutine and I/O plumbing. The one fact of `HandleWebSocket` the model keeps is
  that player identifiers are non-empty.
- Locks and goroutines are not modelled. Each operation runs to completion on its own,
  and interleavings are not covered. Only the order of lock operations is modelled, in
  `Locking`.
- `sendToPlayer` is not modelled: nothing in the core calls it.
- Go panics on sends to a closed channel are preconditions, not modelled failures. The
  same goes for the double `close` of a channel that `SendMessage` already closed.
- Time is an integer parameter. `time.Now` is never read.
- `DefaultUUIDGenerator` and `NewManager` are not modelled: they draw random UUIDs. The
  registry is modelled over `MockUUIDGenerator` only.
- The body of the `Game` type (`game/game.go` as shipped holds only the move helpers) is
  not part of this model. The results of `NewRound` and `PlayRound` are handler
  parameters, with no properties invented for them.
- `SetPlayerConnected`, `IsActive` and the maximum number of rounds are not modelled.
  The `game` and `round` payloads of outbound messages carry only the game identifier.
- `log.Printf` output is not modelled.
- `main.go` is not modelled.
- Hub.Server.HandleMessage: states only the dispatch: which state each message type may
  touch, and that an unknown type changes nothing. The three handlers' own contracts
  state their outcomes.
- Matchmaking.MatchmakingQueue.TryMatch: does not model which two players Go's
  randomised map iteration picks. Any two distinct queued players are allowed.

/** Messages and outbound delivery of server/server.go: the message shape, the bounded
    per-connection send queue with its drop-and-close policy, and the selection of a
    broadcast's recipients from a game roster. The websocket itself and JSON encoding are
    not modelled; a queued message is kept as a value. */
module Delivery {
  import opened Wrappers

  /** A player identity. The upgrade handler refuses a connection without one, so every
      connection's identity is non-empty. */
  type PlayerId = s: string | s != "" witness "player"

  /** A payload value. Inbound payloads matter only in whether a field holds a string;
      outbound payloads that carry a game or a round name it by the game's identifier. */
  datatype Value = Str(s: string) | GameRef(gameID: string) | RoundRef(gameID: string) | Opaque

  datatype Message = Message(kind: string, data: map<string, Value>)

  function ErrorMessage(text: string): Message {
    Message("error", map["message" := Str(text)])
  }

  function GameJoined(gameID: string): Message {
    Message("game_joined", map["gameID" := Str(gameID), "game" := GameRef(gameID)])
  }

  function PlayerJoined(playerID: string): Message {
    Message("player_joined", map["playerID" := Str(playerID)])
  }

  function RoundStarted(gameID: string): Message {
    Message("round_started", map["round" := RoundRef(gameID), "game" := GameRef(gameID)])
  }

  function RoundPlayed(gameID: string): Message {
    Message("round_played", map["round" := RoundRef(gameID), "game" := GameRef(gameID)])
  }

  /** The field key of a payload when it holds a string; the handlers' `data[key].(string)`
      type assertion. */
  function StringField(data: map<string, Value>, key: string): (r: Option<string>)
    ensures r.Some? <==> key in data && data[key].Str?
    ensures r.Some? ==> data[key] == Str(r.value)
  {
    if key in data && data[key].Str? then Some(data[key].s) else None
  }

  /** The capacity of a connection's send channel. */
  const SendBufferSize := 256

  /** A connection's send channel: the messages waiting for the writer, and whether the
      channel has been closed. */
  datatype Outbox = Outbox(items: seq<Message>, closed: bool)

  /** One non-blocking send: queued while the channel has room; on a full channel the
      message is dropped and the channel closed. Sending on a closed channel panics in Go,
      hence the precondition. */
  function Send(o: Outbox, m: Message): (r: Outbox)
    requires !o.closed
    ensures r.closed <==> |o.items| >= SendBufferSize
    ensures r.items == if r.closed then o.items else o.items + [m]
    ensures |o.items| <= SendBufferSize ==> |r.items| <= SendBufferSize
  {
    if |o.items| < SendBufferSize then Outbox(o.items + [m], false) else Outbox(o.items, true)
  }

  /** n sends of one message in a row do not panic: the channel is open and at most the
      last of them finds it full. */
  predicate CanSendTimes(o: Outbox, n: nat) {
    n == 0 || (!o.closed && |o.items| + n - 1 <= SendBufferSize)
  }

  function Repeat(m: Message, n: nat): (r: seq<Message>)
    ensures |r| == n && forall i :: 0 <= i < n ==> r[i] == m
  {
    if n == 0 then [] else Repeat(m, n - 1) + [m]
  }

  /** The channel after n sends of m. Where CanSendTimes(o, n) fails Go would panic on a
      send to the closed channel; the function then keeps the channel as it is, and every
      use of it below is guarded by CanSendTimes. */
  function SendTimes(o: Outbox, m: Message, n: nat): (r: Outbox)
    ensures n == 0 ==> r == o
    ensures n > 0 && CanSendTimes(o, n) ==> (r.closed <==> |o.items| + n > SendBufferSize)
    ensures n > 0 && CanSendTimes(o, n) ==>
      |r.items| == |o.items| + (if r.closed then n - 1 else n) <= SendBufferSize
  {
    if n == 0 then o
    else
      var before := SendTimes(o, m, n - 1);
      if before.closed then before else Send(before, m)
  }

  /** n safe sends queue n copies behind what was waiting, or n - 1 copies when the last
      send found the channel full and closed it. */
  lemma {:induction false} SendTimesQueues(o: Outbox, m: Message, n: nat)
    requires n > 0 && CanSendTimes(o, n)
    ensures SendTimes(o, m, n).items == o.items + Repeat(m, if SendTimes(o, m, n).closed then n - 1 else n)
  {
    if n > 1 {
      SendTimesQueues(o, m, n - 1);
    }
  }

  /** One more safe send after n sends is the (n + 1)-th send. */
  lemma SendTimesStep(o: Outbox, m: Message, n: nat)
    requires CanSendTimes(o, n + 1)
    ensures !SendTimes(o, m, n).closed
    ensures SendTimes(o, m, n + 1) == Send(SendTimes(o, m, n), m)
  {
  }

  /** Fewer sends than a safe number are safe. */
  lemma CanSendFewer(o: Outbox, n: nat, k: nat)
    requires k <= n && CanSendTimes(o, n)
    ensures CanSendTimes(o, k)
  {
  }

  /** One client connection. */
  class Connection {
    const playerID: PlayerId
    /** The game this connection is attached to, "" when none. */
    var gameID: string
    var outbox: Outbox
    /** Whether the websocket has been closed by a newer registration. */
    var socketClosed: bool

    constructor (playerID: PlayerId)
      ensures this.playerID == playerID && gameID == ""
      ensures outbox == Outbox([], false) && !socketClosed
    {
      this.playerID := playerID;
      gameID := "";
      outbox := Outbox([], false);
      socketClosed := false;
    }

    /** Queues msg on this connection's channel, or drops it and closes the channel when
        the channel is full. */
    method SendMessage(msg: Message)
      requires !outbox.closed
      modifies this`outbox
      ensures outbox == Send(old(outbox), msg)
    {
      if |outbox.items| < SendBufferSize {
        outbox := Outbox(outbox.items + [msg], false);
      } else {
        outbox := Outbox(outbox.items, true);
      }
    }
  }

  /** The roster members a broadcast reaches, in roster order: every entry whose player is
      not the excluded one. */
  function Recipients(roster: seq<Connection>, exclude: string): (r: seq<Connection>)
    ensures forall c :: c in r ==> c in roster && c.playerID != exclude
  {
    if roster == [] then []
    else
      var last := roster[|roster| - 1];
      var rest := Recipients(roster[..|roster| - 1], exclude);
      assert forall c :: c in roster[..|roster| - 1] ==> c in roster;
      if last.playerID != exclude then rest + [last] else rest
  }

  /** A broadcast reaches a connection of another player once per roster entry it has,
      and a connection of the excluded player never. */
  lemma {:induction false} RecipientsCount(roster: seq<Connection>, exclude: string, c: Connection)
    ensures multiset(Recipients(roster, exclude))[c] ==
      if c.playerID == exclude then 0 else multiset(roster)[c]
  {
    if roster != [] {
      var last := roster[|roster| - 1];
      RecipientsCount(roster[..|roster| - 1], exclude, c);
      assert roster == roster[..|roster| - 1] + [last];
    }
  }

  /** The empty identity excludes nobody: the broadcast reaches the whole roster. */
  lemma {:induction false} RecipientsWithoutExclusion(roster: seq<Connection>)
    ensures Recipients(roster, "") == roster
  {
    if roster != [] {
      RecipientsWithoutExclusion(roster[..|roster| - 1]);
      assert roster == roster[..|roster| - 1] + [roster[|roster| - 1]];
    }
  }

  /** Appending a connection of the excluded player does not change who is reached. */
  lemma RecipientsAppendExcluded(roster: seq<Connection>, c: Connection)
    ensures Recipients(roster + [c], c.playerID) == Recipients(roster, c.playerID)
  {
    assert (roster + [c])[..|roster|] == roster;
  }

  /** How many copies of a broadcast c receives, given how often it appears among the
      connections visited. */
  function Copies(visited: multiset<Connection>, exclude: string, c: Connection): nat {
    if c.playerID == exclude then 0 else visited[c]
  }

  /** Halfway through a broadcast of msg over roster: after the first i entries have been
      visited, each connection's channel, as now records it, has received one copy per
      visited entry of it since sent, or none when its player is excluded. */
  ghost predicate Progress(roster: seq<Connection>, sent: map<Connection, Outbox>, now: map<Connection, Outbox>,
                           msg: Message, exclude: string, i: nat)
  {
    && i <= |roster|
    && forall c :: c in roster ==>
         c in sent && c in now && now[c] == SendTimes(sent[c], msg, Copies(multiset(roster[..i]), exclude, c))
  }

  /** Visiting one more roster entry adds it to the visited multiset, which stays within
      the roster's. */
  lemma PrefixCount(roster: seq<Connection>, i: nat)
    requires i < |roster|
    ensures multiset(roster[..i + 1]) == multiset(roster[..i]) + multiset{roster[i]}
    ensures multiset(roster[..i + 1])[roster[i]] <= multiset(roster)[roster[i]]
  {
    assert roster[..i + 1] == roster[..i] + [roster[i]];
    assert roster == roster[..i + 1] + roster[i + 1..];
  }

  /** Visiting entry i of a recipient keeps the broadcast within what its channel can take
      and advances the broadcast by one entry with one more send. */
  lemma VisitSend(roster: seq<Connection>, sent: map<Connection, Outbox>, now: map<Connection, Outbox>,
                  msg: Message, exclude: string, i: nat)
    requires i < |roster| && roster[i].playerID != exclude
    requires Progress(roster, sent, now, msg, exclude, i)
    requires forall c :: c in roster && c.playerID != exclude ==> CanSendTimes(sent[c], multiset(roster)[c])
    ensures !now[roster[i]].closed
    ensures Progress(roster, sent, now[roster[i] := Send(now[roster[i]], msg)], msg, exclude, i + 1)
  {
    var c := roster[i];
    PrefixCount(roster, i);
    var seen := multiset(roster[..i]);
    var seenNext := multiset(roster[..i + 1]);
    CanSendFewer(sent[c], multiset(roster)[c], seen[c] + 1);
    SendTimesStep(sent[c], msg, seen[c]);
    var next := now[c := Send(now[c], msg)];
    forall d | d in roster
      ensures d in sent && d in next && next[d] == SendTimes(sent[d], msg, Copies(seenNext, exclude, d))
    {
      if d != c {
        assert Copies(seenNext, exclude, d) == Copies(seen, exclude, d);
      } else {
        assert Copies(seenNext, exclude, c) == seen[c] + 1;
      }
    }
  }

  /** Visiting entry i of the excluded player advances the broadcast by one entry with no
      send. */
  lemma VisitSkip(roster: seq<Connection>, sent: map<Connection, Outbox>, now: map<Connection, Outbox>,
                  msg: Message, exclude: string, i: nat)
    requires i < |roster| && roster[i].playerID == exclude
    requires Progress(roster, sent, now, msg, exclude, i)
    ensures Progress(roster, sent, now, msg, exclude, i + 1)
  {
    PrefixCount(roster, i);
    var seen := multiset(roster[..i]);
    var seenNext := multiset(roster[..i + 1]);
    forall d | d in roster
      ensures d in sent && d in now && now[d] == SendTimes(sent[d], msg, Copies(seenNext, exclude, d))
    {
      assert Copies(seenNext, exclude, d) == Copies(seen, exclude, d);
    }
  }

  /** One step of a broadcast: sends msg to entry i of roster unless its player is
      excluded, and returns the channels' new record. */
  method Visit(c: Connection, roster: seq<Connection>, i: nat, msg: Message, exclude: string,
               ghost sent: map<Connection, Outbox>, ghost now: map<Connection, Outbox>)
    returns (ghost next: map<Connection, Outbox>)
    requires i < |roster| && c == roster[i] && Progress(roster, sent, now, msg, exclude, i)
    requires forall d :: d in roster && d.playerID != exclude ==> CanSendTimes(sent[d], multiset(roster)[d])
    requires forall k :: 0 <= k < |roster| ==> roster[k] in now && roster[k].outbox == now[roster[k]]
    modifies c`outbox
    ensures Progress(roster, sent, next, msg, exclude, i + 1)
    ensures forall k :: 0 <= k < |roster| ==> roster[k] in next && roster[k].outbox == next[roster[k]]
  {
    if c.playerID != exclude {
      VisitSend(roster, sent, now, msg, exclude, i);
      c.SendMessage(msg);
      next := now[c := Send(now[c], msg)];
    } else {
      VisitSkip(roster, sent, now, msg, exclude, i);
      next := now;
    }
  }

  /** At the end of the roster, with the channels as now records them, Progress is the
      broadcast's outcome: Delivered to the recipients and Kept for the excluded player. */
  lemma VisitDone(roster: seq<Connection>, sent: map<Connection, Outbox>, now: map<Connection, Outbox>,
                  msg: Message, exclude: string)
    requires Progress(roster, sent, now, msg, exclude, |roster|)
    requires forall k :: 0 <= k < |roster| ==> roster[k] in now && roster[k].outbox == now[roster[k]]
    requires forall c :: c in roster && c.playerID != exclude ==> CanSendTimes(sent[c], multiset(roster)[c])
    ensures Delivered(roster, sent, msg, exclude)
    ensures Kept(roster, sent, exclude)
  {
    assert roster[..|roster|] == roster;
  }

  /** A roster whose every recipient can take as many copies as it will receive: one per
      roster entry it has (its count among the recipients, by RecipientsCount). */
  predicate CanDeliver(roster: seq<Connection>, exclude: string)
    reads roster
  {
    forall c :: c in roster && c.playerID != exclude ==> CanSendTimes(c.outbox, multiset(roster)[c])
  }

  /** The channels of the roster's connections, as a snapshot. */
  function Outboxes(roster: seq<Connection>): (m: map<Connection, Outbox>)
    reads roster
    ensures forall c :: c in roster ==> c in m && m[c] == c.outbox
  {
    map c | c in roster :: c.outbox
  }

  /** The outcome of a broadcast of msg over roster for the recipients, against the
      channels sent held before it: each recipient's channel received one copy per roster
      entry it has. */
  predicate Delivered(roster: seq<Connection>, sent: map<Connection, Outbox>, msg: Message, exclude: string)
    reads roster
  {
    forall c :: c in roster && c.playerID != exclude ==>
      && c in sent
      && CanSendTimes(sent[c], multiset(roster)[c])
      && c.outbox == SendTimes(sent[c], msg, multiset(roster)[c])
  }

  /** What Delivered says, counted over the broadcast's recipients: each one receives the
      message once per time it appears among them. */
  lemma DeliveredToRecipients(roster: seq<Connection>, sent: map<Connection, Outbox>, msg: Message,
                              exclude: string, c: Connection)
    requires Delivered(roster, sent, msg, exclude)
    requires c in roster && c.playerID != exclude
    ensures c in Recipients(roster, exclude) && c in sent
    ensures c.outbox == SendTimes(sent[c], msg, multiset(Recipients(roster, exclude))[c])
  {
    RecipientsCount(roster, exclude, c);
  }

  /** The outcome of a broadcast for the excluded player: its connections on roster keep
      the channels sent held. */
  predicate Kept(roster: seq<Connection>, sent: map<Connection, Outbox>, exclude: string)
    reads roster
  {
    forall c :: c in roster && c.playerID == exclude ==> c in sent && c.outbox == sent[c]
  }

  /** No broadcast: every connection on roster other than except keeps the channel sent
      records for it. */
  predicate Quiet(roster: seq<Connection>, sent: map<Connection, Outbox>, except: Connection)
    reads roster
  {
    forall c :: c in roster && c != except ==> c in sent && c.outbox == sent[c]
  }
}

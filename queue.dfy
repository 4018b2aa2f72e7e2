/** The player record of game/models/player.go. */
module Models {
  datatype Player = Player(id: string, username: string, email: string, createdAt: int)
}

/** The matchmaking queue of matchmaking/queue.go: a map from player identifier to the
    queued player and the time it joined. Times are integers; the current time is a
    parameter. */
module Matchmaking {
  import opened Wrappers
  import opened Models

  datatype QueuedPlayer = QueuedPlayer(player: Player, joinedAt: int)

  /** The sweep's test: a player queued for longer than maxWait. */
  predicate TimedOut(joinedAt: int, now: int, maxWait: int) {
    now - joinedAt > maxWait
  }

  class MatchmakingQueue {
    var players: map<string, QueuedPlayer>

    /** Every entry is filed under its own player's identifier. */
    ghost predicate Valid()
      reads this
    {
      forall id :: id in players ==> players[id].player.id == id
    }

    /** NewQueue. */
    constructor ()
      ensures Valid() && players == map[]
    {
      players := map[];
    }

    /** Inserts the player, replacing an entry already filed under the same identifier. */
    method AddPlayer(player: Player, now: int)
      requires Valid()
      modifies this
      ensures Valid()
      ensures players == old(players)[player.id := QueuedPlayer(player, now)]
      ensures |players| == if player.id in old(players) then |old(players)| else |old(players)| + 1
    {
      players := players[player.id := QueuedPlayer(player, now)];
    }

    /** Deletes the entry if there is one; removing an absent player changes nothing. */
    method RemovePlayer(playerID: string)
      requires Valid()
      modifies this
      ensures Valid()
      ensures players == old(players) - {playerID}
      ensures playerID !in old(players) ==> players == old(players)
    {
      players := players - {playerID};
    }

    /** Takes the first two entries of a walk over the map, in an order the map does not
        fix, and removes both; with fewer than two queued players nothing happens. */
    method TryMatch() returns (a: Option<Player>, b: Option<Player>, matched: bool)
      requires Valid()
      modifies this
      ensures Valid()
      ensures |old(players)| < 2 ==> !matched && a == None && b == None && players == old(players)
      ensures |old(players)| >= 2 ==> matched && a.Some? && b.Some?
      ensures matched ==>
        && a.value.id != b.value.id
        && a.value.id in old(players) && old(players)[a.value.id].player == a.value
        && b.value.id in old(players) && old(players)[b.value.id].player == b.value
        && players == old(players) - {a.value.id, b.value.id}
        && |players| == |old(players)| - 2
    {
      if |players| < 2 {
        return None, None, false;
      }
      var first: Option<QueuedPlayer> := None;
      var second: Option<QueuedPlayer> := None;
      var unvisited := players.Keys;
      while unvisited != {}
        invariant unvisited <= players.Keys
        invariant first.None? ==> unvisited == players.Keys && second.None?
        invariant first.Some? ==> first.value.player.id in players && first.value.player.id !in unvisited
        invariant first.Some? ==> players[first.value.player.id] == first.value
        invariant second.None? && first.Some? ==> |unvisited| == |players| - 1
        decreases unvisited
      {
        var id :| id in unvisited;
        if first.None? {
          first := Some(players[id]);
        } else {
          second := Some(players[id]);
          break;
        }
        unvisited := unvisited - {id};
      }
      assert second.Some? by {
        if second.None? {
          assert false;
        }
      }
      assert first.value.player.id != second.value.player.id;
      players := players - {first.value.player.id} - {second.value.player.id};
      return Some(first.value.player), Some(second.value.player), true;
    }

    method GetQueueSize() returns (n: nat)
      ensures n == |players.Keys|
    {
      n := |players|;
    }

    /** Deletes every player queued for longer than maxWait before now. */
    method CleanupTimeoutQueuePlayers(maxWait: int, now: int)
      requires Valid()
      modifies this
      ensures Valid()
      ensures players == map id | id in old(players) && !TimedOut(old(players)[id].joinedAt, now, maxWait) :: old(players)[id]
    {
      var pending := players.Keys;
      while pending != {}
        invariant Valid()
        invariant pending <= old(players).Keys
        invariant players == map id | id in old(players) && (id in pending || !TimedOut(old(players)[id].joinedAt, now, maxWait)) :: old(players)[id]
        decreases pending
      {
        var id :| id in pending;
        if TimedOut(players[id].joinedAt, now, maxWait) {
          players := players - {id};
        }
        pending := pending - {id};
      }
    }
  }

  /** matchmaking/queue_test.go:110-136, for any three players with distinct identifiers:
      the match takes two different ones of them and leaves the third queued. */
  method ThreeQueuedScenario(x: Player, y: Player, z: Player) returns (a: Player, b: Player, matched: bool, left: nat)
    requires x.id != y.id && y.id != z.id && x.id != z.id
    ensures matched && a.id != b.id && left == 1
    ensures a in {x, y, z} && b in {x, y, z}
  {
    var q := new MatchmakingQueue();
    q.AddPlayer(x, 0);
    q.AddPlayer(y, 0);
    q.AddPlayer(z, 0);
    var pa, pb;
    pa, pb, matched := q.TryMatch();
    a, b := pa.value, pb.value;
    left := q.GetQueueSize();
  }

  /** matchmaking/queue_test.go:138-153: two players added and one of them removed leave
      nothing to match. */
  method RemoveBeforeMatchScenario(x: Player, y: Player) returns (matched: bool, left: nat)
    requires x.id != y.id
    ensures !matched && left == 1
  {
    var q := new MatchmakingQueue();
    q.AddPlayer(x, 0);
    q.AddPlayer(y, 0);
    q.RemovePlayer(x.id);
    assert q.players.Keys == {y.id};
    var none1, none2;
    none1, none2, matched := q.TryMatch();
    left := q.GetQueueSize();
  }

  /** matchmaking/queue_test.go:155-181: after one of two players is removed, a third
      arrival is matched with the remaining one and the queue is left empty. */
  method RemoveThenMatchScenario(x: Player, y: Player, z: Player) returns (a: Player, b: Player, matched: bool, left: nat)
    requires x.id != y.id && y.id != z.id && x.id != z.id
    ensures matched && left == 0
    ensures (a == y && b == z) || (a == z && b == y)
  {
    var q := new MatchmakingQueue();
    q.AddPlayer(x, 0);
    q.AddPlayer(y, 0);
    q.RemovePlayer(x.id);
    assert q.players == map[y.id := QueuedPlayer(y, 0)];
    q.AddPlayer(z, 0);
    ghost var pair := q.players;
    assert pair == map[y.id := QueuedPlayer(y, 0), z.id := QueuedPlayer(z, 0)];
    assert pair.Keys == {y.id, z.id};
    assert pair[y.id].player == y && pair[z.id].player == z;
    var pa, pb;
    pa, pb, matched := q.TryMatch();
    a, b := pa.value, pb.value;
    left := q.GetQueueSize();
  }

  /** matchmaking/queue_test.go:251-275, for any limit: a player queued for longer than
      the limit is swept and one queued for less stays. */
  method CleanupScenario(x: Player, y: Player, now: int, maxWait: nat) returns (left: nat, xQueued: bool, yQueued: bool)
    requires x.id != y.id
    ensures left == 1 && !xQueued && yQueued
  {
    var q := new MatchmakingQueue();
    q.AddPlayer(x, now - maxWait - 1);
    q.AddPlayer(y, now - maxWait);
    q.CleanupTimeoutQueuePlayers(maxWait, now);
    assert q.players.Keys == {y.id};
    left := q.GetQueueSize();
    xQueued := x.id in q.players;
    yQueued := y.id in q.players;
  }
}

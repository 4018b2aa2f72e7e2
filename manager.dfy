/** The game registry of game/manager.go: a map from game identifier to game, with
    collision-checked creation, lookup, removal and an age-based sweep. Times are integers
    (nanoseconds, as Go's time.Duration); the current time is a parameter. */
module Registry {
  import opened Wrappers
  import opened Rounds
  import opened UuidGen

  /** How many candidate identifiers CreateGame checks before it gives up. */
  const MaxRetries := 5

  const IdExhaustedError := "failed to generate unique game ID"
  const NotFoundError := "game not found"

  /** One game, shared by reference between the registry and the server. Only the parts the
      registry and the server touch are modelled; the round state machine is not. */
  class Game {
    const id: string
    const p1: string
    const p2: string
    var lastActivity: int
    var currentRound: Option<Round>

    /** NewGame: no round in progress, last activity now. */
    constructor (id: string, p1: string, p2: string, now: int)
      ensures this.id == id && this.p1 == p1 && this.p2 == p2
      ensures lastActivity == now && currentRound == None
    {
      this.id, this.p1, this.p2 := id, p1, p2;
      lastActivity := now;
      currentRound := None;
    }
  }

  /** The candidate identifiers CreateGame checks, in order, when the generator's cursor
      starts at start. */
  function Candidates(values: seq<string>, start: nat): (c: seq<string>)
    ensures |c| == MaxRetries
    ensures forall k :: 0 <= k < MaxRetries ==> c[k] == Stream(values, start + k)
  {
    [Stream(values, start), Stream(values, start + 1), Stream(values, start + 2),
     Stream(values, start + 3), Stream(values, start + 4)]
  }

  /** The position of the first candidate not among keys, if any. */
  function FirstAbsent(keys: set<string>, cands: seq<string>): (r: Option<nat>)
    ensures r.Some? ==> r.value < |cands| && cands[r.value] !in keys
    ensures r.Some? ==> forall j :: 0 <= j < r.value ==> cands[j] in keys
    ensures r.None? ==> forall j :: 0 <= j < |cands| ==> cands[j] in keys
  {
    if cands == [] then None
    else if cands[0] !in keys then Some(0)
    else match FirstAbsent(keys, cands[1..])
      case None => None
      case Some(k) => Some(k + 1)
  }

  /** Where the generator's cursor stands after CreateGame started at start over the
      stored keys: one draw per checked candidate up to the first free one, or all six
      draws, the last of them unchecked, when none is free. */
  function CursorAfterCreate(values: seq<string>, keys: set<string>, start: nat): (i: nat)
    requires start <= |values|
    ensures i <= |values|
    ensures start < i || i == |values|
  {
    match FirstAbsent(keys, Candidates(values, start))
    case Some(k) => IndexAfter(values, start, k + 1)
    case None => IndexAfter(values, start, MaxRetries + 1)
  }

  /** When the first draw is free, creation takes it and the cursor moves by one. */
  lemma CursorAfterFreeDraw(values: seq<string>, keys: set<string>, start: nat)
    requires start < |values| && values[start] !in keys
    ensures CursorAfterCreate(values, keys, start) == start + 1
  {
    FirstAbsentIsFirst(keys, Candidates(values, start), 0);
  }

  /** The sweep's test: a game whose last activity is more than maxAge ago. */
  predicate Expired(lastActivity: int, now: int, maxAge: int) {
    now - lastActivity > maxAge
  }

  class Manager {
    var games: map<string, Game>
    const gen: MockUUIDGenerator

    ghost predicate Valid()
      reads this, gen
    {
      && gen.Valid()
      && forall id :: id in games ==> games[id].id == id
    }

    /** NewManagerWithUUIDGenerator: a registry with no games. */
    constructor (gen: MockUUIDGenerator)
      requires gen.Valid()
      ensures Valid()
      ensures games == map[] && this.gen == gen
    {
      games := map[];
      this.gen := gen;
    }

    /** Draws an identifier, redraws while it collides with a stored game, and gives up
        after MaxRetries checked candidates; the identifier drawn on the last failing round
        is never checked. */
    method CreateGame(p1: string, p2: string, now: int) returns (r: Result<Game, string>)
      requires Valid()
      modifies this, gen
      ensures Valid()
      ensures r.Failure? <==> forall c :: c in Candidates(gen.values, old(gen.index)) ==> c in old(games)
      ensures r.Success? ==> r.value.id !in old(games) && games == old(games)[r.value.id := r.value]
      ensures r.Failure? ==> r.error == IdExhaustedError && games == old(games)
      ensures match FirstAbsent(old(games).Keys, Candidates(gen.values, old(gen.index)))
        case Some(k) =>
          && r.Success? && fresh(r.value)
          && r.value.id == Candidates(gen.values, old(gen.index))[k]
          && r.value.p1 == p1 && r.value.p2 == p2
          && r.value.lastActivity == now && r.value.currentRound == None
          && gen.index == IndexAfter(gen.values, old(gen.index), k + 1)
        case None =>
          gen.index == IndexAfter(gen.values, old(gen.index), MaxRetries + 1)
    {
      ghost var start := gen.index;
      ghost var cands := Candidates(gen.values, start);
      var id := gen.Generate();
      var i := 0;
      while i < MaxRetries
        invariant 0 <= i < MaxRetries
        invariant gen.Valid() && games == old(games)
        invariant id == cands[i]
        invariant gen.index == IndexAfter(gen.values, start, i + 1)
        invariant forall j :: 0 <= j < i ==> cands[j] in games
      {
        if id !in games {
          break;
        }
        DrawComposes(gen.values, start, i + 1);
        id := gen.Generate();
        if i == MaxRetries - 1 {
          assert FirstAbsent(games.Keys, cands) == None;
          return Failure(IdExhaustedError);
        }
        i := i + 1;
      }
      assert FirstAbsent(games.Keys, cands) == Some(i) by {
        FirstAbsentIsFirst(games.Keys, cands, i);
      }
      var game := new Game(id, p1, p2, now);
      games := games[id := game];
      r := Success(game);
    }

    /** The lookup: present exactly when the key is stored, with the stored game. */
    function GetGame(id: string): (r: Option<Game>)
      reads this
      ensures r.Some? <==> id in games
      ensures r.Some? ==> r.value == games[id]
    {
      if id in games then Some(games[id]) else None
    }

    method RemoveGame(id: string) returns (err: Option<string>)
      requires Valid()
      modifies this
      ensures Valid()
      ensures err.Some? <==> id !in old(games)
      ensures err.Some? ==> err.value == NotFoundError && games == old(games)
      ensures err.None? ==> games == old(games) - {id}
    {
      if id !in games {
        return Some(NotFoundError);
      }
      games := games - {id};
      err := None;
    }

    /** Deletes every game whose last activity is more than maxAge before now. */
    method CleanupExpiredGames(maxAge: int, now: int)
      requires Valid()
      modifies this
      ensures Valid()
      ensures games == map id | id in old(games) && !Expired(old(games)[id].lastActivity, now, maxAge) :: old(games)[id]
    {
      var pending := games.Keys;
      while pending != {}
        invariant Valid()
        invariant pending <= old(games).Keys
        invariant games == map id | id in old(games) && (id in pending || !Expired(old(games)[id].lastActivity, now, maxAge)) :: old(games)[id]
        decreases pending
      {
        var id :| id in pending;
        if Expired(games[id].lastActivity, now, maxAge) {
          games := games - {id};
        }
        pending := pending - {id};
      }
    }
  }

  /** A position with every earlier candidate present and itself absent is the first. */
  lemma {:induction false} FirstAbsentIsFirst(keys: set<string>, cands: seq<string>, i: nat)
    requires i < |cands| && cands[i] !in keys
    requires forall j :: 0 <= j < i ==> cands[j] in keys
    ensures FirstAbsent(keys, cands) == Some(i)
  {
    if i > 0 {
      FirstAbsentIsFirst(keys, cands[1..], i - 1);
    }
  }

  /** game/manager_test.go:39-63, for any two distinct identifiers x and y: with the script
      [x, x, y], the first game takes x and the second, after one collision, y. */
  method DuplicateIdScenario(x: string, y: string) returns (first: string, second: string, count: nat)
    requires x != y
    ensures first == x && second == y && count == 2
  {
    var gen := new MockUUIDGenerator([x, x, y]);
    var m := new Manager(gen);
    FirstAbsentIsFirst({}, Candidates(gen.values, 0), 0);
    var r1 := m.CreateGame("Alice", "Bob", 0);
    first := r1.value.id;
    ghost var before := m.games;
    assert before.Keys == {x};
    ghost var cands := Candidates(gen.values, 1);
    assert cands[0] == x && cands[1] == y;
    FirstAbsentIsFirst(before.Keys, cands, 1);
    var r2 := m.CreateGame("Charlie", "Dave", 0);
    second := r2.value.id;
    assert m.games.Keys == {x, y};
    count := |m.games.Keys|;
  }

  /** game/manager_test.go:65-78, for any identifier d: when the script yields only d, the
      second creation fails and leaves the registry as it was. */
  method ExhaustedRetriesScenario(d: string) returns (firstOk: bool, secondOk: bool, count: nat)
    ensures firstOk && !secondOk && count == 1
  {
    var gen := new MockUUIDGenerator([d, d, d, d, d, d]);
    var m := new Manager(gen);
    FirstAbsentIsFirst({}, Candidates(gen.values, 0), 0);
    var r1 := m.CreateGame("Alice", "Bob", 0);
    firstOk := r1.Success?;
    ghost var before := m.games;
    assert before.Keys == {d};
    ghost var cands := Candidates(gen.values, 1);
    assert cands == [d, d, d, d, d];
    assert FirstAbsent(before.Keys, cands) == None;
    var r2 := m.CreateGame("Charlie", "Dave", 0);
    secondOk := r2.Success?;
    assert m.games == before;
    count := |m.games.Keys|;
  }
}

/** The scripted identifier generator of game/uuid_generator.go: a cursor over a fixed list
    of identifiers that yields "" once the list is used up. */
module UuidGen {

  /** The k-th identifier the generator yields when started at the beginning: the scripted
      values in order, then "" forever. */
  function Stream(values: seq<string>, k: nat): string {
    if k < |values| then values[k] else ""
  }

  /** Where the cursor stands after n further calls from position start. */
  function IndexAfter(values: seq<string>, start: nat, n: nat): (i: nat)
    requires start <= |values|
    ensures start <= i <= |values| && i - start <= n
    ensures i < |values| ==> i == start + n
  {
    if start + n <= |values| then start + n else |values|
  }

  /** Calls compose: the n-th call after start yields the (start + n)-th stream element,
      and the cursor after n + 1 calls is one call past the cursor after n. */
  lemma {:induction false} DrawComposes(values: seq<string>, start: nat, n: nat)
    requires start <= |values|
    ensures Stream(values, IndexAfter(values, start, n)) == Stream(values, start + n)
    ensures IndexAfter(values, IndexAfter(values, start, n), 1) == IndexAfter(values, start, n + 1)
  {
  }

  class MockUUIDGenerator {
    const values: seq<string>
    var index: nat

    ghost predicate Valid()
      reads this
    {
      index <= |values|
    }

    /** NewMockUUIDGenerator. */
    constructor (values: seq<string>)
      ensures Valid()
      ensures this.values == values && index == 0
    {
      this.values := values;
      index := 0;
    }

    method Generate() returns (id: string)
      requires Valid()
      modifies this`index
      ensures Valid()
      ensures old(index) < |values| ==> id == values[old(index)] && index == old(index) + 1
      ensures old(index) >= |values| ==> id == "" && index == old(index)
      ensures id == Stream(values, old(index)) && index == IndexAfter(values, old(index), 1)
    {
      if index >= |values| {
        return "";
      }
      id := values[index];
      index := index + 1;
    }
  }

  /** A generator started on ["a", "b"] yields "a", "b", "", "". */
  method ScriptedThenEmpty() returns (outputs: seq<string>)
    ensures outputs == ["a", "b", "", ""]
  {
    var g := new MockUUIDGenerator(["a", "b"]);
    var x1 := g.Generate();
    var x2 := g.Generate();
    var x3 := g.Generate();
    var x4 := g.Generate();
    outputs := [x1, x2, x3, x4];
  }
}

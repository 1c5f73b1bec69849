/**
 * The host ledger's world state as the contract reaches it through
 * `ctx.GetStub()`: a table from key to stored JSON text, read and written
 * one key at a time, and scanned in key order by a range iterator.
 */
module WorldState {
  import opened Wrappers
  import opened KeyOrder
  import opened Assets

  /** The world state of the contract's namespace. */
  class Stub {
    var state: map<string, JsonText>

    constructor (initial: map<string, JsonText>)
      ensures state == initial
    {
      state := initial;
    }

    /** GetState: the stored text, or None (Go's nil) for a key never written or deleted. */
    method GetState(key: string) returns (value: Option<JsonText>)
      ensures value.Some? <==> key in state
      ensures value.Some? ==> value.value == state[key]
    {
      value := if key in state then Some(state[key]) else None;
    }

    /** PutState: writes unconditionally. */
    method PutState(key: string, value: JsonText)
      modifies this
      ensures state == old(state)[key := value]
    {
      state := state[key := value];
    }

    /** DelState: removes the key; a missing key is not an error at this layer. */
    method DelState(key: string)
      modifies this
      ensures state == old(state) - {key}
    {
      state := state - {key};
    }

    /** GetStateByRange("", ""): an iterator over every key of the namespace. */
    method GetStateByRange() returns (it: RangeIterator)
      ensures fresh(it) && it.Valid()
      ensures it.snapshot == state && it.pending == state.Keys
    {
      it := new RangeIterator(state);
    }
  }

  /** A range-scan iterator: the state it scans and the keys it has not yet yielded. */
  class RangeIterator {
    const snapshot: map<string, JsonText>
    var pending: set<string>

    ghost predicate Valid()
      reads this
    {
      pending <= snapshot.Keys
    }

    constructor (snapshot: map<string, JsonText>)
      ensures Valid()
      ensures this.snapshot == snapshot && pending == snapshot.Keys
    {
      this.snapshot := snapshot;
      pending := snapshot.Keys;
    }

    method HasNext() returns (more: bool)
      ensures more <==> pending != {}
    {
      more := pending != {};
    }

    /** Next: yields the least key not yet yielded, with its stored text. */
    method Next() returns (key: string, value: JsonText)
      requires Valid() && pending != {}
      modifies this
      ensures Valid()
      ensures IsLeast(key, old(pending)) && value == snapshot[key]
      ensures pending == old(pending) - {key}
    {
      key := LeastKey(pending);
      value := snapshot[key];
      pending := pending - {key};
    }
  }
}

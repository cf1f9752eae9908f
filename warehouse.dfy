/** The Warehouse state table of data/generated_scripts/packaging/9.py: a
    dictionary over six fixed categories, each initially 0, whose values are
    overwritten one key at a time. */
module Warehouses {
  import opened Wrappers

  type Key = string
  type State = map<Key, int>

  /** The six categories the table is created with. */
  const Categories: set<Key> := {
    "Physical Protection", "Recyclability", "Barrier Protection",
    "Marketing", "Tamper Evidence", "Portability"
  }

  /** The ValueError raised for a key outside the table. */
  datatype Error = InvalidKey(key: Key)

  /** The table a new Warehouse starts with. */
  function InitialState(): (s: State)
    ensures s.Keys == Categories
    ensures forall k :: k in s ==> s[k] == 0
  {
    map k | k in Categories :: 0
  }

  /** update_state on a table value: a point update of an existing key, an
      error for any other key. */
  function Update(s: State, key: Key, value: int): (r: Result<State, Error>)
    ensures r.Success? <==> key in s
    ensures r.Failure? ==> r.error == InvalidKey(key)
    ensures r.Success? ==> r.value.Keys == s.Keys && r.value[key] == value
    ensures r.Success? ==> forall k :: k in s && k != key ==> r.value[k] == s[k]
  {
    if key in s then Success(s[key := value]) else Failure(InvalidKey(key))
  }

  /** Two successive updates of the same key leave the second value. */
  lemma LastWriteWins(s: State, key: Key, v1: int, v2: int)
    requires key in s
    ensures Update(s, key, v1).Success?
    ensures Update(Update(s, key, v1).value, key, v2) == Update(s, key, v2)
  {
    assert s[key := v1][key := v2] == s[key := v2];
  }

  /** The table after a sequence of update_state calls whose ValueErrors the
      caller catches: a failed call leaves the table as it was. */
  function UpdateAll(s: State, updates: seq<(Key, int)>): State
  {
    if updates == [] then s
    else
      var next := match Update(s, updates[0].0, updates[0].1)
                  case Success(t) => t
                  case Failure(_) => s;
      UpdateAll(next, updates[1..])
  }

  /** No sequence of updates adds or removes a key. */
  lemma {:induction false} UpdateAllKeys(s: State, updates: seq<(Key, int)>)
    ensures UpdateAll(s, updates).Keys == s.Keys
  {
    if updates != [] {
      var next := match Update(s, updates[0].0, updates[0].1)
                  case Success(t) => t
                  case Failure(_) => s;
      UpdateAllKeys(next, updates[1..]);
    }
  }

  /** A key outside the table is never given a value, whatever is written. */
  lemma {:induction false} UpdateAllRejectsUnknown(s: State, updates: seq<(Key, int)>, k: Key)
    requires k !in s
    ensures k !in UpdateAll(s, updates)
  {
    UpdateAllKeys(s, updates);
  }

  class Warehouse {
    var state: State

    /** The table holds exactly the six categories. */
    ghost predicate Valid()
      reads this
    {
      state.Keys == Categories
    }

    constructor ()
      ensures Valid()
      ensures state == InitialState()
    {
      state := InitialState();
    }

    /** update_state: overwrite the value of an existing key; any other key
        raises ValueError and changes nothing. */
    method UpdateState(key: Key, value: int) returns (r: Outcome<Error>)
      modifies this
      ensures r.Pass? <==> key in old(state)
      ensures r.Fail? ==> r.error == InvalidKey(key) && state == old(state)
      ensures r.Pass? ==> state == Update(old(state), key, value).value
      ensures state.Keys == old(state).Keys
      ensures old(Valid()) ==> Valid()
      ensures old(Valid()) ==> (r.Pass? <==> key in Categories)
    {
      if key in state {
        state := state[key := value];
        r := Pass;
      } else {
        r := Fail(InvalidKey(key));
      }
    }
  }
}

/** Remembering a value per key from one interval to the next. */
module DeltaTracking {
  import opened Basics

  class DeltaTracker {
    var current: map<string, nat>
    var previous: map<string, nat>

    constructor ()
      ensures current == map[] && previous == map[]
    {
      current, previous := map[], map[];
    }

    method Set(id: string, value: nat)
      modifies this`current
      ensures current == old(current)[id := value]
    {
      current := current[id := value];
    }

    function Previous(id: string): Option<nat>
      reads this
    {
      if id in previous then Some(previous[id]) else None
    }

    /** The wrapped difference to the previous interval; zero without both values. */
    function Delta(id: string): (d: nat)
      reads this
      ensures d < U64
      ensures id in current && id in previous ==> (previous[id] + d) % U64 == current[id] % U64
      ensures id !in current || id !in previous ==> d == 0
    {
      if id in current && id in previous then (current[id] - previous[id]) % U64 else 0
    }

    /** All deltas of the interval, one per current key. */
    method Deltas() returns (deltas: map<string, nat>)
      ensures deltas.Keys == current.Keys
      ensures forall id :: id in deltas ==> deltas[id] == Delta(id)
    {
      deltas := map[];
      var todo := current.Keys;
      while todo != {}
        invariant todo <= current.Keys && deltas.Keys == current.Keys - todo
        invariant forall id :: id in deltas ==> deltas[id] == Delta(id)
        decreases todo
      {
        var id :| id in todo;
        deltas := deltas[id := if id in previous then (current[id] - previous[id]) % U64 else 0];
        todo := todo - {id};
      }
    }

    method Cycle()
      modifies this
      ensures previous == old(current) && current == map[]
    {
      previous := current;
      current := map[];
    }
  }
}

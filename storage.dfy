/** The agent store (server/storage.ts): `DatabaseStorage` over an in-memory picture of the
    `agents` table, a map from primary key to row, plus the serial counter that hands out ids. */
module Storage {
  import opened Wrappers
  import opened Schema

  /** Every row sits under its own id, and every id was handed out by the serial, which starts at
      1 and has reached `next`. */
  predicate WellKeyed(rows: map<int, Agent>, next: int) {
    forall id :: id in rows ==> rows[id].id == id && 1 <= id < next
  }

  /** `SELECT * FROM agents ORDER BY id`, restricted to the ids in `[lo, hi)`. */
  function Listing(rows: map<int, Agent>, lo: int, hi: int): seq<Agent>
    decreases hi - lo
  {
    if lo >= hi then []
    else (if lo in rows then [rows[lo]] else []) + Listing(rows, lo + 1, hi)
  }

  /** The listing holds exactly the rows with ids in `[lo, hi)`, in strictly ascending id order. */
  lemma {:induction false} ListingSpec(rows: map<int, Agent>, lo: int, hi: int)
    requires forall id :: id in rows ==> rows[id].id == id
    ensures forall i :: 0 <= i < |Listing(rows, lo, hi)| ==>
      var a := Listing(rows, lo, hi)[i]; lo <= a.id < hi && a.id in rows && rows[a.id] == a
    ensures forall i, j :: 0 <= i < j < |Listing(rows, lo, hi)| ==>
      Listing(rows, lo, hi)[i].id < Listing(rows, lo, hi)[j].id
    ensures forall id :: id in rows && lo <= id < hi ==> rows[id] in Listing(rows, lo, hi)
    decreases hi - lo
  {
    if lo < hi {
      ListingSpec(rows, lo + 1, hi);
      var head := if lo in rows then [rows[lo]] else [];
      var tail := Listing(rows, lo + 1, hi);
      var r := head + tail;
      assert Listing(rows, lo, hi) == r;
      forall i | 0 <= i < |r|
        ensures lo <= r[i].id < hi && r[i].id in rows && rows[r[i].id] == r[i]
      {
        if i >= |head| { assert r[i] == tail[i - |head|]; }
      }
      forall i, j | 0 <= i < j < |r|
        ensures r[i].id < r[j].id
      {
        assert r[j] == tail[j - |head|];
        if i >= |head| { assert r[i] == tail[i - |head|]; }
      }
      forall id | id in rows && lo <= id < hi
        ensures rows[id] in r
      {
        if id == lo { assert rows[id] in head; } else { assert rows[id] in tail; }
      }
    }
  }

  class DatabaseStorage {
    /** The table's rows by primary key. */
    var rows: map<int, Agent>
    /** The next value of the `id` serial. */
    var nextId: int

    ghost predicate Valid()
      reads this
    {
      nextId >= 1 && WellKeyed(rows, nextId)
    }

    /** An empty table whose serial has not been used. */
    constructor ()
      ensures Valid() && rows == map[] && nextId == 1
    {
      rows := map[];
      nextId := 1;
    }

    /** `getAgents`: every stored row, strictly ascending by id. */
    method GetAgents() returns (list: seq<Agent>)
      requires Valid()
      ensures forall i :: 0 <= i < |list| ==> list[i].id in rows && rows[list[i].id] == list[i]
      ensures forall i, j :: 0 <= i < j < |list| ==> list[i].id < list[j].id
      ensures forall id :: id in rows ==> rows[id] in list
    {
      list := Listing(rows, 1, nextId);
      ListingSpec(rows, 1, nextId);
    }

    /** `getAgent`: the row under `id`, or nothing when no row has that id. */
    method GetAgent(id: int) returns (agent: Option<Agent>)
      requires Valid()
      ensures agent.Some? <==> id in rows
      ensures agent.Some? ==> agent.value == rows[id] && agent.value.id == id
    {
      agent := if id in rows then Some(rows[id]) else None;
    }

    /** `createAgent`: inserts `x` under the next serial value, stamping `lastActive` with `now`,
        and returns the stored row. The new id differs from every id already in the table. */
    method CreateAgent(x: InsertAgent, now: Timestamp) returns (agent: Agent)
      requires Valid()
      modifies this
      ensures Valid()
      ensures agent == NewRow(x, old(nextId), now)
      ensures agent.id !in old(rows)
      ensures rows == old(rows)[agent.id := agent]
      ensures |rows| == |old(rows)| + 1
      ensures nextId == old(nextId) + 1
    {
      agent := NewRow(x, nextId, now);
      rows := rows[nextId := agent];
      nextId := nextId + 1;
    }

    /** `updateAgent`: merges `updates` into the row under `id` and returns the updated row; when
        no row has that id, returns nothing and changes nothing. No other row changes. */
    method UpdateAgent(id: int, updates: AgentPatch) returns (agent: Option<Agent>)
      requires Valid()
      modifies this
      ensures Valid() && nextId == old(nextId)
      ensures id !in old(rows) ==> agent == None && rows == old(rows)
      ensures id in old(rows) ==>
                agent == Some(Merge(old(rows)[id], updates)) && rows == old(rows)[id := agent.value]
    {
      if id in rows {
        var updated := Merge(rows[id], updates);
        rows := rows[id := updated];
        agent := Some(updated);
      } else {
        agent := None;
      }
    }
  }
}

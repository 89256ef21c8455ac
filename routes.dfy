/** The agent registry's request handling (server/routes.ts): how the four handlers turn the
    validator's verdict and the store's answer into a status code and a JSON body, and the
    one-time seeding of an empty table at start-up. */
module Routes {
  import opened Wrappers
  import opened Schema
  import opened Storage
  import Text

  /** One issue the request validator reports: where in the payload, and what is wrong. */
  datatype Violation = Violation(path: seq<string>, message: string)

  /** The validator's verdict on a request body: the normalized payload, or its issues in the
      order it found them (there is always a first one). */
  datatype Validation<T> = Parsed(payload: T) | Rejected(first: Violation, rest: seq<Violation>)

  /** The JSON bodies the handlers send. */
  datatype Body =
    | AgentList(agents: seq<Agent>)
    | AgentBody(agent: Agent)
    | NotFound(message: string)
    | BadRequest(message: string, field: string)

  datatype Response = Response(status: int, body: Body)

  const AgentNotFound := "Agent not found"

  /** The 400 response to a rejected body: only the first issue is reported, its message and its
      path joined with '.'. */
  function RejectionResponse(first: Violation, rest: seq<Violation>): (r: Response)
    ensures r.status == 400 && r.body.BadRequest? && r.body.message == first.message
    ensures first.path == [] ==> r.body.field == ""
    ensures |first.path| == 1 ==> r.body.field == first.path[0]
  {
    Response(400, BadRequest(first.message, Text.Join(first.path, ".")))
  }

  /** The `field` of a 400 response names the offending key: splitting it at '.' gives back the
      issue's path whenever the path is non-empty and no key in it contains a '.'. */
  lemma FieldRecoversPath(first: Violation, rest: seq<Violation>)
    requires first.path != [] && forall k :: 0 <= k < |first.path| ==> '.' !in first.path[k]
    ensures Text.Split(RejectionResponse(first, rest).body.field, '.') == first.path
  {
    Text.SplitJoin(first.path, '.');
  }

  /** The answer to a lookup: 200 with the row, or 404 when the store has none. */
  function FoundOrNotFound(agent: Option<Agent>): (r: Response)
    ensures agent.Some? <==> r.status == 200
    ensures agent.Some? ==> r.body == AgentBody(agent.value)
    ensures agent.None? ==> r == Response(404, NotFound(AgentNotFound))
  {
    match agent
    case Some(a) => Response(200, AgentBody(a))
    case None => Response(404, NotFound(AgentNotFound))
  }

  /** GET /api/agents: 200 with every stored agent, ascending by id. */
  method ListAgents(store: DatabaseStorage) returns (resp: Response)
    requires store.Valid()
    ensures resp.status == 200 && resp.body.AgentList?
    ensures var list := resp.body.agents;
      && (forall i :: 0 <= i < |list| ==> list[i].id in store.rows && store.rows[list[i].id] == list[i])
      && (forall i, j :: 0 <= i < j < |list| ==> list[i].id < list[j].id)
      && (forall id :: id in store.rows ==> store.rows[id] in list)
  {
    var list := store.GetAgents();
    resp := Response(200, AgentList(list));
  }

  /** GET /api/agents/:id, with the path parameter already read as a number. */
  method GetAgentById(store: DatabaseStorage, id: int) returns (resp: Response)
    requires store.Valid()
    ensures id in store.rows ==> resp == Response(200, AgentBody(store.rows[id]))
    ensures id !in store.rows ==> resp == Response(404, NotFound(AgentNotFound))
  {
    var agent := store.GetAgent(id);
    resp := FoundOrNotFound(agent);
  }

  /** POST /api/agents: a rejected body is answered 400 and the table is not touched; a parsed
      one is inserted and answered 201 with the stored row. */
  method CreateAgentHandler(store: DatabaseStorage, input: Validation<InsertAgent>, now: Timestamp)
    returns (resp: Response)
    requires store.Valid()
    modifies store
    ensures store.Valid()
    ensures input.Rejected? ==>
              resp == RejectionResponse(input.first, input.rest)
              && store.rows == old(store.rows) && store.nextId == old(store.nextId)
    ensures input.Parsed? ==>
              var created := NewRow(input.payload, old(store.nextId), now);
              && resp == Response(201, AgentBody(created))
              && created.id !in old(store.rows)
              && store.rows == old(store.rows)[created.id := created]
              && store.nextId == old(store.nextId) + 1
  {
    match input
    case Rejected(first, rest) =>
      resp := RejectionResponse(first, rest);
    case Parsed(payload) =>
      var agent := store.CreateAgent(payload, now);
      resp := Response(201, AgentBody(agent));
  }

  /** PUT /api/agents/:id: the body is validated before the store is consulted. A rejected body
      is answered 400 and changes nothing; a parsed one for a missing id is answered 404 and
      changes nothing; otherwise the row is merged and answered 200. */
  method UpdateAgentHandler(store: DatabaseStorage, id: int, input: Validation<AgentPatch>)
    returns (resp: Response)
    requires store.Valid()
    modifies store
    ensures store.Valid() && store.nextId == old(store.nextId)
    ensures input.Rejected? ==>
              resp == RejectionResponse(input.first, input.rest) && store.rows == old(store.rows)
    ensures input.Parsed? && id !in old(store.rows) ==>
              resp == Response(404, NotFound(AgentNotFound)) && store.rows == old(store.rows)
    ensures input.Parsed? && id in old(store.rows) ==>
              var updated := Merge(old(store.rows)[id], input.payload);
              resp == Response(200, AgentBody(updated)) && store.rows == old(store.rows)[id := updated]
  {
    match input
    case Rejected(first, rest) =>
      resp := RejectionResponse(first, rest);
    case Parsed(payload) =>
      var agent := store.UpdateAgent(id, payload);
      resp := FoundOrNotFound(agent);
  }

  /** A created agent can be read back unchanged under the id it was given. */
  method CreateThenGet(store: DatabaseStorage, x: InsertAgent, now: Timestamp)
    returns (created: Agent, fetched: Option<Agent>)
    requires store.Valid()
    modifies store
    ensures store.Valid()
    ensures fetched == Some(created)
  {
    created := store.CreateAgent(x, now);
    fetched := store.GetAgent(created.id);
  }

  // ---------------------------------------------------------------- seeding

  function Seed(name: string, status: string, task: Option<string>, capabilities: seq<string>,
                progress: int, avatar: string): InsertAgent
  {
    InsertAgent(name, status, Given(task), capabilities, Given(Some(progress)), Given(Some(avatar)))
  }

  /** The five example agents inserted into an empty table. Their names are distinct, each has
      at least one capability, and each progress lies in 0..100. */
  function Seeds(): (r: seq<InsertAgent>)
    ensures |r| == 5
    ensures forall i, j :: 0 <= i < j < |r| ==> r[i].name != r[j].name
    ensures forall i :: 0 <= i < |r| ==>
              && r[i].capabilities != []
              && r[i].progress.Given? && r[i].progress.value.Some?
              && 0 <= r[i].progress.value.value <= 100
  {
    [ Seed("Omni-1", "working", Some("Analyzing financial reports for Q4"),
           ["Data Analysis", "Financial Modeling", "Reporting"], 65, "https://i.pravatar.cc/150?u=omni"),
      Seed("Coder-X", "idle", None,
           ["Python", "JavaScript", "Code Review"], 0, "https://i.pravatar.cc/150?u=coder"),
      Seed("SupportBot-Alpha", "working", Some("Resolving ticket #49221 - Payment Issue"),
           ["Customer Support", "Ticketing", "Email"], 32, "https://i.pravatar.cc/150?u=support"),
      Seed("Vision-Pro", "offline", None,
           ["Image Recognition", "Video Processing"], 0, "https://i.pravatar.cc/150?u=vision"),
      Seed("Writer-Gpt", "working", Some("Drafting blog post: 'The Future of AI'"),
           ["Content Writing", "SEO", "Editing"], 88, "https://i.pravatar.cc/150?u=writer") ]
  }

  /** The table after inserting `xs` one after another, the k-th under serial `next + k` at
      instant `stamps[k]`. */
  function InsertAll(rows: map<int, Agent>, next: int, xs: seq<InsertAgent>, stamps: seq<Timestamp>)
    : map<int, Agent>
    requires |stamps| == |xs|
    decreases |xs|
  {
    if xs == [] then rows
    else
      var k := |xs| - 1;
      InsertAll(rows, next, xs[..k], stamps[..k])[next + k := NewRow(xs[k], next + k, stamps[k])]
  }

  /** Inserting into a well-keyed table keeps every old row, puts the k-th payload under
      `next + k`, and adds no other key. */
  lemma {:induction false} InsertAllSpec(rows: map<int, Agent>, next: int, xs: seq<InsertAgent>,
                                         stamps: seq<Timestamp>)
    requires |stamps| == |xs| && next >= 1 && WellKeyed(rows, next)
    ensures var t := InsertAll(rows, next, xs, stamps);
      && WellKeyed(t, next + |xs|)
      && (forall id :: id in t <==> id in rows || next <= id < next + |xs|)
      && (forall id :: id in rows ==> t[id] == rows[id])
      && (forall k :: 0 <= k < |xs| ==> t[next + k] == NewRow(xs[k], next + k, stamps[k]))
    decreases |xs|
  {
    if xs != [] {
      var k := |xs| - 1;
      InsertAllSpec(rows, next, xs[..k], stamps[..k]);
      forall j | 0 <= j < k
        ensures xs[..k][j] == xs[j] && stamps[..k][j] == stamps[j]
      {
      }
    }
  }

  /** What seeding leaves in the table: the five seeds inserted in order when it was empty,
      the table untouched otherwise. */
  function SeedResult(rows: map<int, Agent>, next: int, stamps: seq<Timestamp>): map<int, Agent>
    requires |stamps| == |Seeds()|
  {
    if rows == map[] then InsertAll(rows, next, Seeds(), stamps) else rows
  }

  /** Seeding inserts exactly the five seeds, the k-th under id `next + k`, if and only if the
      table was empty; on a table with any row it inserts nothing. */
  lemma SeedIffEmpty(rows: map<int, Agent>, next: int, stamps: seq<Timestamp>)
    requires |stamps| == |Seeds()| && next >= 1 && WellKeyed(rows, next)
    ensures rows != map[] ==> SeedResult(rows, next, stamps) == rows
    ensures rows == map[] ==>
              var t := SeedResult(rows, next, stamps);
              && (forall id :: id in t <==> next <= id < next + 5)
              && (forall k :: 0 <= k < 5 ==> t[next + k] == NewRow(Seeds()[k], next + k, stamps[k]))
  {
    InsertAllSpec(rows, next, Seeds(), stamps);
  }

  /** Running the seeding a second time, whatever the serial and the clock, inserts nothing. */
  lemma SeedTwice(rows: map<int, Agent>, next: int, stamps: seq<Timestamp>,
                  next2: int, stamps2: seq<Timestamp>)
    requires |stamps| == |Seeds()| && |stamps2| == |Seeds()| && next >= 1 && WellKeyed(rows, next)
    ensures SeedResult(SeedResult(rows, next, stamps), next2, stamps2) == SeedResult(rows, next, stamps)
  {
    InsertAllSpec(rows, next, Seeds(), stamps);
    if rows == map[] {
      assert next in SeedResult(rows, next, stamps);
    }
  }

  /** The `for` loop of `seedDatabase`: creates the agents of `xs` in order, the k-th stamped
      `stamps[k]`. */
  method CreateEach(store: DatabaseStorage, xs: seq<InsertAgent>, stamps: seq<Timestamp>)
    requires store.Valid() && |stamps| == |xs|
    modifies store
    ensures store.Valid()
    ensures store.rows == InsertAll(old(store.rows), old(store.nextId), xs, stamps)
    ensures store.nextId == old(store.nextId) + |xs|
  {
    for i := 0 to |xs|
      invariant store.Valid()
      invariant store.nextId == old(store.nextId) + i
      invariant store.rows == InsertAll(old(store.rows), old(store.nextId), xs[..i], stamps[..i])
    {
      var created := store.CreateAgent(xs[i], stamps[i]);
      assert xs[..i + 1][..i] == xs[..i];
      assert stamps[..i + 1][..i] == stamps[..i];
    }
    assert xs[..|xs|] == xs && stamps[..|xs|] == stamps;
  }

  /** `seedDatabase`: when the listing is empty, creates the five seeds one at a time, the k-th
      stamped `stamps[k]`; otherwise does nothing. */
  method SeedDatabase(store: DatabaseStorage, stamps: seq<Timestamp>)
    requires store.Valid() && |stamps| == |Seeds()|
    modifies store
    ensures store.Valid()
    ensures store.rows == SeedResult(old(store.rows), old(store.nextId), stamps)
    ensures store.nextId == if old(store.rows) == map[] then old(store.nextId) + 5 else old(store.nextId)
  {
    var existing := store.GetAgents();
    if |existing| == 0 {
      assert forall id :: id !in store.rows;
      assert store.rows == map[];
      CreateEach(store, Seeds(), stamps);
    } else {
      assert existing[0].id in store.rows;
    }
  }
}

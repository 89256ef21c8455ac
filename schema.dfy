/** The `agents` table (shared/schema.ts): the stored row, the insert payload derived from it, and
    the partial payload an update takes. */
module Schema {
  import opened Wrappers

  /** An instant, as the database's `timestamp` column holds it. */
  type Timestamp = int

  /** A stored row. `name`, `status` and `capabilities` are NOT NULL columns, so they are plain
      values; `currentTask`, `progress`, `avatar` and `lastActive` are nullable. The primary key
      `id` is a serial the table assigns. */
  datatype Agent = Agent(
    id: int,
    name: string,
    status: string,
    currentTask: Option<string>,
    capabilities: seq<string>,
    progress: Option<int>,
    avatar: Option<string>,
    lastActive: Option<Timestamp>)

  /** `InsertAgent`: the insert schema with `id` and `lastActive` omitted, so a caller can set
      neither. Nullable columns may be left out (`Omitted`) or given, possibly as null. */
  datatype InsertAgent = InsertAgent(
    name: string,
    status: string,
    currentTask: Omit<Option<string>>,
    capabilities: seq<string>,
    progress: Omit<Option<int>>,
    avatar: Omit<Option<string>>)

  /** `Partial<InsertAgent>`: every insertable column may be left out. */
  datatype AgentPatch = AgentPatch(
    name: Omit<string>,
    status: Omit<string>,
    currentTask: Omit<Option<string>>,
    capabilities: Omit<seq<string>>,
    progress: Omit<Option<int>>,
    avatar: Omit<Option<string>>)

  /** `progress || 0`: a null progress counts as 0. */
  function ProgressOrZero(progress: Option<int>): (p: int)
    ensures progress.None? ==> p == 0
    ensures progress.Some? ==> p == progress.value
  {
    match progress
    case Some(v) => v
    case None => 0
  }

  const NoChanges := AgentPatch(Omitted, Omitted, Omitted, Omitted, Omitted, Omitted)

  /** The row the table stores when `x` is inserted under serial `id` at instant `now`: the
      payload's columns, and the column defaults for what it leaves out (null for `currentTask`
      and `avatar`, 0 for `progress`, the insertion instant for `lastActive`). */
  function NewRow(x: InsertAgent, id: int, now: Timestamp): (a: Agent)
    ensures a.id == id && a.lastActive == Some(now)
    ensures a.name == x.name && a.status == x.status && a.capabilities == x.capabilities
    ensures x.progress.Omitted? ==> a.progress == Some(0)
    ensures x.progress.Given? ==> a.progress == x.progress.value
    ensures x.currentTask.Omitted? ==> a.currentTask == None
    ensures x.currentTask.Given? ==> a.currentTask == x.currentTask.value
    ensures x.avatar.Omitted? ==> a.avatar == None
    ensures x.avatar.Given? ==> a.avatar == x.avatar.value
  {
    Agent(id, x.name, x.status, x.currentTask.GetOr(None), x.capabilities,
          x.progress.GetOr(Some(0)), x.avatar.GetOr(None), Some(now))
  }

  /** `UPDATE agents SET <p>`: the columns present in `p` take its values, every other column
      (among them `id` and `lastActive`, which `p` cannot name) keeps its value. */
  function Merge(a: Agent, p: AgentPatch): (b: Agent)
    ensures b.id == a.id && b.lastActive == a.lastActive
    ensures p.name.Given? ==> b.name == p.name.value
    ensures p.name.Omitted? ==> b.name == a.name
    ensures p.status.Given? ==> b.status == p.status.value
    ensures p.status.Omitted? ==> b.status == a.status
    ensures p.currentTask.Given? ==> b.currentTask == p.currentTask.value
    ensures p.currentTask.Omitted? ==> b.currentTask == a.currentTask
    ensures p.capabilities.Given? ==> b.capabilities == p.capabilities.value
    ensures p.capabilities.Omitted? ==> b.capabilities == a.capabilities
    ensures p.progress.Given? ==> b.progress == p.progress.value
    ensures p.progress.Omitted? ==> b.progress == a.progress
    ensures p.avatar.Given? ==> b.avatar == p.avatar.value
    ensures p.avatar.Omitted? ==> b.avatar == a.avatar
  {
    a.(name := p.name.GetOr(a.name),
       status := p.status.GetOr(a.status),
       currentTask := p.currentTask.GetOr(a.currentTask),
       capabilities := p.capabilities.GetOr(a.capabilities),
       progress := p.progress.GetOr(a.progress),
       avatar := p.avatar.GetOr(a.avatar))
  }

  /** Two updates in a row: `q`'s columns win over `p`'s. */
  function Then(p: AgentPatch, q: AgentPatch): AgentPatch {
    AgentPatch(
      if q.name.Given? then q.name else p.name,
      if q.status.Given? then q.status else p.status,
      if q.currentTask.Given? then q.currentTask else p.currentTask,
      if q.capabilities.Given? then q.capabilities else p.capabilities,
      if q.progress.Given? then q.progress else p.progress,
      if q.avatar.Given? then q.avatar else p.avatar)
  }

  /** An update that names no column changes nothing. */
  lemma MergeNoChanges(a: Agent)
    ensures Merge(a, NoChanges) == a
  {
  }

  /** Applying the same update twice is applying it once. */
  lemma MergeIdempotent(a: Agent, p: AgentPatch)
    ensures Merge(Merge(a, p), p) == Merge(a, p)
  {
  }

  /** Two consecutive updates are one update with the columns of both, the later one winning. */
  lemma MergeThen(a: Agent, p: AgentPatch, q: AgentPatch)
    ensures Merge(Merge(a, p), q) == Merge(a, Then(p, q))
  {
  }
}

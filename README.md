# Agent registry of the agent dashboard, in Dafny

This project models the core of the agent dashboard: the registry of AI agents and the small
pieces of client logic around it.

- **The `agents` table** (`Schema`): the stored row, the insert payload with `id` and `lastActive`
  omitted, and the partial payload an update takes. Omitted columns get their defaults: null,
  progress 0, and the insertion instant for `lastActive`.
- **The store** (`Storage.DatabaseStorage`): a class over a map from primary key to row and the
  serial counter that hands out ids.
  - `GetAgents` lists every row in ascending id order.
  - `GetAgent` returns the row or nothing.
  - `CreateAgent` inserts under a fresh id.
  - `UpdateAgent` merges a partial payload into one row, or returns nothing for a missing id.
- **Request handling** (`Routes`): the four handlers map the validator's verdict and the store's
  answer to 200, 201, 400 or 404 and a body. The 400 body carries the first violation's message
  and its path joined with '.'.
- **Seeding** (`Routes`): `seedDatabase` inserts five fixed agents one at a time, but only when
  the table is empty.
- **Capability parsing** (`CreateAgentDialog`): the text is split at commas, each piece is
  trimmed, and empty pieces are dropped. The submit payload always has status "idle" and
  progress 0.
- **Dashboard figures** (`StatsOverview`): total, working and idle counts, and the mean progress
  rounded half up.
- **Agent card** (`AgentCard`): the status fallback and its configuration lookup, the two-letter
  initials, the zero-padded id, and the task, progress, avatar and last-active fallbacks.
- **Chat hook** (`UseChat.ChatState`): the message list, the tracked task and the loading flag.
  - `sendMessage` appends the user's message and then one reply or one failure message.
  - A server snapshot sets the status of the messages whose task it names.
  - A poll tick updates a task's messages and stops on a terminal status.
  - `clearMessages` empties the list, and `retryMessage` resends a user message.

The JavaScript string operations the code relies on are modelled in `Text`:
- `split` on one character, `join` and `trim` (the full ECMAScript whitespace set);
- `toUpperCase` on ASCII letters;
- integer `toString` and `padStart`.

They are proved where the core needs them. For example, splitting a joined list gives back the
list, and trimming is idempotent.

Inputs the code receives from outside become parameters:
- the validator's verdict;
- the instant the database stamps;
- the dispatcher's reply or failure;
- each server-sent state event, as parsed JSON or as unparsable (`StateEvent`);
- the outcome of each poll.

Three behaviours of the code are easy to misread. The model follows the code:
- `capabilities` is a NOT NULL array column without a default, so an insert must supply it.
- `progress` has a default but is nullable. An insert that leaves it out stores 0, and one that
  sends null stores null.
- An empty `currentTask`, which is the dialog's initial value, is falsy, so the card shows the
  placeholder for it as for null.

## Model

| member | source | states |
|---|---|---|
| Wrappers.Omit.GetOr | shared/schema.ts:9-13 | a given value is used, and a left-out one takes the fallback |
| Schema.NewRow | shared/schema.ts:5-16 | the stored row has the assigned id and the creation instant as `lastActive`. It copies name, status and capabilities. Left-out columns get their defaults: null task and avatar, progress 0 |
| Schema.Merge | server/storage.ts:31-37 | exactly the columns present in the patch change. Every other column, including `id` and `lastActive`, keeps its value |
| Schema.ProgressOrZero | client/src/components/AgentCard.tsx:116 | `progress \|\| 0`, used by the progress bar and the dashboard mean: a null progress counts as 0, and a present one as itself |
| Schema.MergeNoChanges | server/storage.ts:31-37 | a patch naming no column leaves the row as it is (see Left out for the driver's behaviour on an empty `set`) |
| Schema.MergeIdempotent | server/storage.ts:31-37 | applying the same update twice equals applying it once |
| Schema.MergeThen | server/storage.ts:31-37 | two updates in a row equal one update with both patches' columns, the later winning |
| Storage.Listing | server/storage.ts:17-19 | the rows with ids in a range, in id order; its contract is stated by `Storage.ListingSpec` |
| Storage.ListingSpec | server/storage.ts:17-19 | the id-range scan holds exactly the stored rows in range, strictly ascending by id |
| Storage.DatabaseStorage.constructor | server/storage.ts:40 | a fresh store is empty, with the serial at 1 and the invariant established |
| Storage.DatabaseStorage.GetAgents | server/storage.ts:17-19 | every listed row is stored under its id, the list is strictly ascending by id, and every stored row is listed |
| Storage.DatabaseStorage.GetAgent | server/storage.ts:21-24 | returns a row iff one has that id, and the row returned is the one stored there |
| Storage.DatabaseStorage.CreateAgent | server/storage.ts:26-29 | the returned row is the stored one. Its id is fresh (not among the old keys), the table grows by exactly that row, and the serial advances by one |
| Storage.DatabaseStorage.UpdateAgent | server/storage.ts:31-37 | for a missing id: nothing is returned and no row changes. Otherwise the merged row is returned, replaces only that row, and every other row is unchanged |
| Routes.RejectionResponse | server/routes.ts:31-36 | a rejected body gets 400 with the first violation's message only. An issue at the root (empty path) gets `field` "", and a one-key path gets that key |
| Routes.FieldRecoversPath | server/routes.ts:34 | the `field` of a 400 body split at '.' gives back the violation's path, when the path is non-empty and its keys have no '.' |
| Routes.FoundOrNotFound | server/routes.ts:19-22 | 200 iff the store found the agent, with the agent as body. Otherwise 404 with "Agent not found" |
| Routes.ListAgents | server/routes.ts:12-15 | 200 with every stored agent, strictly ascending by id, and nothing else |
| Routes.GetAgentById | server/routes.ts:17-23 | 200 with the stored row for a known id, and 404 "Agent not found" for an unknown one |
| Routes.CreateAgentHandler | server/routes.ts:25-39 | a rejected body: 400 from the first violation, store untouched. A parsed body: 201 with the new row, which is fresh and added to the table |
| Routes.UpdateAgentHandler | server/routes.ts:41-58 | validation happens before the store is used. A rejected body: 400 with no change. A missing id: 404 with no change. Otherwise 200 with the merged row, and only that row changes |
| Routes.CreateThenGet | server/storage.ts:21-29 | reading a just-created agent by its id returns that same record |
| Routes.Seeds | server/routes.ts:68-109 | there are five seeds, with distinct names, non-empty capability lists and a progress within 0..100 |
| Routes.InsertAll | server/routes.ts:111-113 | the table after inserting the payloads one by one under consecutive serials; its contract is stated by `Routes.InsertAllSpec` |
| Routes.InsertAllSpec | server/routes.ts:111-113 | inserting payloads in order puts the k-th under `next + k`, keeps every old row, adds no other key and keeps the table well keyed |
| Routes.SeedResult | server/routes.ts:65-116 | the table after seeding: the seeds inserted when it was empty, the table unchanged otherwise; its contract is stated by `Routes.SeedIffEmpty` and `Routes.SeedTwice` |
| Routes.SeedIffEmpty | server/routes.ts:65-116 | seeding inserts exactly the five seeds, in order, iff the table was empty; on a table with a row it inserts nothing |
| Routes.SeedTwice | server/routes.ts:65-116 | a second seeding, whatever serial and clock it sees, changes nothing |
| Routes.CreateEach | server/routes.ts:111-113 | the loop leaves the table as the ordered insertion of all payloads, and the serial advanced by their number |
| Routes.SeedDatabase | server/routes.ts:65-116 | the table afterwards is the seeding result of the table before, and the serial advances by 5 iff the table was empty |
| Text.TrimStart | client/src/hooks/use-chat.ts:94 | the first half of `trim`: never longer than its input; its contract is stated by `Text.TrimStartSpec` |
| Text.TrimEnd | client/src/hooks/use-chat.ts:94 | the second half of `trim`: never longer than its input; its contract is stated by `Text.TrimEndSpec` |
| Text.Trim | client/src/hooks/use-chat.ts:94 | `trim`, never longer than its input; its contract is stated by `Text.TrimSpec`, `Text.TrimEmptyIff` and `Text.TrimIdempotent` |
| Text.TrimStartSpec | client/src/hooks/use-chat.ts:94 | the leading-trimmed string is the suffix after a run of whitespace, and it starts with a non-space |
| Text.TrimEndSpec | client/src/hooks/use-chat.ts:94 | the trailing-trimmed string is the prefix before a run of whitespace, and it ends with a non-space |
| Text.TrimSpec | client/src/components/CreateAgentDialog.tsx:56 | `trim` returns the slice between a leading and a trailing run of whitespace, and neither of its ends is whitespace |
| Text.TrimEmptyIff | client/src/hooks/use-chat.ts:94 | `trim` gives "" exactly for an all-whitespace string |
| Text.TrimChars | client/src/components/CreateAgentDialog.tsx:56 | every character of a trimmed string occurs in the original |
| Text.TrimTrimmed | client/src/components/CreateAgentDialog.tsx:56 | a string with no whitespace at its ends is its own trim |
| Text.TrimIdempotent | client/src/components/CreateAgentDialog.tsx:56 | trimming twice equals trimming once |
| Text.Split | client/src/components/CreateAgentDialog.tsx:56 | `split` always yields at least one piece, and no piece contains the separator |
| Text.SplitCount | client/src/components/CreateAgentDialog.tsx:56 | there is one piece more than there are separators |
| Text.JoinSplit | client/src/components/CreateAgentDialog.tsx:56 | joining the pieces with the separator gives back the string |
| Text.Join | server/routes.ts:34 | `join`: the parts with the separator between neighbours; its contract is stated by `Text.JoinSplit` and `Text.SplitJoin` |
| Text.SplitJoin | server/routes.ts:34 | splitting a join of separator-free parts gives back the parts |
| Text.ToUpper | client/src/components/AgentCard.tsx:74 | same length, each character upper-cased |
| Text.NatToString | client/src/components/AgentCard.tsx:80 | a non-empty numeral of decimal digits, with no leading zero except for 0 itself |
| Text.IntToString | client/src/components/AgentCard.tsx:113 | the decimal numeral of an integer, with '-' before a negative one; the numeral's digits are stated by `Text.NatToString` |
| Text.ParseNatToString | client/src/components/AgentCard.tsx:80 | the numeral reads back as the number |
| Text.NatToStringLength | client/src/components/AgentCard.tsx:80 | the numeral has at most k digits iff the number is below 10^k |
| Text.PadStart | client/src/components/AgentCard.tsx:80 | the result has length max(width, \|s\|), ends with `s`, and is padded in front only with the fill character |
| CreateAgentDialog.TrimEach | client/src/components/CreateAgentDialog.tsx:56 | each piece trimmed, in place |
| CreateAgentDialog.NonEmpty | client/src/components/CreateAgentDialog.tsx:56 | `filter(Boolean)` keeps only non-empty strings taken from the input, in input order. It drops exactly the empty ones: the result is the input's length less its number of empty strings, and the input itself when none is empty |
| CreateAgentDialog.NonEmptyKeeps | client/src/components/CreateAgentDialog.tsx:56 | no non-empty string is filtered out |
| CreateAgentDialog.ParseCapabilities | client/src/components/CreateAgentDialog.tsx:55-57 | an absent or empty field gives []. Otherwise the capabilities are taken in order from the trimmed pieces, one for each non-empty piece, repeats included, so at most commas+1 |
| CreateAgentDialog.CapabilitiesWellFormed | client/src/components/CreateAgentDialog.tsx:56 | every parsed capability is non-empty, has no whitespace at either end and contains no ',' |
| CreateAgentDialog.ParseJoined | client/src/components/CreateAgentDialog.tsx:55-57 | well-formed capabilities typed with commas between them parse back to exactly that list |
| CreateAgentDialog.SubmitPayload | client/src/components/CreateAgentDialog.tsx:59-65 | the payload has status "idle" and progress 0, the parsed capabilities, and the form's name, task and avatar |
| CreateAgentDialog.SubmitIgnoresOverriddenFields | client/src/components/CreateAgentDialog.tsx:61-64 | the form's own status, progress and capabilities never reach the payload |
| CreateAgentDialog.SubmittedAgentIsIdle | client/src/components/CreateAgentDialog.tsx:63-64 | an agent created from the dialog is stored idle with progress 0 |
| StatsOverview.WithStatus | client/src/components/StatsOverview.tsx:11-12 | the filter keeps exactly the agents with that status, each as often as it occurs |
| StatsOverview.DistinctStatusesFit | client/src/components/StatsOverview.tsx:11-12 | the counts for two different statuses add up to at most the total |
| StatsOverview.ProgressSum | client/src/components/StatsOverview.tsx:14 | the sum of the progress values, null counting as 0; its contract is stated by `StatsOverview.ProgressSumBounds` |
| StatsOverview.ProgressSumBounds | client/src/components/StatsOverview.tsx:14 | progress values in 0..100 sum to between 0 and 100 times the count |
| StatsOverview.RoundedMean | client/src/components/StatsOverview.tsx:14 | `Math.round(s / n)`: the result r satisfies r - 1/2 <= s/n < r + 1/2 |
| StatsOverview.ComputeStats | client/src/components/StatsOverview.tsx:10-15 | total is the length, and active and idle are the 'working' and 'idle' counts, which add up to at most the total. The mean is 0 for no agents and otherwise the half-up rounded mean, null counting as 0 |
| StatsOverview.AvgProgressInRange | client/src/components/StatsOverview.tsx:13-15 | the mean of progress values in 0..100 lies in 0..100 |
| StatsOverview.RoundedMeanInRange | client/src/components/StatsOverview.tsx:14 | a rounded mean of a sum within 0..100n lies in 0..100 |
| AgentCard.StatusKey | client/src/components/AgentCard.tsx:57 | an empty status falls back to 'idle', and the key is never empty |
| AgentCard.StatusLabel | client/src/components/AgentCard.tsx:21-54 | exactly the four configured statuses have a configuration, with labels Active, Idle, Offline and Error |
| AgentCard.Initials | client/src/components/AgentCard.tsx:74 | the first min(2, \|name\|) characters, upper-cased |
| AgentCard.DisplayId | client/src/components/AgentCard.tsx:80 | the id's numeral left-padded with '0' to length max(4, digits) |
| AgentCard.DisplayIdSmall | client/src/components/AgentCard.tsx:80 | an id below 10000 shows as exactly four digits that read back as the id |
| AgentCard.DisplayIdLarge | client/src/components/AgentCard.tsx:80 | an id of 10000 or more shows unpadded |
| AgentCard.TaskLine | client/src/components/AgentCard.tsx:105 | a null or empty task shows "No active task assigned.", and the line is never empty |
| AgentCard.ProgressLabel | client/src/components/AgentCard.tsx:113 | the label ends in '%' after the numeral, and it is just "%" for a null progress |
| AgentCard.AvatarImage | client/src/components/AgentCard.tsx:72 | an image source exists iff the avatar is non-null and non-empty, and it is the avatar itself |
| AgentCard.LastActiveLine | client/src/components/AgentCard.tsx:99 | a null `lastActive` shows 'Never', and otherwise a time relative to it |
| AgentCard.Card | client/src/components/AgentCard.tsx:56-140 | a card exists iff the status key is configured. It has that status's label and a top bar that pulses iff the agent is working. Every other field is the one its fallback gives: the name and its initials, the padded id, the last-active line, the task line, the progress label, the bar at `progress \|\| 0` and the avatar image. So it shows at most two initials, an id of at least four characters and a non-empty task line. There is one badge per capability, in stored order |
| AgentCard.EmptyStatusShownIdle | client/src/components/AgentCard.tsx:57-58 | an agent with an empty status is shown as idle, not pulsing |
| UseChat.UserMessage | client/src/hooks/use-chat.ts:96-101 | a user-role message with the given text, no task id and no status |
| UseChat.ReplyText | client/src/hooks/use-chat.ts:125 | `response`, else `message`, else the processing placeholder (first truthy), never empty |
| UseChat.ReplyMessage | client/src/hooks/use-chat.ts:122-146 | a delivered reply: an assistant message with the reply's text and task id, 'pending' iff the task id is truthy and 'completed' otherwise. A failure: a system message with the failure text and status 'failed' |
| UseChat.SetTaskStatus | client/src/hooks/use-chat.ts:58-62 | same length and order. Only the status of the messages whose task id equals the entry's changes, and it becomes the entry's status |
| UseChat.StatusAfter | client/src/hooks/use-chat.ts:57-63 | the status a message ends with: the last naming entry's status, or its own when none names it; its contract is stated by `UseChat.ApplyTasks`, `UseChat.StatusAfterForgets` and `UseChat.StatusAfterUnnamed` |
| UseChat.ApplyTasks | client/src/hooks/use-chat.ts:57-63 | same length. Only statuses change, each to the status of the last entry naming that message's task. A message whose task no entry names is unchanged |
| UseChat.StatusAfterForgets | client/src/hooks/use-chat.ts:57-63 | once an entry names the task, the message's earlier status no longer matters |
| UseChat.StatusAfterUnnamed | client/src/hooks/use-chat.ts:57-63 | when no entry names the task, the status is kept |
| UseChat.LastTaskWins | client/src/hooks/use-chat.ts:57-63 | a message named by the last entry ends with that entry's status |
| UseChat.EntryWithoutIdHitsUntracked | client/src/hooks/use-chat.ts:59 | an entry without an id sets the status of every message without a task id |
| UseChat.ApplyStateEvent | client/src/hooks/use-chat.ts:46-68 | only statuses change. A snapshot with tasks gives each message the status of the last entry naming its task. An unparsable event, or one without tasks, changes nothing |
| UseChat.SnapshotIdempotent | client/src/hooks/use-chat.ts:55-64 | receiving the same snapshot twice equals receiving it once |
| UseChat.IsTerminal | client/src/hooks/use-chat.ts:181 | 'completed' and 'failed' are the terminal statuses; its contract is stated by `UseChat.ChatState.PollTick` |
| UseChat.ApplyPoll | client/src/hooks/use-chat.ts:168-178 | messages of other tasks are unchanged. The task's messages take its status, and the result is appended after the marker only when there is one |
| UseChat.PollWithoutResultIdempotent | client/src/hooks/use-chat.ts:168-178 | a poll reporting no result is idempotent |
| UseChat.FirstWithId | client/src/hooks/use-chat.ts:205 | the index of the first message with that id, or the length when none has it |
| UseChat.AppendSendable | client/src/hooks/use-chat.ts:94-103 | appending a non-blank user message and a reply keeps every user message non-blank and without a task id |
| UseChat.ChatState.constructor | client/src/hooks/use-chat.ts:27-30 | no messages, no tracked task, not loading |
| UseChat.ChatState.SendMessage | client/src/hooks/use-chat.ts:93-151 | blank text after trimming changes nothing. Otherwise exactly the user's message and then one reply or failure message are appended. A reply naming a task makes it the tracked task and starts its polling. `isLoading` ends false on every path |
| UseChat.ChatState.OnStateEvent | client/src/hooks/use-chat.ts:46-68 | the messages become the snapshot's update of the old ones. Tracked task and loading flag are unchanged |
| UseChat.ChatState.PollTick | client/src/hooks/use-chat.ts:157-188 | polling stops iff the answer is not ok or the status is 'completed' or 'failed'. The tracked task is cleared exactly in the terminal case. An error changes nothing, and a task record updates its messages |
| UseChat.ChatState.ClearMessages | client/src/hooks/use-chat.ts:198-201 | no messages and no tracked task |
| UseChat.ChatState.RetryMessage | client/src/hooks/use-chat.ts:204-209 | resends iff the first message with that id is the user's, and then behaves as sending its text: the user message and the reply are appended, `isLoading` ends false, and a reply naming a task makes it the tracked and polled task. Otherwise nothing changes and nothing is polled |

## Left out

- The database driver. `Number(req.params.id)` on a non-numeric id gives NaN, and what the
  driver does with it is not modelled: ids are integers.
- Schema.MergeNoChanges: the query builder refuses an update whose `set` names no column, which
  the model does not capture. It treats such an update as leaving the row as it is.
- The validator's internals and the inference of the insert schema. The handlers take the
  verdict, a payload or a non-empty ordered list of violations, as a parameter. Stripping the
  dialog's extra `capabilitiesString` key from the payload is part of that validation.
- Errors that are not validation errors (the rethrow in the POST and PUT handlers), the Express
  wiring of `registerRoutes`, the JSON serialization of bodies, and the start-up log line.
- All network calls: the dispatcher webhook POST, the task endpoint fetch, and
  client/src/hooks/use-agents.ts. Their outcomes are parameters: `DispatchOutcome` and
  `PollOutcome`.
- UseChat.ApplyTasks: the `id` and `status` of each task entry in a snapshot are taken to be
  strings or absent. A JSON `null` or numeric id is not modelled: `===` tells `null` from a
  missing key and `42` from `"42"`, while `TaskEntry` has only a present string or `None`.
- UseChat.ReplyText: the reply's `response`, `message` and `taskId` are taken to be strings when
  present. Non-string JSON values, and a body that is JSON but not an object, are not modelled.
- The EventSource connection, including `isConnected`, reconnecting after 5 s and the cleanup on
  unmount. Also the 2 s poll interval and the 5 min cap on polling. Timing is not modelled; only
  the updates and the stop rule are.
- The query-cache invalidation on every server-sent event. It affects the agent list fetch, which
  is not part of this model.
- `Date.now()`, `new Date()` and date-fns `formatDistanceToNow`. Instants are integer parameters,
  and `AgentCard.LastActiveLine` yields the instant, not its rendering.
- `JSON.stringify(task.result, null, 2)`. The result arrives as already rendered text in
  `TaskSnapshot.result`, which is `None` for a falsy result.
- StatsOverview.RoundedMean: floating-point division is replaced by the exact half-up rounding of
  the rational mean. The two agree for the small integer sums involved.
- Text.ToUpper: upper-cases ASCII letters only. Other letters, and case mappings that change the
  length, are not modelled.
- AgentCard.Initials: strings are sequences of Unicode scalar values, while `substring` counts
  UTF-16 code units. A name starting with a character outside the Basic Multilingual Plane differs.
- React state semantics. Each method applies its updates at once, in program order. Interleavings
  of concurrent sends, polls and events are not modelled, and neither is `retryMessage` reading
  a stale message list.
- The page and chat components (client/src/pages/Dashboard.tsx, client/src/components/Chat.tsx),
  the dialog's form state and toasts, the colours, icons and animations.
- The relay and dispatcher servers are not part of this model.

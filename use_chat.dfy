/** The chat hook's state (client/src/hooks/use-chat.ts): the message list, the task being
    tracked and the loading flag, and how sending, server-sent state snapshots, task polling,
    clearing and retrying change them. The network answers are parameters. */
module UseChat {
  import opened Wrappers
  import opened Schema
  import Text

  datatype Role = User | Assistant | System

  /** A chat message. `taskId` and `status` are optional keys; `status` holds whatever status
      string the server last reported. */
  datatype Message = Message(
    id: string,
    role: Role,
    content: string,
    timestamp: Timestamp,
    taskId: Option<string>,
    status: Option<string>)

  /** The assistant's stand-in text when the reply carries none ("processing the request..."). */
  const PendingText := "מעבד את הבקשה..."
  /** The system message shown when sending fails ("error sending the message, try again"). */
  const SendFailedText := "שגיאה בשליחת ההודעה. נסה שוב."
  /** What separates a message from a task result appended to it. */
  const ResultMarker := "\n\n✅ "

  /** The JSON the dispatcher webhook answers with; absent keys are `None`. */
  datatype Reply = Reply(response: Option<string>, message: Option<string>, taskId: Option<string>)

  /** How the POST to the dispatcher ended: a parsed reply, or a failure (network error, non-2xx
      status, or a body that is not JSON). */
  datatype DispatchOutcome = Delivered(data: Reply) | DispatchFailed

  /** The message appended for the user's own text. */
  function UserMessage(content: string, at: Timestamp): (m: Message)
    ensures m.role == User && m.content == content && m.taskId == None && m.status == None
  {
    Message("user-" + Text.IntToString(at), User, content, at, None, None)
  }

  /** `data.response || data.message || <pending text>`: the first truthy of the two, never empty. */
  function ReplyText(data: Reply): (r: string)
    ensures r != ""
    ensures Truthy(data.response) ==> r == data.response.value
    ensures !Truthy(data.response) && Truthy(data.message) ==> r == data.message.value
    ensures !Truthy(data.response) && !Truthy(data.message) ==> r == PendingText
  {
    if Truthy(data.response) then data.response.value
    else if Truthy(data.message) then data.message.value
    else PendingText
  }

  /** The message appended once the dispatcher has answered: the assistant's reply, pending
      exactly when it names a task, or a failed system message. */
  function ReplyMessage(outcome: DispatchOutcome, at: Timestamp): (m: Message)
    ensures outcome.Delivered? ==>
              && m.role == Assistant && m.content == ReplyText(outcome.data)
              && m.taskId == outcome.data.taskId
              && (m.status == Some("pending") <==> Truthy(outcome.data.taskId))
              && (!Truthy(outcome.data.taskId) ==> m.status == Some("completed"))
    ensures outcome.DispatchFailed? ==>
              m.role == System && m.status == Some("failed") && m.content == SendFailedText && m.taskId == None
  {
    match outcome
    case Delivered(data) =>
      Message("assistant-" + Text.IntToString(at), Assistant, ReplyText(data), at, data.taskId,
              Some(if Truthy(data.taskId) then "pending" else "completed"))
    case DispatchFailed =>
      Message("error-" + Text.IntToString(at), System, SendFailedText, at, None, Some("failed"))
  }

  // ---------------------------------------------------------------- state snapshots

  /** One entry of a snapshot's `tasks` array; either key may be missing. */
  datatype TaskEntry = TaskEntry(id: Option<string>, status: Option<string>)

  /** What one server-sent event carries: not JSON, JSON without a (truthy) `tasks` array, or
      the tasks. */
  datatype StateEvent = Malformed | Snapshot(tasks: Option<seq<TaskEntry>>)

  /** `prev.map(msg => msg.taskId === id ? { ...msg, status } : msg)`: only the status of the
      messages whose task id equals `id` (both missing counts as equal) changes. */
  function SetTaskStatus(ms: seq<Message>, id: Option<string>, status: Option<string>): (r: seq<Message>)
    ensures |r| == |ms|
    ensures forall i :: 0 <= i < |ms| ==> r[i] == ms[i].(status := r[i].status)
    ensures forall i :: 0 <= i < |ms| && ms[i].taskId == id ==> r[i].status == status
    ensures forall i :: 0 <= i < |ms| && ms[i].taskId != id ==> r[i] == ms[i]
  {
    if ms == [] then []
    else
      [if ms[0].taskId == id then ms[0].(status := status) else ms[0]] + SetTaskStatus(ms[1..], id, status)
  }

  /** The status a message with task id `id` and status `s` ends with after the tasks are applied
      one by one: the status of the last task naming `id`, or `s` when none does. */
  function StatusAfter(tasks: seq<TaskEntry>, id: Option<string>, s: Option<string>): Option<string>
    decreases |tasks|
  {
    if tasks == [] then s else StatusAfter(tasks[1..], id, if tasks[0].id == id then tasks[0].status else s)
  }

  /** `data.tasks.forEach(task => setMessages(...))`: the tasks applied in order. */
  function ApplyTasks(ms: seq<Message>, tasks: seq<TaskEntry>): (r: seq<Message>)
    ensures |r| == |ms|
    ensures forall i :: 0 <= i < |ms| ==> r[i] == ms[i].(status := r[i].status)
    ensures forall i :: 0 <= i < |ms| ==> r[i].status == StatusAfter(tasks, ms[i].taskId, ms[i].status)
    ensures forall i :: 0 <= i < |ms| && (forall t :: t in tasks ==> t.id != ms[i].taskId) ==> r[i] == ms[i]
    decreases |tasks|
  {
    if tasks == [] then ms else ApplyTasks(SetTaskStatus(ms, tasks[0].id, tasks[0].status), tasks[1..])
  }

  /** Once some task names `id`, the starting status no longer matters. */
  lemma {:induction false} StatusAfterForgets(tasks: seq<TaskEntry>, id: Option<string>, s1: Option<string>, s2: Option<string>, k: int)
    requires 0 <= k < |tasks| && tasks[k].id == id
    ensures StatusAfter(tasks, id, s1) == StatusAfter(tasks, id, s2)
    decreases |tasks|
  {
    if tasks[0].id != id {
      StatusAfterForgets(tasks[1..], id, s1, s2, k - 1);
    }
  }

  /** When no task names `id`, the status is kept. */
  lemma {:induction false} StatusAfterUnnamed(tasks: seq<TaskEntry>, id: Option<string>, s: Option<string>)
    requires forall k :: 0 <= k < |tasks| ==> tasks[k].id != id
    ensures StatusAfter(tasks, id, s) == s
    decreases |tasks|
  {
    if tasks != [] {
      StatusAfterUnnamed(tasks[1..], id, s);
    }
  }

  /** Receiving the same snapshot twice leaves the messages as receiving it once. */
  lemma SnapshotIdempotent(ms: seq<Message>, event: StateEvent)
    ensures ApplyStateEvent(ApplyStateEvent(ms, event), event) == ApplyStateEvent(ms, event)
  {
    if event.Snapshot? && event.tasks.Some? {
      var tasks := event.tasks.value;
      var r1 := ApplyTasks(ms, tasks);
      var r2 := ApplyTasks(r1, tasks);
      forall i | 0 <= i < |ms|
        ensures r2[i] == r1[i]
      {
        var id := ms[i].taskId;
        if k :| 0 <= k < |tasks| && tasks[k].id == id {
          StatusAfterForgets(tasks, id, r1[i].status, ms[i].status, k);
        } else {
          StatusAfterUnnamed(tasks, id, r1[i].status);
        }
      }
    }
  }

  /** A message whose task is the last one named in the snapshot takes that task's status. */
  lemma {:induction false} LastTaskWins(ms: seq<Message>, tasks: seq<TaskEntry>, i: int)
    requires tasks != [] && 0 <= i < |ms| && ms[i].taskId == tasks[|tasks| - 1].id
    ensures ApplyTasks(ms, tasks)[i].status == tasks[|tasks| - 1].status
    decreases |tasks|
  {
    var next := SetTaskStatus(ms, tasks[0].id, tasks[0].status);
    if |tasks| > 1 {
      assert next[i].taskId == ms[i].taskId;
      LastTaskWins(next, tasks[1..], i);
    }
  }

  /** A snapshot entry without an `id` matches every message that has no task id (the user's own
      messages and the failure messages among them) and sets their status. */
  lemma EntryWithoutIdHitsUntracked(ms: seq<Message>, status: Option<string>, i: int)
    requires 0 <= i < |ms| && ms[i].taskId == None
    ensures ApplyTasks(ms, [TaskEntry(None, status)])[i].status == status
  {
    LastTaskWins(ms, [TaskEntry(None, status)], i);
  }

  function ApplyStateEvent(ms: seq<Message>, event: StateEvent): (r: seq<Message>)
    ensures |r| == |ms|
    ensures forall i :: 0 <= i < |ms| ==> r[i] == ms[i].(status := r[i].status)
    ensures event.Malformed? || event.tasks.None? ==> r == ms
    ensures event.Snapshot? && event.tasks.Some? ==>
              forall i :: 0 <= i < |ms| ==> r[i].status == StatusAfter(event.tasks.value, ms[i].taskId, ms[i].status)
  {
    if event.Snapshot? && event.tasks.Some? then ApplyTasks(ms, event.tasks.value) else ms
  }

  // ---------------------------------------------------------------- task polling

  /** The task record a poll returns: its status, and its result rendered as JSON text when the
      result is truthy (`None` for a missing, null or otherwise falsy result). */
  datatype TaskSnapshot = TaskSnapshot(status: Option<string>, result: Option<string>)

  /** How one poll of the task endpoint ended: a non-2xx answer, a task record, or an error
      (network failure or a body that is not JSON). */
  datatype PollOutcome = NotOk | Fetched(task: TaskSnapshot) | PollError

  /** `status === 'completed' || status === 'failed'` */
  predicate IsTerminal(status: Option<string>) {
    status == Some("completed") || status == Some("failed")
  }

  /** The poll's update: the messages of task `taskId` take the task's status and, when it has
      a result, get the result appended after the marker; every other message is unchanged. */
  function ApplyPoll(ms: seq<Message>, taskId: string, task: TaskSnapshot): (r: seq<Message>)
    ensures |r| == |ms|
    ensures forall i :: 0 <= i < |ms| && ms[i].taskId != Some(taskId) ==> r[i] == ms[i]
    ensures forall i :: 0 <= i < |ms| && ms[i].taskId == Some(taskId) ==>
              && r[i] == ms[i].(status := task.status, content := r[i].content)
              && (task.result.None? ==> r[i].content == ms[i].content)
              && (task.result.Some? ==> r[i].content == ms[i].content + ResultMarker + task.result.value)
  {
    if ms == [] then []
    else
      var m := ms[0];
      var updated :=
        if m.taskId == Some(taskId) then
          m.(status := task.status,
             content := if task.result.Some? then m.content + ResultMarker + task.result.value else m.content)
        else m;
      [updated] + ApplyPoll(ms[1..], taskId, task)
  }

  /** A poll that reports a status but no result is idempotent. */
  lemma PollWithoutResultIdempotent(ms: seq<Message>, taskId: string, status: Option<string>)
    ensures var task := TaskSnapshot(status, None);
            ApplyPoll(ApplyPoll(ms, taskId, task), taskId, task) == ApplyPoll(ms, taskId, task)
  {
    var task := TaskSnapshot(status, None);
    var r1 := ApplyPoll(ms, taskId, task);
    var r2 := ApplyPoll(r1, taskId, task);
    forall i | 0 <= i < |ms|
      ensures r2[i] == r1[i]
    {
      if ms[i].taskId == Some(taskId) {
        assert r1[i].taskId == Some(taskId);
      } else {
        assert r1[i] == ms[i];
      }
    }
  }

  // ---------------------------------------------------------------- lookup

  /** The index `messages.find(m => m.id === id)` stops at: the first message with that id, or
      the length of the list when there is none. */
  function FirstWithId(ms: seq<Message>, id: string): (k: nat)
    ensures k <= |ms|
    ensures forall j :: 0 <= j < k ==> ms[j].id != id
    ensures k < |ms| ==> ms[k].id == id
  {
    if ms == [] then 0 else if ms[0].id == id then 0 else 1 + FirstWithId(ms[1..], id)
  }

  // ---------------------------------------------------------------- the hook

  /** Every user message has non-blank text and no task id: `sendMessage` only appends such
      messages, and no update touches a user message's text. */
  predicate UserMessagesSendable(ms: seq<Message>) {
    forall i :: 0 <= i < |ms| && ms[i].role == User ==> Text.Trim(ms[i].content) != "" && ms[i].taskId == None
  }

  /** Appending a sendable user message and a reply keeps every user message sendable. */
  lemma AppendSendable(ms: seq<Message>, user: Message, reply: Message)
    requires UserMessagesSendable(ms)
    requires user.role == User && Text.Trim(user.content) != "" && user.taskId == None
    requires reply.role != User
    ensures UserMessagesSendable(ms + [user] + [reply])
  {
    var r := ms + [user] + [reply];
    forall i | 0 <= i < |r| && r[i].role == User
      ensures Text.Trim(r[i].content) != "" && r[i].taskId == None
    {
      if i < |ms| {
        assert r[i] == ms[i];
      }
    }
  }

  class ChatState {
    var messages: seq<Message>
    var currentTaskId: Option<string>
    var isLoading: bool

    ghost predicate Valid()
      reads this
    {
      UserMessagesSendable(messages)
    }

    constructor ()
      ensures Valid() && messages == [] && currentTaskId == None && !isLoading
    {
      messages := [];
      currentTaskId := None;
      isLoading := false;
    }

    /** `sendMessage`: blank text changes nothing. Otherwise the user's message is appended
        (sent at `sentAt`) before the dispatcher's answer is handled, then exactly one reply or
        failure message (at `repliedAt`); a reply naming a task makes it the tracked task and
        starts its polling (`polled`); the loading flag ends false. */
    method SendMessage(content: string, sentAt: Timestamp, outcome: DispatchOutcome, repliedAt: Timestamp)
      returns (sent: bool, polled: Option<string>)
      requires Valid()
      modifies this
      ensures Valid()
      ensures sent <==> Text.Trim(content) != ""
      ensures !sent ==> messages == old(messages) && currentTaskId == old(currentTaskId)
                        && isLoading == old(isLoading) && polled == None
      ensures sent ==> messages == old(messages) + [UserMessage(content, sentAt), ReplyMessage(outcome, repliedAt)]
      ensures sent ==> !isLoading
      ensures sent && outcome.Delivered? && Truthy(outcome.data.taskId) ==>
                currentTaskId == outcome.data.taskId && polled == outcome.data.taskId
      ensures sent && !(outcome.Delivered? && Truthy(outcome.data.taskId)) ==>
                currentTaskId == old(currentTaskId) && polled == None
    {
      if Text.Trim(content) == "" {
        return false, None;
      }
      var user, reply := UserMessage(content, sentAt), ReplyMessage(outcome, repliedAt);
      AppendSendable(messages, user, reply);
      messages := messages + [user];
      isLoading := true;
      messages := messages + [reply];
      polled := None;
      if outcome.Delivered? && Truthy(outcome.data.taskId) {
        currentTaskId := outcome.data.taskId;
        polled := outcome.data.taskId;
      }
      isLoading := false;
      sent := true;
    }

    /** The server-sent event handler: a snapshot's tasks set the status of their messages;
        nothing else changes. */
    method OnStateEvent(event: StateEvent)
      requires Valid()
      modifies this
      ensures Valid()
      ensures messages == ApplyStateEvent(old(messages), event)
      ensures currentTaskId == old(currentTaskId) && isLoading == old(isLoading)
    {
      messages := ApplyStateEvent(messages, event);
      forall i | 0 <= i < |messages| && messages[i].role == User
        ensures Text.Trim(messages[i].content) != "" && messages[i].taskId == None
      {
        assert messages[i] == old(messages)[i].(status := messages[i].status);
      }
    }

    /** One tick of `trackTask`'s polling of `taskId`. A non-2xx answer stops the polling and
        changes nothing; an error changes nothing and polling goes on; a task record updates its
        messages, and polling stops, clearing the tracked task, exactly when its status is
        terminal. */
    method PollTick(taskId: string, outcome: PollOutcome) returns (stop: bool)
      requires Valid()
      modifies this
      ensures Valid() && isLoading == old(isLoading)
      ensures stop <==> outcome.NotOk? || (outcome.Fetched? && IsTerminal(outcome.task.status))
      ensures outcome.Fetched? ==> messages == ApplyPoll(old(messages), taskId, outcome.task)
      ensures !outcome.Fetched? ==> messages == old(messages)
      ensures outcome.Fetched? && IsTerminal(outcome.task.status) ==> currentTaskId == None
      ensures !(outcome.Fetched? && IsTerminal(outcome.task.status)) ==> currentTaskId == old(currentTaskId)
    {
      match outcome
      case NotOk =>
        stop := true;
      case PollError =>
        stop := false;
      case Fetched(task) =>
        messages := ApplyPoll(messages, taskId, task);
        stop := IsTerminal(task.status);
        if stop {
          currentTaskId := None;
        }
    }

    /** `clearMessages`: no messages and no tracked task. */
    method ClearMessages()
      requires Valid()
      modifies this
      ensures Valid()
      ensures messages == [] && currentTaskId == None && isLoading == old(isLoading)
    {
      messages := [];
      currentTaskId := None;
    }

    /** `retryMessage`: resends the text of the first message with id `messageId` when that
        message is the user's; otherwise nothing happens. */
    method RetryMessage(messageId: string, sentAt: Timestamp, outcome: DispatchOutcome, repliedAt: Timestamp)
      returns (resent: bool, polled: Option<string>)
      requires Valid()
      modifies this
      ensures Valid()
      ensures var k := FirstWithId(old(messages), messageId);
              resent <==> k < |old(messages)| && old(messages)[k].role == User
      ensures resent ==>
                var original := old(messages)[FirstWithId(old(messages), messageId)];
                messages == old(messages) + [UserMessage(original.content, sentAt), ReplyMessage(outcome, repliedAt)]
      ensures resent ==> !isLoading
      ensures resent && outcome.Delivered? && Truthy(outcome.data.taskId) ==>
                currentTaskId == outcome.data.taskId && polled == outcome.data.taskId
      ensures resent && !(outcome.Delivered? && Truthy(outcome.data.taskId)) ==>
                currentTaskId == old(currentTaskId) && polled == None
      ensures !resent ==>
                messages == old(messages) && currentTaskId == old(currentTaskId) && isLoading == old(isLoading)
                && polled == None
    {
      var k := FirstWithId(messages, messageId);
      if k < |messages| && messages[k].role == User {
        var sent;
        sent, polled := SendMessage(messages[k].content, sentAt, outcome, repliedAt);
        resent := true;
      } else {
        resent, polled := false, None;
      }
    }
  }
}

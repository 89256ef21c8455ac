/** What an agent's card shows (client/src/components/AgentCard.tsx): the status key, the avatar
    initials, the zero-padded id, and the fallbacks for a missing task, progress, avatar and
    last-active time. */
module AgentCard {
  import opened Wrappers
  import opened Schema
  import Text

  const NoTaskText := "No active task assigned."

  /** `agent.status || 'idle'`: the status key, which is never empty. */
  function StatusKey(status: string): (r: string)
    ensures r != ""
    ensures status != "" ==> r == status
    ensures status == "" ==> r == "idle"
  {
    if status == "" then "idle" else status
  }

  /** The label `statusConfig` has for a status key; a key outside the four configured ones has
      no entry, and rendering the card then fails on the missing configuration. */
  function StatusLabel(key: string): (r: Option<string>)
    ensures r.Some? <==> key == "working" || key == "idle" || key == "offline" || key == "error"
    ensures key == "working" ==> r == Some("Active")
    ensures key == "idle" ==> r == Some("Idle")
    ensures key == "offline" ==> r == Some("Offline")
    ensures key == "error" ==> r == Some("Error")
  {
    if key == "working" then Some("Active")
    else if key == "idle" then Some("Idle")
    else if key == "offline" then Some("Offline")
    else if key == "error" then Some("Error")
    else None
  }

  /** `agent.name.substring(0, 2).toUpperCase()`: the first two characters (fewer for a shorter
      name), upper-cased. */
  function Initials(name: string): (r: string)
    ensures |r| == if |name| < 2 then |name| else 2
    ensures forall k :: 0 <= k < |r| ==> r[k] == Text.UpperChar(name[k])
  {
    Text.ToUpper(name[..if |name| < 2 then |name| else 2])
  }

  /** `agent.id.toString().padStart(4, '0')`: the id's numeral, left-padded with '0' to four
      characters; a longer numeral is shown as it is. */
  function DisplayId(id: int): (r: string)
    ensures var digits := Text.IntToString(id);
      && |r| == (if |digits| >= 4 then |digits| else 4)
      && r[|r| - |digits|..] == digits
      && (forall k :: 0 <= k < |r| - |digits| ==> r[k] == '0')
  {
    Text.PadStart(Text.IntToString(id), 4, '0')
  }

  /** An id below 10000 is shown as exactly four digits, which read back as the id. */
  lemma DisplayIdSmall(id: int)
    requires 0 <= id < 10000
    ensures |DisplayId(id)| == 4
    ensures Text.AllDigits(DisplayId(id)) && Text.ParseDigits(DisplayId(id)) == id
  {
    var digits := Text.NatToString(id);
    Text.NatToStringLength(id, 4);
    var r := DisplayId(id);
    var zeros := r[..|r| - |digits|];
    assert r == zeros + digits;
    Text.ParseLeadingZeros(zeros, digits);
    Text.ParseNatToString(id);
  }

  /** An id of 10000 or more is shown unpadded. */
  lemma DisplayIdLarge(id: int)
    requires id >= 10000
    ensures DisplayId(id) == Text.IntToString(id)
  {
    Text.NatToStringLength(id, 4);
  }

  /** `agent.currentTask || "No active task assigned."`: a null or empty task shows the
      placeholder, so the task line is never empty. */
  function TaskLine(task: Option<string>): (r: string)
    ensures r != ""
    ensures Truthy(task) ==> r == task.value
    ensures !Truthy(task) ==> r == NoTaskText
  {
    if Truthy(task) then task.value else NoTaskText
  }

  /** `{agent.progress}%`: the progress label; a null progress renders as nothing before the '%'. */
  function ProgressLabel(progress: Option<int>): (r: string)
    ensures r != [] && r[|r| - 1] == '%'
    ensures progress.None? ==> r == "%"
    ensures progress.Some? ==> r[..|r| - 1] == Text.IntToString(progress.value)
  {
    match progress
    case Some(p) => Text.IntToString(p) + "%"
    case None => "%"
  }

  /** `agent.avatar || undefined`: the image source; a null or empty avatar gives none, and the
      initials are shown instead. */
  function AvatarImage(avatar: Option<string>): (r: Option<string>)
    ensures r.Some? <==> Truthy(avatar)
    ensures r.Some? ==> r == avatar
  {
    if Truthy(avatar) then avatar else None
  }

  /** The "Current Status" time: a relative time from `lastActive`, or "Never" when it is null. */
  datatype LastSeen = Never | Since(instant: Timestamp)

  function LastActiveLine(lastActive: Option<Timestamp>): (r: LastSeen)
    ensures lastActive.None? <==> r == Never
    ensures lastActive.Some? ==> r == Since(lastActive.value)
  {
    match lastActive
    case Some(t) => Since(t)
    case None => Never
  }

  /** Everything the card shows for one agent. */
  datatype CardView = CardView(
    statusLabel: string,
    pulsing: bool,
    initials: string,
    name: string,
    displayId: string,
    lastActive: LastSeen,
    task: string,
    progressLabel: string,
    progressBar: int,
    avatar: Option<string>,
    badges: seq<string>)

  /** The card for `agent`, or `None` when its status has no configuration. A card shows its
      status's label, a top bar that pulses exactly when the agent is working, the name and its
      initials, the padded id, the last-active line, the task line, the progress label and bar,
      the avatar image, and one badge per capability in stored order. */
  function Card(agent: Agent): (v: Option<CardView>)
    ensures v.Some? <==> StatusLabel(StatusKey(agent.status)).Some?
    ensures v.Some? ==>
              && v.value.statusLabel == StatusLabel(StatusKey(agent.status)).value
              && (v.value.pulsing <==> agent.status == "working")
              && v.value.name == agent.name
              && v.value.initials == Initials(agent.name)
              && v.value.displayId == DisplayId(agent.id)
              && v.value.lastActive == LastActiveLine(agent.lastActive)
              && v.value.task == TaskLine(agent.currentTask)
              && v.value.progressLabel == ProgressLabel(agent.progress)
              && v.value.progressBar == ProgressOrZero(agent.progress)
              && v.value.avatar == AvatarImage(agent.avatar)
              && v.value.badges == agent.capabilities
    ensures v.Some? ==>
              && |v.value.initials| <= 2 && |v.value.initials| <= |agent.name|
              && |v.value.displayId| >= 4
              && v.value.task != ""
              && (agent.progress.None? ==> v.value.progressBar == 0)
              && (v.value.avatar.Some? <==> Truthy(agent.avatar))
  {
    var key := StatusKey(agent.status);
    match StatusLabel(key)
    case None => None
    case Some(text) =>
      Some(CardView(text, key == "working", Initials(agent.name), agent.name, DisplayId(agent.id),
                    LastActiveLine(agent.lastActive), TaskLine(agent.currentTask),
                    ProgressLabel(agent.progress), ProgressOrZero(agent.progress),
                    AvatarImage(agent.avatar), agent.capabilities))
  }

  /** An agent with an empty status is shown as idle. */
  lemma EmptyStatusShownIdle(agent: Agent)
    requires agent.status == ""
    ensures Card(agent).Some? && Card(agent).value.statusLabel == "Idle" && !Card(agent).value.pulsing
  {
  }
}

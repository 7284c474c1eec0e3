/**
 The Task state a client replica holds, the changes published for it, and the ordered
 ingestion that applies them (stateIngestionTask.ts).  Fields whose contents the protocol
 only copies are strings.
 */
module TaskCopies {
  import opened Prelude

  datatype MessageId = MessageId(name: string)

  datatype MessagePart = Text(text: string) | Rich(content: string)

  datatype ChatItem = ChatItem(messageId: MessageId, parts: seq<MessagePart>, attributes: string)

  datatype Chat = Chat(items: seq<ChatItem>, hasMoreBefore: bool, hasMessages: bool)

  datatype ChatChange =
    | Append(item: ChatItem)
    | Upsert(item: ChatItem)
    | AppendText(messageId: MessageId, text: string)
    | Replace(chat: Chat)

  /** A row summary.  Workspace availability changes without a Task revision. */
  datatype Summary = Summary(taskId: TaskId, workspaceAvailable: bool, text: string)

  datatype HistorySync = HistorySync(generation: nat, status: string)

  datatype RequestScope = ClientRequest(client: ClientId) | TaskRequest(task: TaskId)

  datatype Request = Request(requestId: string, scope: RequestScope, body: string)

  datatype TaskView = TaskView(
    revision: nat,
    summary: Summary,
    activeTurnStartedAt: Option<string>,
    backgroundCommands: string,
    lifecycle: string,
    preparation: string,
    permissionPolicy: string,
    agentConfig: string,
    agentCommands: string,
    sendCapability: string,
    messageQueue: string,
    inputCapabilities: string,
    contextUsage: Option<string>,
    currentPlan: Option<string>,
    chat: Chat,
    historySync: HistorySync,
    pendingRequests: seq<Request>,
    subagents: string)

  /** One published change.  An absent field leaves the copy's value; where the value itself
      is optional, the inner option clears it. */
  datatype TaskChanges = TaskChanges(
    summary: Option<Summary>,
    activeTurnStartedAt: Option<Option<string>>,
    backgroundCommands: Option<string>,
    lifecycle: Option<string>,
    preparation: Option<string>,
    permissionPolicy: Option<string>,
    agentConfig: Option<string>,
    agentCommands: Option<string>,
    sendCapability: Option<string>,
    messageQueue: Option<string>,
    inputCapabilities: Option<string>,
    contextUsage: Option<Option<string>>,
    currentPlan: Option<Option<string>>,
    chat: seq<ChatChange>,
    removed: bool)

  datatype RevisionChanges = RevisionChanges(revision: nat, changes: TaskChanges)

  /** Why a copy can no longer follow its stream. */
  datatype Gap = TaskRevisionGap | MissingChatItem

  datatype Update = Unchanged | Changed(view: TaskView) | ResyncRequired(reason: Gap)

  function Or<T>(change: Option<T>, current: T): T {
    if change.Some? then change.value else current
  }

  // ---------------------------------------------------------------- chat

  function FindMessage(items: seq<ChatItem>, id: MessageId): (r: Option<nat>)
    ensures r.Some? ==> r.value < |items| && items[r.value].messageId == id
    ensures r.Some? ==> forall i :: 0 <= i < r.value ==> items[i].messageId != id
    ensures r.None? ==> forall i :: 0 <= i < |items| ==> items[i].messageId != id
  {
    if items == [] then None
    else if items[0].messageId == id then Some(0)
    else
      var rest := FindMessage(items[1..], id);
      if rest.None? then None else Some(rest.value + 1)
  }

  function AppendTextToParts(parts: seq<MessagePart>, text: string): seq<MessagePart> {
    if parts == [] || !parts[|parts| - 1].Text?
    then parts + [Text(text)]
    else parts[..|parts| - 1] + [Text(parts[|parts| - 1].text + text)]
  }

  function UpsertItem(items: seq<ChatItem>, item: ChatItem): seq<ChatItem> {
    var existing := FindMessage(items, item.messageId);
    if existing.None? then items + [item] else items[existing.value := item]
  }

  function ApplyChatChange(chat: Chat, change: ChatChange): Option<Chat> {
    match change
    case Append(item) => Some(chat.(items := chat.items + [item], hasMessages := true))
    case Upsert(item) => Some(chat.(items := UpsertItem(chat.items, item), hasMessages := true))
    case Replace(replacement) => Some(replacement)
    case AppendText(id, text) =>
      var index := FindMessage(chat.items, id);
      if index.None? then None
      else
        var item := chat.items[index.value];
        var items := chat.items[index.value := item.(parts := AppendTextToParts(item.parts, text))];
        Some(chat.(items := items, hasMessages := chat.hasMessages || |items| > 0))
  }

  function ApplyChat(chat: Chat, changes: seq<ChatChange>): Option<Chat>
    decreases |changes|
  {
    if changes == [] then Some(chat)
    else
      var first := ApplyChatChange(chat, changes[0]);
      if first.None? then None else ApplyChat(first.value, changes[1..])
  }

  function Concat(chunks: seq<string>): string {
    if chunks == [] then "" else chunks[0] + Concat(chunks[1..])
  }

  function TextChunks(id: MessageId, chunks: seq<string>): seq<ChatChange> {
    if chunks == [] then [] else [AppendText(id, chunks[0])] + TextChunks(id, chunks[1..])
  }

  lemma PartsJoin(parts: seq<MessagePart>, first: string, second: string)
    ensures AppendTextToParts(AppendTextToParts(parts, first), second) == AppendTextToParts(parts, first + second)
  {
    var once := AppendTextToParts(parts, first);
    if parts == [] || !parts[|parts| - 1].Text? {
      assert once[..|once| - 1] == parts;
    } else {
      assert once[..|once| - 1] == parts[..|parts| - 1];
      assert parts[|parts| - 1].text + first + second == parts[|parts| - 1].text + (first + second);
    }
  }

  /** Two consecutive chunks of one message read as one. */
  lemma TwoChunksJoin(chat: Chat, id: MessageId, first: string, second: string)
    requires FindMessage(chat.items, id).Some?
    ensures var one := ApplyChatChange(chat, AppendText(id, first));
            one.Some? && ApplyChatChange(one.value, AppendText(id, second))
                         == ApplyChatChange(chat, AppendText(id, first + second))
  {
    var at := FindMessage(chat.items, id).value;
    var one := ApplyChatChange(chat, AppendText(id, first)).value;
    FirstMatchIsUnique(one.items, id, at);
    PartsJoin(chat.items[at].parts, first, second);
    var twice := ApplyChatChange(one, AppendText(id, second)).value;
    var whole := ApplyChatChange(chat, AppendText(id, first + second)).value;
    assert twice.items == whole.items;
  }

  lemma FirstMatchIsUnique(items: seq<ChatItem>, id: MessageId, at: nat)
    requires at < |items| && items[at].messageId == id
    requires forall i :: 0 <= i < at ==> items[i].messageId != id
    ensures FindMessage(items, id) == Some(at)
  {
  }

  /** How streamed text was cut into published chunks never shows in the replica. */
  lemma {:induction false} ChunkingIsInvisible(chat: Chat, id: MessageId, chunks: seq<string>)
    requires chunks != []
    ensures ApplyChat(chat, TextChunks(id, chunks)) == ApplyChatChange(chat, AppendText(id, Concat(chunks)))
    decreases |chunks|
  {
    var rest := chunks[1..];
    var script := TextChunks(id, chunks);
    assert script[0] == AppendText(id, chunks[0]) && script[1..] == TextChunks(id, rest);
    if rest == [] {
      assert chunks[0] + Concat(rest) == chunks[0];
    } else if FindMessage(chat.items, id).Some? {
      TwoChunksJoin(chat, id, chunks[0], Concat(rest));
      ChunkingIsInvisible(ApplyChatChange(chat, AppendText(id, chunks[0])).value, id, rest);
    }
  }

  /** An upsert changes one position at most: it replaces the message in place or adds it last,
      so the order of the other messages and the uniqueness of ids survive. */
  lemma UpsertKeepsOrder(items: seq<ChatItem>, item: ChatItem)
    requires forall i, j :: 0 <= i < j < |items| ==> items[i].messageId != items[j].messageId
    ensures var r := UpsertItem(items, item);
            && (forall i, j :: 0 <= i < j < |r| ==> r[i].messageId != r[j].messageId)
            && (forall i :: 0 <= i < |items| ==> r[i] == if items[i].messageId == item.messageId then item else items[i])
            && |r| == (if FindMessage(items, item.messageId).Some? then |items| else |items| + 1)
            && item in r
  {
    var at := FindMessage(items, item.messageId);
    var r := UpsertItem(items, item);
    if at.Some? {
      assert r[at.value] == item;
    } else {
      assert r[|items|] == item;
    }
  }

  // ---------------------------------------------------------------- whole Task

  /** Every field but the chat takes the change's value when the change carries one. */
  function ApplyFields(view: TaskView, revision: nat, changes: TaskChanges): TaskView {
    view.(
    revision := revision,
    summary := Or(changes.summary, view.summary),
    activeTurnStartedAt := Or(changes.activeTurnStartedAt, view.activeTurnStartedAt),
    backgroundCommands := Or(changes.backgroundCommands, view.backgroundCommands),
    lifecycle := Or(changes.lifecycle, view.lifecycle),
    preparation := Or(changes.preparation, view.preparation),
    permissionPolicy := Or(changes.permissionPolicy, view.permissionPolicy),
    agentConfig := Or(changes.agentConfig, view.agentConfig),
    agentCommands := Or(changes.agentCommands, view.agentCommands),
    sendCapability := Or(changes.sendCapability, view.sendCapability),
    messageQueue := Or(changes.messageQueue, view.messageQueue),
    inputCapabilities := Or(changes.inputCapabilities, view.inputCapabilities),
    contextUsage := Or(changes.contextUsage, view.contextUsage),
    currentPlan := Or(changes.currentPlan, view.currentPlan))
  }

  /** `None` when a chat change names a message the copy does not hold. */
  function ApplyChanges(view: TaskView, revision: nat, changes: TaskChanges): (r: Option<TaskView>)
    ensures r.Some? ==> r.value.revision == revision
  {
    var chat := ApplyChat(view.chat, changes.chat);
    if chat.None? then None
    else Some(ApplyFields(view, revision, changes).(chat := chat.value))
  }

  /** Ordered ingestion of one live change: old revisions are ignored, a gap demands a resync. */
  function IngestChange(view: TaskView, task: TaskId, revision: nat, changes: TaskChanges): Update {
    if task != view.summary.taskId || revision <= view.revision then Unchanged
    else if revision != view.revision + 1 then ResyncRequired(TaskRevisionGap)
    else
      var next := ApplyChanges(view, revision, changes);
      if next.None? then ResyncRequired(MissingChatItem) else Changed(next.value)
  }

  function UpsertRequest(requests: seq<Request>, request: Request): (r: seq<Request>)
    ensures request in r
  {
    if requests == [] then [request]
    else if requests[0].requestId == request.requestId then [request] + requests[1..]
    else [requests[0]] + UpsertRequest(requests[1..], request)
  }

  /** The missed changes of a resume, applied one revision at a time. */
  function ReplayMissed(view: TaskView, missed: seq<RevisionChanges>): Option<TaskView>
    decreases |missed|
  {
    if missed == [] then Some(view)
    else if missed[0].revision != view.revision + 1 then None
    else
      var next := ApplyChanges(view, missed[0].revision, missed[0].changes);
      if next.None? then None else ReplayMissed(next.value, missed[1..])
  }

  /** Task state that changes without a revision, as every subscribe reply carries it. */
  datatype Transients = Transients(
    workspaceAvailable: bool,
    historySync: HistorySync,
    pendingRequests: seq<Request>,
    subagents: string)

  function WithTransients(view: TaskView, current: Transients): TaskView {
    view.(
    summary := view.summary.(workspaceAvailable := current.workspaceAvailable),
    historySync := current.historySync,
    pendingRequests := current.pendingRequests,
    subagents := current.subagents)
  }

  function TransientsOf(view: TaskView): Transients {
    Transients(view.summary.workspaceAvailable, view.historySync, view.pendingRequests, view.subagents)
  }

  datatype Resume = Resume(task: TaskId, knownRevision: nat, missed: seq<RevisionChanges>, current: Transients)

  /** Rebuilds the Task from the copy the client retained at the resume's known revision. */
  function ResumeView(retained: TaskView, resume: Resume): Option<TaskView> {
    if retained.summary.taskId != resume.task || retained.revision != resume.knownRevision then None
    else
      var replayed := ReplayMissed(retained, resume.missed);
      if replayed.None? then None else Some(WithTransients(replayed.value, resume.current))
  }

  // ---------------------------------------------------------------- durable state

  /** The revisioned part of a Task: what a revision number promises. */
  function Durable(view: TaskView): TaskView {
    WithTransients(view, Transients(false, HistorySync(0, ""), [], ""))
  }

  lemma DurableIgnoresTransients(view: TaskView, current: Transients)
    ensures Durable(WithTransients(view, current)) == Durable(view)
    ensures TransientsOf(WithTransients(view, current)) == current
  {
  }

  /** Applying a change depends on nothing but the revisioned part. */
  lemma ApplyPreservesDurableEquality(a: TaskView, b: TaskView, revision: nat, changes: TaskChanges)
    requires Durable(a) == Durable(b)
    ensures ApplyChanges(a, revision, changes).Some? <==> ApplyChanges(b, revision, changes).Some?
    ensures ApplyChanges(a, revision, changes).Some? ==>
              Durable(ApplyChanges(a, revision, changes).value) == Durable(ApplyChanges(b, revision, changes).value)
  {
    assert a.chat == Durable(a).chat == Durable(b).chat == b.chat;
    assert a.summary.(workspaceAvailable := false) == Durable(a).summary == b.summary.(workspaceAvailable := false);
  }
}

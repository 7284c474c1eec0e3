/**
 What changes make of a Task, said without the code that applies them: which messages there are and in
 what order, each message by the changes that name it, and every other field by the last change that
 carries it.
 */
module TaskContents {
  import opened Prelude
  import opened TaskCopies
  import opened StateSync

  // ---------------------------------------------------------------- text

  /** All the text of a message. */
  function TextOf(parts: seq<MessagePart>): string {
    if parts == [] then ""
    else TextOf(parts[..|parts| - 1]) + if parts[|parts| - 1].Text? then parts[|parts| - 1].text else ""
  }

  /** Appended text is read after all other text, and only a last text part takes it in. */
  lemma TextIsAddedLast(parts: seq<MessagePart>, text: string)
    ensures var r := AppendTextToParts(parts, text);
            && TextOf(r) == TextOf(parts) + text
            && |r| == (if parts != [] && parts[|parts| - 1].Text? then |parts| else |parts| + 1)
            && (forall i :: 0 <= i < |r| - 1 ==> r[i] == parts[i])
            && r[|r| - 1].Text?
  {
    var r := AppendTextToParts(parts, text);
    if parts != [] && parts[|parts| - 1].Text? {
      assert r[..|r| - 1] == parts[..|parts| - 1];
      assert TextOf(parts[..|parts| - 1]) + (parts[|parts| - 1].text + text) == TextOf(parts) + text;
    } else {
      assert r[..|r| - 1] == parts;
    }
  }

  // ---------------------------------------------------------------- the messages of a chat

  /** A message of a chat: as it was put there, how many changes came before, and whether changes that
      name it mean this one. */
  datatype Entry = Entry(item: ChatItem, since: nat, first: bool)

  predicate IsFirst(items: seq<ChatItem>, i: nat)
    requires i < |items|
  {
    forall j :: 0 <= j < i ==> items[j].messageId != items[i].messageId
  }

  function EntriesOf(items: seq<ChatItem>, since: nat): (r: seq<Entry>)
    ensures |r| == |items| && forall i :: 0 <= i < |r| ==> r[i] == Entry(items[i], since, IsFirst(items, i))
  {
    seq(|items|, i requires 0 <= i < |items| => Entry(items[i], since, IsFirst(items, i)))
  }

  predicate Has(entries: seq<Entry>, id: MessageId) {
    exists i :: 0 <= i < |entries| && entries[i].item.messageId == id
  }

  /** The messages after a script: those of the last replacement, or of the start, and then every one
      that was appended or upserted under an id not there yet, in that order. */
  function Entries(items: seq<ChatItem>, changes: seq<ChatChange>): (r: seq<Entry>)
    ensures forall i :: 0 <= i < |r| ==> r[i].since <= |changes|
    decreases |changes|
  {
    if changes == [] then EntriesOf(items, 0)
    else
      var before := Entries(items, changes[..|changes| - 1]);
      match changes[|changes| - 1]
      case Append(item) => before + [Entry(item, |changes|, !Has(before, item.messageId))]
      case Upsert(item) => if Has(before, item.messageId) then before else before + [Entry(item, |changes|, true)]
      case AppendText(_, _) => before
      case Replace(chat) => EntriesOf(chat.items, |changes|)
  }

  /** A message after the changes that name it. */
  function Edited(item: ChatItem, changes: seq<ChatChange>): (r: ChatItem)
    ensures r.messageId == item.messageId
    decreases |changes|
  {
    if changes == [] then item
    else
      var before := Edited(item, changes[..|changes| - 1]);
      match changes[|changes| - 1]
      case Upsert(next) => if next.messageId == item.messageId then next else before
      case AppendText(id, text) =>
        if id == item.messageId then before.(parts := AppendTextToParts(before.parts, text)) else before
      case _ => before
  }

  function Shown(entry: Entry, changes: seq<ChatChange>): (r: ChatItem)
    requires entry.since <= |changes|
    ensures r.messageId == entry.item.messageId
  {
    if entry.first then Edited(entry.item, changes[entry.since..]) else entry.item
  }

  predicate Shows(items: seq<ChatItem>, entries: seq<Entry>, changes: seq<ChatChange>) {
    && |items| == |entries|
    && forall i :: 0 <= i < |entries| ==>
                     && entries[i].since <= |changes| && items[i] == Shown(entries[i], changes)
                     && (entries[i].first <==> IsFirst(items, i))
  }

  /** Text is only ever appended to a message that is there. */
  predicate Applicable(items: seq<ChatItem>, changes: seq<ChatChange>) {
    forall k :: 0 <= k < |changes| && changes[k].AppendText? ==> Has(Entries(items, changes[..k]), changes[k].messageId)
  }

  lemma {:induction false} ApplyLast(chat: Chat, changes: seq<ChatChange>)
    requires changes != []
    ensures var before := ApplyChat(chat, changes[..|changes| - 1]);
            ApplyChat(chat, changes) == if before.None? then None else ApplyChatChange(before.value, changes[|changes| - 1])
    decreases |changes|
  {
    hide ApplyChatChange;
    var init := changes[..|changes| - 1];
    if |changes| == 1 {
      assert init == [] && changes[1..] == [];
    } else {
      assert init[0] == changes[0] && init[1..] == changes[1..][..|changes| - 2];
      var first := ApplyChatChange(chat, changes[0]);
      if first.Some? {
        ApplyLast(first.value, changes[1..]);
      }
    }
  }

  lemma LaterShown(entry: Entry, changes: seq<ChatChange>)
    requires changes != [] && entry.since < |changes|
    ensures var before := Shown(entry, changes[..|changes| - 1]);
            Shown(entry, changes)
            == if !entry.first then before
               else match changes[|changes| - 1]
                    case Upsert(next) => if next.messageId == entry.item.messageId then next else before
                    case AppendText(id, text) =>
                      if id == entry.item.messageId then before.(parts := AppendTextToParts(before.parts, text)) else before
                    case _ => before
  {
    hide AppendTextToParts;
    var tail := changes[entry.since..];
    assert tail[..|tail| - 1] == changes[..|changes| - 1][entry.since..];
  }

  lemma JustShown(entry: Entry, changes: seq<ChatChange>)
    requires entry.since == |changes|
    ensures Shown(entry, changes) == entry.item
  {
    assert changes[|changes|..] == [];
  }

  lemma FoundIsFirst(items: seq<ChatItem>, id: MessageId, i: nat)
    requires i < |items|
    ensures FindMessage(items, id) == Some(i) <==> items[i].messageId == id && IsFirst(items, i)
  {
    if items[i].messageId == id && IsFirst(items, i) {
      FirstMatchIsUnique(items, id, i);
    }
  }

  lemma FoundIsHad(items: seq<ChatItem>, entries: seq<Entry>, changes: seq<ChatChange>, id: MessageId)
    requires Shows(items, entries, changes)
    ensures FindMessage(items, id).Some? <==> Has(entries, id)
  {
    if FindMessage(items, id).Some? {
      assert entries[FindMessage(items, id).value].item.messageId == id;
    }
    if Has(entries, id) {
      var i :| 0 <= i < |entries| && entries[i].item.messageId == id;
      assert items[i].messageId == id;
    }
  }

  predicate Names(change: ChatChange, id: MessageId) {
    (change.Upsert? && change.item.messageId == id) || (change.AppendText? && change.messageId == id)
  }

  /** A message the change does not mean is shown as before. */
  lemma UnnamedShows(entry: Entry, changes: seq<ChatChange>)
    requires changes != [] && entry.since < |changes| && (entry.first ==> !Names(changes[|changes| - 1], entry.item.messageId))
    ensures Shown(entry, changes) == Shown(entry, changes[..|changes| - 1])
  {
    hide Shown;
    LaterShown(entry, changes);
  }

  lemma FirstInMore(items: seq<ChatItem>, item: ChatItem, i: nat)
    requires i < |items|
    ensures IsFirst(items + [item], i) <==> IsFirst(items, i)
  {
    var more := items + [item];
    assert forall j :: 0 <= j < |items| ==> more[j] == items[j];
  }

  lemma NewIsFirst(items: seq<ChatItem>, entries: seq<Entry>, item: ChatItem)
    requires |items| == |entries| && forall i :: 0 <= i < |items| ==> items[i].messageId == entries[i].item.messageId
    ensures IsFirst(items + [item], |items|) <==> !Has(entries, item.messageId)
  {
    var more := items + [item];
    assert forall j :: 0 <= j < |items| ==> more[j] == items[j];
    if j :| 0 <= j < |entries| && entries[j].item.messageId == item.messageId {
      assert more[j].messageId == more[|items|].messageId;
    }
  }

  /** A message added last is shown as it came, and the others as before. */
  lemma AddedShows(items: seq<ChatItem>, entries: seq<Entry>, changes: seq<ChatChange>, item: ChatItem)
    requires changes != [] && Shows(items, entries, changes[..|changes| - 1])
    requires forall i :: 0 <= i < |entries| ==> !Names(changes[|changes| - 1], entries[i].item.messageId)
    ensures Shows(items + [item], entries + [Entry(item, |changes|, !Has(entries, item.messageId))], changes)
  {
    hide Shown, Names, IsFirst, Has;
    var next, added := items + [item], Entry(item, |changes|, !Has(entries, item.messageId));
    forall i | 0 <= i < |entries|
      ensures next[i] == Shown(entries[i], changes) && (entries[i].first <==> IsFirst(next, i))
    {
      UnnamedShows(entries[i], changes);
      FirstInMore(items, item, i);
    }
    JustShown(added, changes);
    NewIsFirst(items, entries, item);
  }

  /** Only the message the change means is shown anew. */
  lemma EditedShows(items: seq<ChatItem>, entries: seq<Entry>, changes: seq<ChatChange>, at: nat, id: MessageId)
    requires changes != [] && Shows(items, entries, changes[..|changes| - 1])
    requires at < |items| && items[at].messageId == id && IsFirst(items, at) && Names(changes[|changes| - 1], id)
    ensures Shows(items[at := Shown(entries[at], changes)], entries, changes)
  {
    hide Shown;
    var next := items[at := Shown(entries[at], changes)];
    forall i | 0 <= i < |entries|
      ensures entries[i].since < |changes| && next[i] == Shown(entries[i], changes) && next[i].messageId == items[i].messageId
    {
      if i != at {
        UnnamedShows(entries[i], changes);
      }
    }
    assert forall i :: 0 <= i < |entries| ==> (IsFirst(next, i) <==> IsFirst(items, i));
  }

  /** One more change shows what its kind says. */
  lemma ChangeShows(chat: Chat, entries: seq<Entry>, changes: seq<ChatChange>, next: Chat)
    requires changes != [] && Shows(chat.items, entries, changes[..|changes| - 1])
    requires ApplyChatChange(chat, changes[|changes| - 1]) == Some(next)
    requires !changes[|changes| - 1].Replace?
    ensures var last := changes[|changes| - 1];
            Shows(next.items,
                  if last.Append? then entries + [Entry(last.item, |changes|, !Has(entries, last.item.messageId))]
                  else if last.Upsert? && !Has(entries, last.item.messageId) then entries + [Entry(last.item, |changes|, true)]
                  else entries,
                  changes)
  {
    hide Shown, AppendTextToParts, IsFirst;
    var last := changes[|changes| - 1];
    var id := if last.AppendText? then last.messageId else last.item.messageId;
    FoundIsHad(chat.items, entries, changes[..|changes| - 1], id);
    var found := FindMessage(chat.items, id);
    if last.Append? || found.None? {
      assert forall i :: 0 <= i < |entries| && !Has(entries, id) ==> entries[i].item.messageId != id;
      hide Shows, Has;
      AddedShows(chat.items, entries, changes, last.item);
    } else {
      FoundIsFirst(chat.items, id, found.value);
      LaterShown(entries[found.value], changes);
      EditedShows(chat.items, entries, changes, found.value, id);
      hide Shows;
    }
  }

  lemma JustPut(items: seq<ChatItem>, changes: seq<ChatChange>)
    ensures Shows(items, EntriesOf(items, |changes|), changes)
  {
    forall i | 0 <= i < |items|
      ensures Shown(EntriesOf(items, |changes|)[i], changes) == items[i]
    {
      JustShown(EntriesOf(items, |changes|)[i], changes);
    }
  }

  lemma {:induction false} ScriptShows(chat: Chat, changes: seq<ChatChange>)
    ensures ApplyChat(chat, changes).Some? <==> Applicable(chat.items, changes)
    ensures ApplyChat(chat, changes).Some? ==> Shows(ApplyChat(chat, changes).value.items, Entries(chat.items, changes), changes)
    decreases |changes|
  {
    hide ApplyChat, ApplyChatChange, Shows;
    if changes == [] {
      NothingApplied(chat);
      JustPut(chat.items, []);
    } else {
      var init, last := changes[..|changes| - 1], changes[|changes| - 1];
      ScriptShows(chat, init);
      ApplyLast(chat, changes);
      ApplicableLast(chat.items, changes);
      var before := ApplyChat(chat, init);
      if before.Some? {
        ChangeApplies(before.value, Entries(chat.items, init), init, last);
        var next := ApplyChatChange(before.value, last);
        if last.Replace? {
          JustPut(last.chat.items, changes);
        } else if next.Some? {
          ChangeShows(before.value, Entries(chat.items, init), changes, next.value);
        }
      }
    }
  }

  lemma NothingApplied(chat: Chat)
    ensures ApplyChat(chat, []) == Some(chat)
  {
  }

  lemma ApplicableLast(items: seq<ChatItem>, changes: seq<ChatChange>)
    requires changes != []
    ensures var init, last := changes[..|changes| - 1], changes[|changes| - 1];
            Applicable(items, changes)
            <==> Applicable(items, init) && (last.AppendText? ==> Has(Entries(items, init), last.messageId))
  {
    hide Entries, Has;
    var init := changes[..|changes| - 1];
    assert forall k :: 0 <= k < |init| ==> init[..k] == changes[..k] && init[k] == changes[k];
  }

  lemma ChangeApplies(chat: Chat, entries: seq<Entry>, changes: seq<ChatChange>, change: ChatChange)
    requires Shows(chat.items, entries, changes)
    ensures ApplyChatChange(chat, change).Some? <==> (change.AppendText? ==> Has(entries, change.messageId))
    ensures change.Replace? ==> ApplyChatChange(chat, change) == Some(change.chat)
  {
    hide Shows, UpsertItem, AppendTextToParts;
    if change.AppendText? {
      FoundIsHad(chat.items, entries, changes, change.messageId);
    }
  }

  /** The whole chat after a script, from the script alone: it applies if and only if text is only ever
      appended to a message that is there, and then every message is shown in its place as the changes
      that name it left it. */
  lemma ChatIsItsScript(chat: Chat, changes: seq<ChatChange>)
    ensures ApplyChat(chat, changes).Some? <==> Applicable(chat.items, changes)
    ensures ApplyChat(chat, changes).Some? ==>
              var items, entries := ApplyChat(chat, changes).value.items, Entries(chat.items, changes);
              |items| == |entries| && forall i :: 0 <= i < |entries| ==> items[i] == Shown(entries[i], changes)
  {
    hide ApplyChat, Applicable, Entries, Shown;
    ScriptShows(chat, changes);
  }

  lemma {:induction false} ScriptsCompose(chat: Chat, before: seq<ChatChange>, after: seq<ChatChange>)
    ensures var mid := ApplyChat(chat, before);
            ApplyChat(chat, before + after) == if mid.None? then None else ApplyChat(mid.value, after)
    decreases |before|
  {
    hide ApplyChatChange;
    if before == [] {
      assert before + after == after;
    } else {
      assert (before + after)[1..] == before[1..] + after;
      var first := ApplyChatChange(chat, before[0]);
      if first.Some? {
        ScriptsCompose(first.value, before[1..], after);
      }
    }
  }

  /** A replacement leaves exactly its chat: what came before it no longer shows. */
  lemma ReplacementStartsAfresh(chat: Chat, before: seq<ChatChange>, replacement: Chat, after: seq<ChatChange>)
    requires ApplyChat(chat, before).Some?
    ensures ApplyChat(chat, before + [Replace(replacement)] + after) == ApplyChat(replacement, after)
    ensures ApplyChat(chat, before + [Replace(replacement)]) == Some(replacement)
  {
    var only := [Replace(replacement)];
    ScriptsCompose(chat, before, only);
    ScriptsCompose(chat, before + only, after);
    assert only[1..] == [];
  }

  /** Without a replacement the start of the history stays where it was, and any change at all means
      that there are messages. */
  lemma {:induction false} FlagsFollow(chat: Chat, changes: seq<ChatChange>)
    requires ApplyChat(chat, changes).Some? && forall k :: 0 <= k < |changes| ==> !changes[k].Replace?
    ensures var r := ApplyChat(chat, changes).value;
            r.hasMoreBefore == chat.hasMoreBefore && r.hasMessages == (chat.hasMessages || changes != [])
    decreases |changes|
  {
    if changes != [] {
      FlagsFollow(ApplyChatChange(chat, changes[0]).value, changes[1..]);
    }
  }

  function Appends(items: seq<ChatItem>): (r: seq<ChatChange>)
    ensures |r| == |items| && forall i :: 0 <= i < |r| ==> r[i] == Append(items[i])
  {
    seq(|items|, i requires 0 <= i < |items| => Append(items[i]))
  }

  /** After appends alone the messages are the old ones followed by the new ones in order. */
  lemma {:induction false} AppendsAddInOrder(chat: Chat, added: seq<ChatItem>)
    ensures ApplyChat(chat, Appends(added))
            == Some(Chat(chat.items + added, chat.hasMoreBefore, chat.hasMessages || added != []))
    decreases |added|
  {
    if added == [] {
      assert chat.items + added == chat.items;
    } else {
      var first := Chat(chat.items + [added[0]], chat.hasMoreBefore, true);
      assert Appends(added)[1..] == Appends(added[1..]);
      assert chat.items + added == first.items + added[1..];
      AppendsAddInOrder(first, added[1..]);
    }
  }

  // ---------------------------------------------------------------- the other fields

  /** A change that carries nothing. */
  const NOTHING: TaskChanges :=
    TaskChanges(None, None, None, None, None, None, None, None, None, None, None, None, None, [], false)

  /** A change that carries one field sets that field and no other. */
  lemma OneFieldAltersItself(view: TaskView, revision: nat, summary: Summary, text: string, optional: Option<string>)
    ensures ApplyChanges(view, revision, NOTHING.(summary := Some(summary))) == Some(view.(revision := revision, summary := summary))
    ensures ApplyChanges(view, revision, NOTHING.(activeTurnStartedAt := Some(optional))) == Some(view.(revision := revision, activeTurnStartedAt := optional))
    ensures ApplyChanges(view, revision, NOTHING.(backgroundCommands := Some(text))) == Some(view.(revision := revision, backgroundCommands := text))
    ensures ApplyChanges(view, revision, NOTHING.(lifecycle := Some(text))) == Some(view.(revision := revision, lifecycle := text))
    ensures ApplyChanges(view, revision, NOTHING.(preparation := Some(text))) == Some(view.(revision := revision, preparation := text))
    ensures ApplyChanges(view, revision, NOTHING.(permissionPolicy := Some(text))) == Some(view.(revision := revision, permissionPolicy := text))
    ensures ApplyChanges(view, revision, NOTHING.(agentConfig := Some(text))) == Some(view.(revision := revision, agentConfig := text))
    ensures ApplyChanges(view, revision, NOTHING.(agentCommands := Some(text))) == Some(view.(revision := revision, agentCommands := text))
    ensures ApplyChanges(view, revision, NOTHING.(sendCapability := Some(text))) == Some(view.(revision := revision, sendCapability := text))
    ensures ApplyChanges(view, revision, NOTHING.(messageQueue := Some(text))) == Some(view.(revision := revision, messageQueue := text))
    ensures ApplyChanges(view, revision, NOTHING.(inputCapabilities := Some(text))) == Some(view.(revision := revision, inputCapabilities := text))
    ensures ApplyChanges(view, revision, NOTHING.(contextUsage := Some(optional))) == Some(view.(revision := revision, contextUsage := optional))
    ensures ApplyChanges(view, revision, NOTHING.(currentPlan := Some(optional))) == Some(view.(revision := revision, currentPlan := optional))
  {
  }

  /** A change that carries chat changes alone alters the chat alone. */
  lemma ChatAltersChatAlone(view: TaskView, revision: nat, script: seq<ChatChange>)
    ensures var chat := ApplyChat(view.chat, script);
            ApplyChanges(view, revision, NOTHING.(chat := script))
            == if chat.None? then None else Some(view.(revision := revision, chat := chat.value))
  {
    hide ApplyChat;
  }

  /** The last value carried for a field, or the value before all of them. */
  function LastCarried<T>(changes: seq<TaskChanges>, field: TaskChanges -> Option<T>, first: T): T
    decreases |changes|
  {
    if changes == [] then first
    else if field(changes[|changes| - 1]).Some? then field(changes[|changes| - 1]).value
    else LastCarried(changes[..|changes| - 1], field, first)
  }

  /** All the chat changes, in order. */
  function AllChat(changes: seq<TaskChanges>): seq<ChatChange>
    decreases |changes|
  {
    if changes == [] then [] else AllChat(changes[..|changes| - 1]) + changes[|changes| - 1].chat
  }

  /** The Task is what the changes since a view say it is: each field the last value carried for it, the
      chat all their chat changes in one script, one revision for each change, and nothing else moved. */
  predicate IsMadeBy(view: TaskView, changes: seq<TaskChanges>, r: TaskView) {
    && r.revision == view.revision + |changes|
    && ApplyChat(view.chat, AllChat(changes)) == Some(r.chat)
    && r.summary == LastCarried(changes, (c: TaskChanges) => c.summary, view.summary)
    && r.activeTurnStartedAt == LastCarried(changes, (c: TaskChanges) => c.activeTurnStartedAt, view.activeTurnStartedAt)
    && r.backgroundCommands == LastCarried(changes, (c: TaskChanges) => c.backgroundCommands, view.backgroundCommands)
    && r.lifecycle == LastCarried(changes, (c: TaskChanges) => c.lifecycle, view.lifecycle)
    && r.preparation == LastCarried(changes, (c: TaskChanges) => c.preparation, view.preparation)
    && r.permissionPolicy == LastCarried(changes, (c: TaskChanges) => c.permissionPolicy, view.permissionPolicy)
    && r.agentConfig == LastCarried(changes, (c: TaskChanges) => c.agentConfig, view.agentConfig)
    && r.agentCommands == LastCarried(changes, (c: TaskChanges) => c.agentCommands, view.agentCommands)
    && r.sendCapability == LastCarried(changes, (c: TaskChanges) => c.sendCapability, view.sendCapability)
    && r.messageQueue == LastCarried(changes, (c: TaskChanges) => c.messageQueue, view.messageQueue)
    && r.inputCapabilities == LastCarried(changes, (c: TaskChanges) => c.inputCapabilities, view.inputCapabilities)
    && r.contextUsage == LastCarried(changes, (c: TaskChanges) => c.contextUsage, view.contextUsage)
    && r.currentPlan == LastCarried(changes, (c: TaskChanges) => c.currentPlan, view.currentPlan)
    && r.historySync == view.historySync && r.pendingRequests == view.pendingRequests && r.subagents == view.subagents
  }

  /** The committed Task, revision by revision, is what its changes say it is. */
  lemma {:induction false} CommittedIsItsChanges(view: TaskView, changes: seq<TaskChanges>)
    requires Replay(view, changes).Some?
    ensures IsMadeBy(view, changes, Replay(view, changes).value)
    decreases |changes|
  {
    hide ApplyChat;
    if changes == [] {
      NothingApplied(view.chat);
    } else {
      var init := changes[..|changes| - 1];
      CommittedIsItsChanges(view, init);
      ScriptsCompose(view.chat, AllChat(init), changes[|changes| - 1].chat);
    }
  }
}

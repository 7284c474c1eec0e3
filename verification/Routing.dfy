/**
 Which published events belong to which subscriptions: the App Server's routing
 (state_sync.rs) and the client's own check on arrival (subscriptionScope.ts).
 */
module Routing {
  import opened Prelude
  import opened TaskCopies

  datatype Section = Tasks | Archive

  datatype Lifecycle = Prepared | Open | Archived

  datatype Scope =
    | Projects
    | Agents
    | Settings(settingsSection: Option<string>)
    | TaskNavigation(section: Section, projectIds: Option<seq<string>>)
    | Task(task: TaskId)
    | SubagentCatalog(catalogTask: TaskId)
    | SubagentHistory(historyTask: TaskId, subagentId: string)
    | ToolDetail(detailTask: TaskId, artifactId: string)
    | WorktreeRepository(repositoryId: string)
    | Devices
    | Terminals

  datatype EventScope =
    | StateRootScope(root: string)
    | ClientScope(root: string, client: ClientId)
    | TaskScope(root: string, task: TaskId)

  datatype Payload =
    | SnapshotReplaced(activeTask: Option<TaskView>, snapshot: string)
    | TaskChanged(changedTask: TaskId, revision: nat, changes: TaskChanges)
    | TaskHistorySyncUpdated(syncedTask: TaskId, historySync: HistorySync)
    | TaskUpdated(projectId: string, lifecycle: Lifecycle, row: string)
    | ProjectEntriesReplaced(section: Section, projectId: string, entries: string)
    | RefreshStateChanged(refresh: string)
    | NavigationReplaced(section: Section, navigation: string)
    | ProjectCollectionUpdated(projects: string)
    | TaskRequestsUpdated(requestsTask: TaskId, requests: seq<Request>)
    | SubagentCatalogUpdated(catalogTask: TaskId, catalog: string)
    | SubagentHistoryChanged(historyTask: TaskId, subagentId: string, change: string)
    | ToolDetailUpdated(detailTask: TaskId, artifactId: string, details: string)
    | ToolDetailChanged(detailTask: TaskId, artifactId: string, deltas: string)
    | RequestUpdated(request: Request)
    | AgentCollectionUpdated(agents: string)
    | WorktreeRepositoryUpdated(repositoryId: string, repository: string)
    | DeviceCollectionUpdated(devices: string)
    | TerminalCollectionUpdated(terminals: string)

  datatype Subscription = Subscription(client: ClientId, scope: Scope)

  // ---------------------------------------------------------------- server routing

  predicate LifecycleInSection(lifecycle: Lifecycle, section: Section) {
    (lifecycle.Open? && section.Tasks?) || (lifecycle.Archived? && section.Archive?)
  }

  predicate Selected(projectIds: Option<seq<string>>, projectId: string) {
    projectIds.None? || projectId in projectIds.value
  }

  predicate PayloadMatches(payload: Payload, scope: Scope) {
    match scope
    case Projects => payload.SnapshotReplaced? || payload.ProjectCollectionUpdated?
    case Agents => payload.SnapshotReplaced? || payload.AgentCollectionUpdated?
    case Settings(_) => payload.SnapshotReplaced?
    case Devices => payload.SnapshotReplaced? || payload.DeviceCollectionUpdated?
    case Terminals => payload.SnapshotReplaced? || payload.TerminalCollectionUpdated?
    case TaskNavigation(section, projectIds) =>
      || payload.SnapshotReplaced?
      || (payload.NavigationReplaced? && payload.section == section)
      || (payload.RefreshStateChanged? && section.Tasks?)
      || (payload.ProjectEntriesReplaced? && payload.section == section && Selected(projectIds, payload.projectId))
      || (payload.TaskUpdated? && Selected(projectIds, payload.projectId) && LifecycleInSection(payload.lifecycle, section))
    case Task(_) =>
      || payload.SnapshotReplaced? || payload.TaskChanged? || payload.TaskHistorySyncUpdated?
      || payload.TaskRequestsUpdated? || payload.RequestUpdated?
    case SubagentCatalog(task) => payload.SubagentCatalogUpdated? && payload.catalogTask == task
    case SubagentHistory(task, subagent) =>
      payload.SubagentHistoryChanged? && payload.historyTask == task && payload.subagentId == subagent
    case ToolDetail(task, artifact) =>
      (payload.ToolDetailUpdated? || payload.ToolDetailChanged?) && payload.detailTask == task && payload.artifactId == artifact
    case WorktreeRepository(repository) =>
      payload.SnapshotReplaced? || (payload.WorktreeRepositoryUpdated? && payload.repositoryId == repository)
  }

  predicate TaskOwned(scope: Scope) {
    scope.Task? || scope.SubagentCatalog? || scope.SubagentHistory?
  }

  predicate NamesTask(scope: Scope, task: TaskId) {
    match scope
    case Task(t) => t == task
    case ToolDetail(t, _) => t == task
    case SubagentCatalog(t) => t == task
    case SubagentHistory(t, _) => t == task
    case _ => false
  }

  predicate EventMatches(event: EventScope, payload: Payload, subscription: Subscription, root: string) {
    if payload.ProjectCollectionUpdated? then
      event.root == root && PayloadMatches(payload, subscription.scope)
    else
      && event.root == root
      && (match event
          case StateRootScope(_) => !TaskOwned(subscription.scope)
          case ClientScope(_, client) => client == subscription.client && !TaskOwned(subscription.scope)
          case TaskScope(_, task) => NamesTask(subscription.scope, task))
      && PayloadMatches(payload, subscription.scope)
  }

  /** An event addressed to one client reaches that client alone, although other clients may
      follow the same scope. */
  predicate Addressed(event: EventScope, payload: Payload) {
    event.ClientScope? && !payload.ProjectCollectionUpdated?
  }

  /** Routing is decided by the scope alone, unless the event is addressed to one client. */
  lemma RoutingIsPerScope(event: EventScope, payload: Payload, scope: Scope, a: ClientId, b: ClientId, root: string)
    ensures !Addressed(event, payload) ==>
              (EventMatches(event, payload, Subscription(a, scope), root)
               <==> EventMatches(event, payload, Subscription(b, scope), root))
    ensures Addressed(event, payload) && EventMatches(event, payload, Subscription(a, scope), root) && a != b ==>
              !EventMatches(event, payload, Subscription(b, scope), root)
    ensures scope.Task? ==>
              (EventMatches(event, payload, Subscription(a, scope), root)
               <==> EventMatches(event, payload, Subscription(b, scope), root))
  {
  }

  /** The event is for everyone, or for this client. */
  predicate Reaches(event: EventScope, client: ClientId) {
    event.StateRootScope? || (event.ClientScope? && event.client == client)
  }

  /** Which subscriptions a payload is for, payload by payload. */
  predicate IntendedFor(event: EventScope, payload: Payload, subscription: Subscription) {
    var scope := subscription.scope;
    var reaches := Reaches(event, subscription.client);
    match payload
    case SnapshotReplaced(_, _) =>
      if scope.Task? then event.TaskScope? && event.task == scope.task
      else reaches && !scope.SubagentCatalog? && !scope.SubagentHistory? && !scope.ToolDetail?
    case TaskChanged(_, _, _) => event.TaskScope? && scope == Task(event.task)
    case TaskHistorySyncUpdated(_, _) => event.TaskScope? && scope == Task(event.task)
    case TaskRequestsUpdated(_, _) => event.TaskScope? && scope == Task(event.task)
    case RequestUpdated(_) => event.TaskScope? && scope == Task(event.task)
    case TaskUpdated(project, lifecycle, _) =>
      && reaches && scope.TaskNavigation? && lifecycle != Prepared && scope.section == (if lifecycle == Open then Tasks else Archive)
      && (scope.projectIds.Some? ==> project in scope.projectIds.value)
    case ProjectEntriesReplaced(section, project, _) =>
      && reaches && scope.TaskNavigation? && scope.section == section
      && (scope.projectIds.Some? ==> project in scope.projectIds.value)
    case RefreshStateChanged(_) => reaches && scope.TaskNavigation? && scope.section == Tasks
    case NavigationReplaced(section, _) => reaches && scope.TaskNavigation? && scope.section == section
    case ProjectCollectionUpdated(_) => scope == Projects
    case SubagentCatalogUpdated(task, _) => event.TaskScope? && event.task == task && scope == SubagentCatalog(task)
    case SubagentHistoryChanged(task, subagent, _) => event.TaskScope? && event.task == task && scope == SubagentHistory(task, subagent)
    case ToolDetailUpdated(task, artifact, _) =>
      (reaches || (event.TaskScope? && event.task == task)) && scope == ToolDetail(task, artifact)
    case ToolDetailChanged(task, artifact, _) =>
      (reaches || (event.TaskScope? && event.task == task)) && scope == ToolDetail(task, artifact)
    case AgentCollectionUpdated(_) => reaches && scope == Agents
    case WorktreeRepositoryUpdated(repository, _) => reaches && scope == WorktreeRepository(repository)
    case DeviceCollectionUpdated(_) => reaches && scope == Devices
    case TerminalCollectionUpdated(_) => reaches && scope == Terminals
  }

  /** The routing function, which goes by the subscription's scope, sends each payload exactly where it
      is intended. */
  lemma RoutedExactlyAsIntended(event: EventScope, payload: Payload, subscription: Subscription, root: string)
    ensures EventMatches(event, payload, subscription, root) <==> event.root == root && IntendedFor(event, payload, subscription)
  {
  }

  /** An event of one Task reaches that Task's scopes only, and a scope that a Task owns is reached by
      events of that Task only. */
  lemma TasksAreKeptApart(event: EventScope, payload: Payload, subscription: Subscription, root: string)
    requires EventMatches(event, payload, subscription, root)
    ensures event.TaskScope? && !payload.ProjectCollectionUpdated? ==> ScopeTask(subscription.scope) == Some(event.task)
    ensures TaskOwned(subscription.scope) ==> event.TaskScope? && ScopeTask(subscription.scope) == Some(event.task)
  {
  }

  // ---------------------------------------------------------------- the client's check

  datatype Match = Matches | SubscriptionMismatch | StreamScopeMismatch

  /** The client's own table of the payloads each scope takes. */
  predicate ClientPayloadMatches(scope: Scope, payload: Payload) {
    match scope
    case Projects => payload.SnapshotReplaced? || payload.ProjectCollectionUpdated?
    case Agents => payload.SnapshotReplaced? || payload.AgentCollectionUpdated?
    case Devices => payload.SnapshotReplaced? || payload.DeviceCollectionUpdated?
    case Terminals => payload.SnapshotReplaced? || payload.TerminalCollectionUpdated?
    case Settings(_) => payload.SnapshotReplaced?
    case TaskNavigation(section, projectIds) => ClientNavigationMatches(section, projectIds, payload)
    case Task(_) =>
      match payload {
        case SnapshotReplaced(_, _) => true
        case TaskChanged(_, _, _) => true
        case TaskHistorySyncUpdated(_, _) => true
        case TaskRequestsUpdated(_, _) => true
        case RequestUpdated(_) => true
        case _ => false
      }
    case SubagentCatalog(task) => payload.SubagentCatalogUpdated? && payload.catalogTask == task
    case SubagentHistory(task, subagent) =>
      payload.SubagentHistoryChanged? && payload.historyTask == task && payload.subagentId == subagent
    case ToolDetail(task, artifact) =>
      match payload {
        case ToolDetailUpdated(t, a, _) => t == task && a == artifact
        case ToolDetailChanged(t, a, _) => t == task && a == artifact
        case _ => false
      }
    case WorktreeRepository(repository) => payload.WorktreeRepositoryUpdated? && payload.repositoryId == repository
  }

  predicate ClientNavigationMatches(section: Section, projectIds: Option<seq<string>>, payload: Payload) {
    match payload
    case SnapshotReplaced(_, _) => true
    case RefreshStateChanged(_) => section == Tasks
    case NavigationReplaced(replaced, _) => replaced == section
    case ProjectEntriesReplaced(replaced, project, _) =>
      replaced == section && (projectIds == None || project in projectIds.value)
    case TaskUpdated(project, lifecycle, _) =>
      && (projectIds == None || project in projectIds.value)
      && ((section == Tasks && lifecycle == Open) || (section == Archive && lifecycle == Archived))
    case _ => false
  }

  /** The Task a scope belongs to, as the client reads it off the scope. */
  function ScopeTask(scope: Scope): Option<TaskId> {
    if scope.Task? then Some(scope.task)
    else if scope.SubagentCatalog? then Some(scope.catalogTask)
    else if scope.SubagentHistory? then Some(scope.historyTask)
    else if scope.ToolDetail? then Some(scope.detailTask)
    else None
  }

  function ClientEventScope(scope: Scope, event: EventScope, client: ClientId): Match {
    if ScopeTask(scope).Some? then
      if event.TaskScope? && Some(event.task) == ScopeTask(scope) then Matches else SubscriptionMismatch
    else
      match event
      case StateRootScope(_) => Matches
      case TaskScope(_, _) => SubscriptionMismatch
      case ClientScope(_, named) => if named == client then Matches else StreamScopeMismatch
  }

  /** What the client decides about an event that carries its own subscription scope. */
  function ClientMatch(scope: Scope, event: EventScope, payload: Payload, client: ClientId, root: string): Match {
    if event.root != root then StreamScopeMismatch
    else
      var byScope := ClientEventScope(scope, event, client);
      if !byScope.Matches? then byScope
      else if ClientPayloadMatches(scope, payload) then Matches
      else SubscriptionMismatch
  }

  /** The events the server routes to a subscription that the client then does not accept. */
  predicate RoutedButRefused(event: EventScope, payload: Payload, subscription: Subscription) {
    || (subscription.scope.WorktreeRepository? && payload.SnapshotReplaced?)
    || (subscription.scope.ToolDetail? && !event.TaskScope?)
    || (payload.ProjectCollectionUpdated? && (event.TaskScope? || (event.ClientScope? && event.client != subscription.client)))
  }

  /** The routing function and the client's check agree on every event there could be but the named
      ones. */
  lemma ClientAcceptsRoutedEvents(event: EventScope, payload: Payload, subscription: Subscription, root: string)
    requires EventMatches(event, payload, subscription, root)
    ensures ClientMatch(subscription.scope, event, payload, subscription.client, root).Matches?
            <==> !RoutedButRefused(event, payload, subscription)
    ensures subscription.scope.Task? ==> !RoutedButRefused(event, payload, subscription)
  {
  }

  /** The scope under which the server publishes each payload; two payloads of the protocol it never
      publishes. */
  predicate ServerPublishes(event: EventScope, payload: Payload) {
    match payload
    case SnapshotReplaced(_, _) => event.ClientScope?
    case TaskChanged(task, _, _) => event.TaskScope? && event.task == task
    case TaskHistorySyncUpdated(task, _) => event.TaskScope? && event.task == task
    case TaskRequestsUpdated(task, _) => event.TaskScope? && event.task == task
    case SubagentCatalogUpdated(_, _) => event.TaskScope?
    case SubagentHistoryChanged(task, _, _) => event.TaskScope? && event.task == task
    case ToolDetailChanged(task, _, _) => event.TaskScope? && event.task == task
    case ToolDetailUpdated(_, _, _) => false
    case RequestUpdated(_) => false
    case _ => event.StateRootScope?
  }

  /** What the server publishes about something arrives at whoever follows that thing. */
  lemma PublishedFindsItsFollowers(event: EventScope, payload: Payload, client: ClientId, root: string)
    requires ServerPublishes(event, payload) && event.root == root
    ensures var reaches := (scope: Scope) => EventMatches(event, payload, Subscription(client, scope), root);
            match payload
            case SnapshotReplaced(_, _) => reaches(Projects) <==> event.client == client
            case TaskChanged(task, _, _) => reaches(Task(task))
            case TaskHistorySyncUpdated(task, _) => reaches(Task(task))
            case TaskRequestsUpdated(task, _) => reaches(Task(task))
            case SubagentCatalogUpdated(task, _) => reaches(SubagentCatalog(task)) <==> event.task == task
            case SubagentHistoryChanged(task, subagent, _) => reaches(SubagentHistory(task, subagent))
            case ToolDetailChanged(task, artifact, _) => reaches(ToolDetail(task, artifact))
            case TaskUpdated(_, lifecycle, _) =>
              lifecycle != Prepared ==> reaches(TaskNavigation(if lifecycle == Open then Tasks else Archive, None))
            case ProjectEntriesReplaced(section, project, _) => reaches(TaskNavigation(section, Some([project])))
            case RefreshStateChanged(_) => reaches(TaskNavigation(Tasks, None))
            case NavigationReplaced(section, _) => reaches(TaskNavigation(section, None))
            case ProjectCollectionUpdated(_) => reaches(Projects)
            case AgentCollectionUpdated(_) => reaches(Agents)
            case WorktreeRepositoryUpdated(repository, _) => reaches(WorktreeRepository(repository))
            case DeviceCollectionUpdated(_) => reaches(Devices)
            case TerminalCollectionUpdated(_) => reaches(Terminals)
            case _ => false
  {
    if payload.ProjectEntriesReplaced? {
      assert payload.projectId in [payload.projectId];
    }
  }

  /** Of what the server does publish, a subscriber refuses exactly its own replaced snapshot on a
      worktree repository. */
  lemma ClientAcceptsPublishedEvents(event: EventScope, payload: Payload, subscription: Subscription, root: string)
    requires ServerPublishes(event, payload) && EventMatches(event, payload, subscription, root)
    ensures ClientMatch(subscription.scope, event, payload, subscription.client, root).Matches?
            <==> !(subscription.scope.WorktreeRepository? && payload.SnapshotReplaced?)
  {
    ClientAcceptsRoutedEvents(event, payload, subscription, root);
  }

  /** The refusal happens: a client that follows a repository is sent its own snapshot. */
  lemma WorktreeSnapshotIsRefused(client: ClientId, repository: string, root: string, snapshot: string)
    ensures var event, payload := ClientScope(root, client), SnapshotReplaced(None, snapshot);
            && ServerPublishes(event, payload)
            && EventMatches(event, payload, Subscription(client, WorktreeRepository(repository)), root)
            && ClientMatch(WorktreeRepository(repository), event, payload, client, root) == SubscriptionMismatch
  {
  }

  /** And nothing the client would accept is withheld from a subscriber. */
  lemma ClientAcceptsOnlyRouted(event: EventScope, payload: Payload, subscription: Subscription, root: string)
    requires ClientMatch(subscription.scope, event, payload, subscription.client, root).Matches?
    ensures EventMatches(event, payload, subscription, root)
  {
  }
}

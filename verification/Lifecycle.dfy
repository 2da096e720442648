/** The Run lifecycle: a fold over an event stream, and what every accepted event keeps. */
module Lifecycle {
  import opened Common
  import opened Graph

  datatype AttemptStatus = Accepted | Succeeded | Failed | OutcomeUnknown | Cancelled

  datatype NodeStatus = Blocked | Ready | Running | AwaitingReconciliation | Succeeded | Failed | Cancelled

  datatype RunStatus = Created | Running | Paused | AwaitingUser | Cancelling | Succeeded | Failed | Cancelled

  datatype Attempt = Attempt(id: nat, generation: nat, status: AttemptStatus, details: nat)

  datatype Node = Node(spec: NodeSpec, status: NodeStatus, attempts: seq<Attempt>)

  datatype RunState = RunState(
    status: RunStatus,
    request: Option<nat>,
    cancelEvent: Option<nat>,
    config: nat,
    registry: nat,
    workspace: Option<nat>,
    policy: Option<nat>,
    maxNodes: nat,
    maxDepth: nat,
    graphVersion: nat,
    version: nat,
    nodes: map<Id, Node>)

  // ----- Events -----

  datatype EndKind = Completed | Reconciled | Stopped

  /** What an event records; digests are injective, so a hashed payload stands for itself. */
  datatype Body =
    | RunInitialized(run: nat, config: nat, registry: nat, workspace: Option<nat>, maxNodes: int, maxDepth: int)
    | GraphNodesAppended(graphVersion: nat, specs: seq<NodeSpec>, manifest: Option<nat>, manifestHash: Option<nat>)
    | RunStarted(run: nat)
    | RunPaused(run: nat, reason: nat)
    | RunResumed(run: nat)
    | RunAwaitingUser(run: nat, request: nat, reason: nat, context: nat)
    | RunUserResponseReceived(run: nat, request: nat, response: nat)
    | RunCancellationRequested(run: nat, reason: nat)
    | RunCancelled(run: nat, requestEvent: nat)
    | AttemptAccepted(node: Id, attempt: Attempt)
    | AttemptEnded(kind: EndKind, node: Id, attemptId: nat, outcome: AttemptStatus, proof: Option<(nat, nat)>)

  datatype Cause = Unstated | HashOf(body: Body) | OfEvent(id: nat) | OfResponse(response: nat) | Other(cause: nat)

  datatype Key =
    | KInit
    | KGraph(key: nat)
    | KStart
    | KPause(reason: nat)
    | KResume
    | KAwait(request: nat)
    | KResponse(request: nat)
    | KCancelRequest
    | KCancelComplete
    | KAccepted(attempt: nat)
    | KEnded(kind: EndKind, attempt: nat)

  datatype Context = Context(run: Option<nat>, node: Option<Id>, attempt: Option<nat>, fencing: Option<nat>)

  datatype Event = Event(id: nat, version: nat, key: Key, context: Context, cause: Cause, body: Body)

  // ----- Applying one event -----

  function Specs(nodes: map<Id, Node>): Nodes {
    map n | n in nodes :: nodes[n].spec
  }

  predicate DependenciesSucceeded(nodes: map<Id, Node>, spec: NodeSpec) {
    forall d :: d in spec.dependsOn ==> d in nodes && nodes[d].status.Succeeded?
  }

  predicate Active(node: Node) {
    node.status.Running? || node.status.AwaitingReconciliation?
  }

  predicate Progressing(node: Node) {
    node.status.Ready? || Active(node)
  }

  /** The latest attempt that is still open, searched from the end. */
  function OpenAttempt(attempts: seq<Attempt>): Option<Attempt> {
    if attempts == [] then None
    else
      var last := attempts[|attempts| - 1];
      if last.status.Accepted? || last.status.OutcomeUnknown? then Some(last) else OpenAttempt(attempts[..|attempts| - 1])
  }

  function ActiveAttempt(node: Node): Option<Attempt> {
    if Active(node) then OpenAttempt(node.attempts) else None
  }

  function Initial(run: nat, e: Event): Option<RunState> {
    match e.body
    case RunInitialized(r, config, registry, workspace, maxNodes, maxDepth) =>
      if r != run || maxNodes <= 0 || maxDepth < 0 || e.version != 1 then None
      else Some(RunState(RunStatus.Created, None, None, config, registry, workspace, None, maxNodes, maxDepth, 0, 1, map[]))
    case _ => None
  }

  predicate ContractFits(run: nat, s: RunState, policy: Option<nat>, spec: NodeSpec) {
    spec.contract.Some? ==> spec.contract.value.run == run && spec.contract.value.config == s.config
                            && spec.contract.value.registry == s.registry && Some(spec.contract.value.policy) == policy
  }

  /** The frozen policy after an append, or None when the append does not fit it. */
  function FrozenPolicy(s: RunState, manifest: Option<nat>, hash: Option<nat>): Option<Option<nat>> {
    if manifest.Some? then
      if hash != manifest || (s.policy.Some? && s.policy != hash) then None else Some(hash)
    else if hash.Some? && hash != s.policy then None
    else Some(s.policy)
  }

  function Appended(nodes: map<Id, Node>, added: Nodes): map<Id, Node> {
    nodes + map n | n in added ::
      Node(added[n], if DependenciesSucceeded(nodes, added[n]) then NodeStatus.Ready else NodeStatus.Blocked, [])
  }

  ghost function Append(run: nat, s: RunState, body: Body): Option<RunState>
    requires body.GraphNodesAppended?
  {
    var policy := FrozenPolicy(s, body.manifest, body.manifestHash);
    if !(s.status.Created? || s.status.Running?) || body.graphVersion != s.graphVersion + 1 || policy.None? then None
    else if exists spec :: spec in body.specs && !ContractFits(run, s, policy.value, spec) then None
    else if !Allowed(Specs(s.nodes), body.specs, s.maxNodes, s.maxDepth) then None
    else Some(s.(policy := policy.value, graphVersion := body.graphVersion, nodes := Appended(s.nodes, Dict(body.specs))))
  }

  predicate UsedAttempt(nodes: map<Id, Node>, id: nat) {
    exists n :: n in nodes && exists i :: 0 <= i < |nodes[n].attempts| && nodes[n].attempts[i].id == id
  }

  function Accept(run: nat, s: RunState, e: Event): Option<RunState>
    requires e.body.AttemptAccepted?
  {
    var (n, attempt) := (e.body.node, e.body.attempt);
    if !s.status.Running? || n !in s.nodes || !s.nodes[n].status.Ready? then None
    else if e.context != Context(Some(run), Some(n), Some(attempt.id), Some(attempt.generation)) then None
    else if attempt.generation != |s.nodes[n].attempts| + 1 || |s.nodes[n].attempts| >= s.nodes[n].spec.maxAttempts then None
    else if UsedAttempt(s.nodes, attempt.id) then None
    else
      var node := s.nodes[n].(status := NodeStatus.Running, attempts := s.nodes[n].attempts + [attempt]);
      Some(s.(nodes := s.nodes[n := node]))
  }

  function StatusAfter(outcome: AttemptStatus, node: Node): NodeStatus {
    match outcome
    case OutcomeUnknown => NodeStatus.AwaitingReconciliation
    case Succeeded => NodeStatus.Succeeded
    case Cancelled => NodeStatus.Cancelled
    case _ => if |node.attempts| < node.spec.maxAttempts then NodeStatus.Ready else NodeStatus.Failed
  }

  /** Blocked nodes whose dependencies have all succeeded become ready. */
  function Promoted(nodes: map<Id, Node>): map<Id, Node> {
    map n | n in nodes ::
      if nodes[n].status.Blocked? && DependenciesSucceeded(nodes, nodes[n].spec)
      then nodes[n].(status := NodeStatus.Ready) else nodes[n]
  }

  predicate OutcomeFits(s: RunState, kind: EndKind, active: AttemptStatus, outcome: AttemptStatus) {
    match kind
    case Completed => active.Accepted? && outcome in {AttemptStatus.Succeeded, AttemptStatus.Failed, AttemptStatus.OutcomeUnknown}
    case Reconciled => active.OutcomeUnknown? && outcome in {AttemptStatus.Succeeded, AttemptStatus.Failed}
    case Stopped => active.Accepted? && s.status.Cancelling? && outcome.Cancelled?
  }

  function End(run: nat, s: RunState, e: Event): Option<RunState>
    requires e.body.AttemptEnded?
  {
    var (n, outcome) := (e.body.node, e.body.outcome);
    if n !in s.nodes then None
    else
      var node := s.nodes[n];
      var active := ActiveAttempt(node);
      if active.None? || active.value.id != e.body.attemptId then None
      else if e.context != Context(Some(run), Some(n), Some(active.value.id), Some(active.value.generation)) then None
      else if !OutcomeFits(s, e.body.kind, active.value.status, outcome) then None
      else
        var nodes := s.nodes[n := Ended(node, active.value, outcome)];
        Some(s.(nodes := if outcome.Succeeded? then Promoted(nodes) else nodes))
  }

  function Abandoned(nodes: map<Id, Node>): map<Id, Node> {
    map n | n in nodes ::
      if nodes[n].status.Blocked? || nodes[n].status.Ready? then nodes[n].(status := NodeStatus.Cancelled) else nodes[n]
  }

  /** The effect of an event on the Run itself. */
  function RunEvent(run: nat, s: RunState, e: Event): Option<RunState>
    requires !e.body.GraphNodesAppended? && !e.body.AttemptAccepted? && !e.body.AttemptEnded?
  {
    match e.body
    case RunStarted(_) => if s.status.Created? && s.nodes != map[] then Some(s.(status := RunStatus.Running)) else None
    case RunPaused(_, _) => if s.status.Running? then Some(s.(status := RunStatus.Paused)) else None
    case RunResumed(_) => if s.status.Paused? then Some(s.(status := RunStatus.Running)) else None
    case RunAwaitingUser(_, request, _, _) =>
      if s.status.Running? && e.context.run == Some(run) && e.cause == HashOf(e.body)
      then Some(s.(status := RunStatus.AwaitingUser, request := Some(request))) else None
    case RunUserResponseReceived(_, request, response) =>
      if s.status.AwaitingUser? && e.context.run == Some(run) && s.request == Some(request) && e.cause == OfResponse(response)
      then Some(s.(status := RunStatus.Running, request := None)) else None
    case RunCancellationRequested(_, _) =>
      if (s.status.Created? || s.status.Running? || s.status.Paused? || s.status.AwaitingUser?)
         && e.context.run == Some(run) && e.cause == HashOf(e.body)
      then Some(s.(status := RunStatus.Cancelling, request := None, cancelEvent := Some(e.id))) else None
    case RunCancelled(_, requestEvent) =>
      if s.status.Cancelling? && e.context.run == Some(run) && s.cancelEvent == Some(requestEvent)
         && e.cause == OfEvent(requestEvent) && (forall n :: n in s.nodes ==> !Active(s.nodes[n]))
      then Some(s.(status := RunStatus.Cancelled, nodes := Abandoned(s.nodes))) else None
    case _ => None
  }

  /** A running Run ends when a node failed and nothing can progress, or when every node succeeded. */
  function Settled(s: RunState): RunState {
    if !s.status.Running? || s.nodes == map[] then s
    else if (exists n :: n in s.nodes && s.nodes[n].status.Failed?) && !(exists n :: n in s.nodes && Progressing(s.nodes[n]))
    then s.(status := RunStatus.Failed)
    else if forall n :: n in s.nodes ==> s.nodes[n].status.Succeeded? then s.(status := RunStatus.Succeeded)
    else s
  }

  ghost function Transition(run: nat, s: RunState, e: Event): Option<RunState> {
    match e.body
    case GraphNodesAppended(_, _, _, _) => Append(run, s, e.body)
    case AttemptAccepted(_, _) => Accept(run, s, e)
    case AttemptEnded(_, _, _, _, _) => End(run, s, e)
    case _ => RunEvent(run, s, e)
  }

  ghost function Applied(run: nat, s: Option<RunState>, e: Event): Option<RunState> {
    if e.context.run.Some? && e.context.run != Some(run) then None
    else
      match s
      case None => Initial(run, e)
      case Some(state) =>
        if e.version != state.version + 1 then None
        else
          var t := Transition(run, state, e);
          if t.None? then None else Some(Settled(t.value).(version := e.version))
  }

  /** The state after a whole stream; a stream with an event that does not apply has none. */
  ghost function Fold(run: nat, events: seq<Event>): Option<RunState> {
    if events == [] then None
    else
      var (front, last) := (events[..|events| - 1], events[|events| - 1]);
      if front == [] then Applied(run, None, last)
      else
        var s := Fold(run, front);
        if s.None? then None else Applied(run, s, last)
  }

  // ----- What every reachable state keeps -----

  /** A node's attempts, its status and its dependencies agree. */
  ghost predicate AttemptsOk(node: Node) {
    var a := node.attempts;
    && |a| <= node.spec.maxAttempts
    && (forall i :: 0 <= i < |a| ==> a[i].generation == i + 1)
    && (forall i :: 0 <= i < |a| - 1 ==> a[i].status.Failed?)
    && (node.status.Running? <==> |a| > 0 && a[|a| - 1].status.Accepted?)
    && (node.status.AwaitingReconciliation? <==> |a| > 0 && a[|a| - 1].status.OutcomeUnknown?)
    && (node.status.Succeeded? <==> |a| > 0 && a[|a| - 1].status.Succeeded?)
    && (node.status.Failed? <==> |a| == node.spec.maxAttempts && a[|a| - 1].status.Failed?)
    && (node.status.Blocked? ==> a == [])
    && (node.status.Ready? ==> |a| < node.spec.maxAttempts && (a != [] ==> a[|a| - 1].status.Failed?))
    && (node.status.Cancelled? ==> a == [] || a[|a| - 1].status.Failed? || a[|a| - 1].status.Cancelled?)
  }

  /** A node's place in the graph and the Run. */
  ghost predicate PlaceOk(s: RunState, n: Id)
    requires n in s.nodes
  {
    var node := s.nodes[n];
    && node.spec.id == n
    && (node.status.Cancelled? ==> s.status.Cancelling? || s.status.Cancelled?)
    && (node.status.Blocked? ==> exists d :: d in node.spec.dependsOn && d in s.nodes && !s.nodes[d].status.Succeeded?)
    && (node.attempts != [] || !(node.status.Blocked? || node.status.Cancelled?) ==> DependenciesSucceeded(s.nodes, node.spec))
  }

  ghost predicate NodesOk(s: RunState) {
    && (forall n :: n in s.nodes ==> AttemptsOk(s.nodes[n]))
    && (forall n :: n in s.nodes ==> PlaceOk(s, n))
  }

  ghost predicate AttemptIdsUnique(nodes: map<Id, Node>) {
    forall n, m {:trigger IdsApart(nodes, n, m)} :: n in nodes && m in nodes ==> IdsApart(nodes, n, m)
  }

  ghost predicate IdsApart(nodes: map<Id, Node>, n: Id, m: Id)
    requires n in nodes && m in nodes
  {
    forall i, j :: 0 <= i < |nodes[n].attempts| && 0 <= j < |nodes[m].attempts| && (n != m || i != j) ==>
                     nodes[n].attempts[i].id != nodes[m].attempts[j].id
  }

  ghost predicate GraphOk(s: RunState) {
    Envelope(Specs(s.nodes), s.maxNodes, s.maxDepth)
  }

  ghost predicate StatusOk(s: RunState) {
    && OpenStatusOk(s)
    && (s.status.Running? ==> Settled(s).status.Running?)
  }

  /** The part of the status conditions that holds even before a running Run is settled. */
  ghost predicate OpenStatusOk(s: RunState) {
    && (s.request.Some? <==> s.status.AwaitingUser?)
    && (s.cancelEvent.Some? <==> s.status.Cancelling? || s.status.Cancelled?)
    && (s.status in {RunStatus.Running, RunStatus.Paused, RunStatus.AwaitingUser, RunStatus.Succeeded, RunStatus.Failed} ==> s.nodes != map[])
    && (s.status.Cancelled? ==> forall n :: n in s.nodes ==> !s.nodes[n].status.Blocked? && !Progressing(s.nodes[n]))
    && (s.status.Succeeded? ==> forall n :: n in s.nodes ==> s.nodes[n].status.Succeeded?)
    && (s.status.Failed? ==> forall n :: n in s.nodes ==> !Progressing(s.nodes[n]))
  }

  ghost predicate WellFormed(s: RunState) {
    GraphOk(s) && NodesOk(s) && AttemptIdsUnique(s.nodes) && StatusOk(s)
  }

  /** The one thing no command ever records: an attempt that starts in another state. */
  predicate Emitted(e: Event) {
    e.body.AttemptAccepted? ==> e.body.attempt.status.Accepted?
  }

  /** In an acyclic graph, some blocked node waits only for nodes that are not blocked. */
  lemma {:induction false} BlockedWaits(s: RunState, b: Id) returns (d: Id)
    requires GraphOk(s) && (forall n :: n in s.nodes ==> PlaceOk(s, n)) && b in s.nodes && s.nodes[b].status.Blocked?
    ensures d in s.nodes && !s.nodes[d].status.Blocked? && !s.nodes[d].status.Succeeded?
  {
    var blocked := set n | n in s.nodes && s.nodes[n].status.Blocked?;
    var g := Specs(s.nodes);
    assert Chain(g, [b]);
    var n := Minimal(g, s.maxDepth, blocked, [b]);
    assert PlaceOk(s, n);
    d :| d in g[n].dependsOn && d in s.nodes && !s.nodes[d].status.Succeeded?;
  }

  /** No running Run is stuck: some node can progress. Acyclicity is what makes this true. */
  lemma {:induction false} NotStuck(s: RunState)
    requires WellFormed(s) && s.status.Running?
    ensures exists n :: n in s.nodes && Progressing(s.nodes[n])
  {
    var n :| n in s.nodes && !s.nodes[n].status.Succeeded?;
    assert PlaceOk(s, n);
    if s.nodes[n].status.Blocked? {
      n := BlockedWaits(s, n);
      assert PlaceOk(s, n);
    }
    assert s.nodes[n].status.Failed? || Progressing(s.nodes[n]);
  }

  /** The open attempt of an active node is its last one. */
  lemma {:induction false} OpenIsLast(node: Node)
    requires AttemptsOk(node) && Active(node)
    ensures ActiveAttempt(node) == Some(node.attempts[|node.attempts| - 1])
  {
  }

  predicate Terminal(status: RunStatus) {
    status.Succeeded? || status.Failed? || status.Cancelled?
  }

  /** A finished Run accepts no event at all. */
  lemma {:induction false} TerminalIsFinal(run: nat, s: RunState, e: Event)
    requires WellFormed(s) && Terminal(s.status)
    ensures Applied(run, Some(s), e).None?
  {
    NoTransition(run, s, e);
  }

  lemma {:induction false} NoTransition(run: nat, s: RunState, e: Event)
    requires StatusOk(s) && Terminal(s.status)
    ensures Transition(run, s, e).None?
  {
    if e.body.AttemptEnded? && e.body.node in s.nodes {
      assert !Active(s.nodes[e.body.node]);
      assert End(run, s, e).None?;
    }
  }

  // ----- Every accepted event keeps the invariant -----

  ghost predicate Open(s: RunState) {
    GraphOk(s) && NodesOk(s) && AttemptIdsUnique(s.nodes) && OpenStatusOk(s)
  }

  predicate Waiting(node: Node) {
    node.attempts == [] && (node.status.Blocked? || node.status.Cancelled?)
  }

  /** A node keeps its place when the success of its dependencies did not change. */
  lemma {:induction false} PlaceKept(s: RunState, t: RunState, n: Id)
    requires n in s.nodes && n in t.nodes && PlaceOk(s, n) && t.nodes[n].spec == s.nodes[n].spec
    requires forall d :: d in s.nodes[n].spec.dependsOn ==>
                           d in s.nodes && d in t.nodes && (t.nodes[d].status.Succeeded? <==> s.nodes[d].status.Succeeded?)
    requires t.nodes[n].status.Blocked? ==> s.nodes[n].status.Blocked?
    requires Waiting(s.nodes[n]) ==> Waiting(t.nodes[n])
    requires t.nodes[n].status.Cancelled? ==> t.status.Cancelling? || t.status.Cancelled?
    ensures PlaceOk(t, n)
  {
  }

  lemma {:induction false} DependenciesKnown(s: RunState, n: Id)
    requires GraphOk(s) && n in s.nodes
    ensures forall d :: d in s.nodes[n].spec.dependsOn ==> d in s.nodes
  {
    forall d | d in s.nodes[n].spec.dependsOn
      ensures d in s.nodes
    {
      var g := Specs(s.nodes);
      assert DependencyClosed(g);
      assert n in g && d in g[n].dependsOn;
      assert d in g;
    }
  }

  lemma {:induction false} AppendedOld(s: RunState, t: RunState, added: Nodes, n: Id)
    requires t.nodes == Appended(s.nodes, added) && t.status == s.status && s.nodes.Keys !! added.Keys
    requires n in s.nodes && PlaceOk(s, n) && forall d :: d in s.nodes[n].spec.dependsOn ==> d in s.nodes
    ensures t.nodes[n] == s.nodes[n] && PlaceOk(t, n)
  {
    PlaceKept(s, t, n);
  }

  lemma {:induction false} AppendedNew(s: RunState, t: RunState, added: Nodes, n: Id)
    requires t.nodes == Appended(s.nodes, added) && s.nodes.Keys !! added.Keys && n in added && added[n].id == n
    requires forall d :: d in added[n].dependsOn ==> d in t.nodes
    ensures PlaceOk(t, n) && AttemptsOk(t.nodes[n])
  {
    forall d | d in added[n].dependsOn
      ensures t.nodes[d].status.Succeeded? <==> d in s.nodes && s.nodes[d].status.Succeeded?
    {
    }
  }

  lemma {:induction false} AppendedSpecs(nodes: map<Id, Node>, added: Nodes)
    ensures Specs(nodes).Keys == nodes.Keys
    ensures Specs(Appended(nodes, added)) == Specs(nodes) + added
  {
  }

  lemma {:induction false} AppendedNodes(s: RunState, t: RunState, specs: seq<NodeSpec>)
    requires GraphOk(s) && GraphOk(t) && NodesOk(s) && s.nodes.Keys !! Dict(specs).Keys
    requires t.nodes == Appended(s.nodes, Dict(specs)) && t.status == s.status
    ensures NodesOk(t)
  {
    DictHas(specs);
    forall n | n in t.nodes
      ensures AttemptsOk(t.nodes[n]) && PlaceOk(t, n)
    {
      DependenciesKnown(t, n);
      if n in s.nodes {
        DependenciesKnown(s, n);
        AppendedOld(s, t, Dict(specs), n);
      } else {
        AppendedNew(s, t, Dict(specs), n);
      }
    }
  }

  lemma {:induction false} AppendKeeps(run: nat, s: RunState, body: Body)
    requires WellFormed(s) && body.GraphNodesAppended? && Append(run, s, body).Some?
    ensures Open(Append(run, s, body).value)
  {
    var t := Append(run, s, body).value;
    AppendedSpecs(s.nodes, Dict(body.specs));
    AppendedNodes(s, t, body.specs);
    AppendedIds(s.nodes, Dict(body.specs));
  }

  lemma {:induction false} AppendedIds(nodes: map<Id, Node>, added: Nodes)
    requires AttemptIdsUnique(nodes) && nodes.Keys !! added.Keys
    ensures AttemptIdsUnique(Appended(nodes, added))
  {
    forall n, m | n in nodes && m in nodes
      ensures IdsApart(Appended(nodes, added), n, m)
    {
      assert IdsApart(nodes, n, m);
    }
  }

  lemma {:induction false} AcceptedNode(node: Node, attempt: Attempt)
    requires AttemptsOk(node) && node.status.Ready? && attempt.status.Accepted? && attempt.generation == |node.attempts| + 1
    ensures AttemptsOk(node.(status := NodeStatus.Running, attempts := node.attempts + [attempt]))
  {
  }

  lemma {:induction false} AcceptedIds(nodes: map<Id, Node>, n: Id, attempt: Attempt)
    requires AttemptIdsUnique(nodes) && n in nodes && !UsedAttempt(nodes, attempt.id)
    ensures AttemptIdsUnique(nodes[n := nodes[n].(status := NodeStatus.Running, attempts := nodes[n].attempts + [attempt])])
  {
    var more := nodes[n := nodes[n].(status := NodeStatus.Running, attempts := nodes[n].attempts + [attempt])];
    forall m, k | m in nodes && k in nodes
      ensures IdsApart(more, m, k)
    {
      assert IdsApart(nodes, m, k);
    }
  }

  lemma {:induction false} AcceptedPlace(s: RunState, t: RunState, n: Id, attempt: Attempt, m: Id)
    requires n in s.nodes && s.nodes[n].status.Ready? && m in s.nodes && PlaceOk(s, m) && t.status == s.status
    requires t.nodes == s.nodes[n := s.nodes[n].(status := NodeStatus.Running, attempts := s.nodes[n].attempts + [attempt])]
    requires forall d :: d in s.nodes[m].spec.dependsOn ==> d in s.nodes
    ensures PlaceOk(t, m)
  {
    PlaceKept(s, t, m);
  }

  lemma {:induction false} SpecsKept(nodes: map<Id, Node>, n: Id, node: Node)
    requires n in nodes && node.spec == nodes[n].spec
    ensures Specs(nodes[n := node]) == Specs(nodes)
  {
  }

  lemma {:induction false} AcceptedPlaces(s: RunState, t: RunState, n: Id, attempt: Attempt)
    requires GraphOk(s) && n in s.nodes && s.nodes[n].status.Ready? && t.status == s.status
    requires t.nodes == s.nodes[n := s.nodes[n].(status := NodeStatus.Running, attempts := s.nodes[n].attempts + [attempt])]
    requires forall m :: m in s.nodes ==> PlaceOk(s, m)
    ensures forall m :: m in t.nodes ==> PlaceOk(t, m)
  {
    forall m | m in t.nodes
      ensures PlaceOk(t, m)
    {
      DependenciesKnown(s, m);
      AcceptedPlace(s, t, n, attempt, m);
    }
  }

  lemma {:induction false} AcceptKeeps(run: nat, s: RunState, e: Event)
    requires WellFormed(s) && e.body.AttemptAccepted? && Emitted(e) && Accept(run, s, e).Some?
    ensures Open(Accept(run, s, e).value)
  {
    var t := Accept(run, s, e).value;
    AcceptedNode(s.nodes[e.body.node], e.body.attempt);
    AcceptedIds(s.nodes, e.body.node, e.body.attempt);
    SpecsKept(s.nodes, e.body.node, t.nodes[e.body.node]);
    AcceptedPlaces(s, t, e.body.node, e.body.attempt);
  }

  /** The node an attempt's end leaves behind. */
  function Ended(node: Node, attempt: Attempt, outcome: AttemptStatus): Node {
    var front := if node.attempts == [] then [] else node.attempts[..|node.attempts| - 1];
    node.(status := StatusAfter(outcome, node), attempts := front + [attempt.(status := outcome)])
  }

  lemma {:induction false} EndedNode(node: Node, outcome: AttemptStatus)
    requires AttemptsOk(node) && Active(node) && !outcome.Accepted?
    requires outcome.OutcomeUnknown? ==> node.status.Running?
    ensures AttemptsOk(Ended(node, ActiveAttempt(node).value, outcome))
    ensures |Ended(node, ActiveAttempt(node).value, outcome).attempts| == |node.attempts|
    ensures forall i :: 0 <= i < |node.attempts| ==>
                          Ended(node, ActiveAttempt(node).value, outcome).attempts[i].id == node.attempts[i].id
  {
    OpenIsLast(node);
  }

  lemma {:induction false} SameIds(nodes: map<Id, Node>, others: map<Id, Node>)
    requires AttemptIdsUnique(nodes) && others.Keys == nodes.Keys
    requires forall n :: n in nodes ==> |others[n].attempts| == |nodes[n].attempts|
    requires forall n, i :: n in nodes && 0 <= i < |nodes[n].attempts| ==> others[n].attempts[i].id == nodes[n].attempts[i].id
    ensures AttemptIdsUnique(others)
  {
    forall n, m | n in nodes && m in nodes
      ensures IdsApart(others, n, m)
    {
      assert IdsApart(nodes, n, m);
    }
  }

  /** A node's place after an end that is no success. */
  lemma {:induction false} UnfinishedPlace(s: RunState, t: RunState, n: Id, ended: Node, m: Id)
    requires n in s.nodes && Active(s.nodes[n]) && m in s.nodes && PlaceOk(s, m) && t.status == s.status
    requires t.nodes == s.nodes[n := ended] && ended.spec == s.nodes[n].spec
    requires !ended.status.Succeeded? && !ended.status.Blocked? && (ended.status.Cancelled? ==> s.status.Cancelling?)
    requires forall d :: d in s.nodes[m].spec.dependsOn ==> d in s.nodes
    ensures PlaceOk(t, m)
  {
    PlaceKept(s, t, m);
  }

  /** A node's place after a success released whatever waited for it alone. */
  lemma {:induction false} ReleasedPlace(s: RunState, t: RunState, n: Id, ended: Node, m: Id)
    requires n in s.nodes && Active(s.nodes[n]) && m in s.nodes && PlaceOk(s, m) && t.status == s.status
    requires t.nodes == Promoted(s.nodes[n := ended]) && ended.spec == s.nodes[n].spec && ended.status.Succeeded?
    requires forall d :: d in s.nodes[m].spec.dependsOn ==> d in s.nodes
    ensures PlaceOk(t, m)
  {
    var mid := s.nodes[n := ended];
    assert forall d :: d in s.nodes ==> (t.nodes[d].status.Succeeded? <==> mid[d].status.Succeeded?);
    if !Waiting(s.nodes[m]) {
      assert DependenciesSucceeded(t.nodes, s.nodes[m].spec);
    } else if DependenciesSucceeded(mid, s.nodes[m].spec) {
      assert DependenciesSucceeded(t.nodes, s.nodes[m].spec);
    }
  }

  lemma {:induction false} PromotedNode(nodes: map<Id, Node>, n: Id)
    requires n in nodes && AttemptsOk(nodes[n])
    ensures AttemptsOk(Promoted(nodes)[n])
  {
  }

  lemma {:induction false} EndPlaces(s: RunState, t: RunState, n: Id, ended: Node)
    requires GraphOk(s) && (forall m :: m in s.nodes ==> PlaceOk(s, m)) && n in s.nodes && Active(s.nodes[n])
    requires ended.spec == s.nodes[n].spec && !ended.status.Blocked? && (ended.status.Cancelled? ==> s.status.Cancelling?)
    requires t.status == s.status
    requires t.nodes == if ended.status.Succeeded? then Promoted(s.nodes[n := ended]) else s.nodes[n := ended]
    ensures forall m :: m in t.nodes ==> PlaceOk(t, m)
  {
    forall m | m in t.nodes
      ensures PlaceOk(t, m)
    {
      DependenciesKnown(s, m);
      if ended.status.Succeeded? {
        ReleasedPlace(s, t, n, ended, m);
      } else {
        UnfinishedPlace(s, t, n, ended, m);
      }
    }
  }

  lemma {:induction false} EndAttempts(nodes: map<Id, Node>, n: Id, ended: Node)
    requires (forall m :: m in nodes ==> AttemptsOk(nodes[m])) && AttemptIdsUnique(nodes) && n in nodes
    requires AttemptsOk(ended) && |ended.attempts| == |nodes[n].attempts|
    requires forall i :: 0 <= i < |ended.attempts| ==> ended.attempts[i].id == nodes[n].attempts[i].id
    ensures forall m :: m in nodes ==> AttemptsOk(nodes[n := ended][m]) && AttemptsOk(Promoted(nodes[n := ended])[m])
    ensures AttemptIdsUnique(nodes[n := ended]) && AttemptIdsUnique(Promoted(nodes[n := ended]))
  {
    var mid := nodes[n := ended];
    SameIds(nodes, mid);
    SameIds(mid, Promoted(mid));
    forall m | m in nodes
      ensures AttemptsOk(mid[m]) && AttemptsOk(Promoted(mid)[m])
    {
      PromotedNode(mid, m);
    }
  }

  lemma {:induction false} PromotedSpecs(nodes: map<Id, Node>)
    ensures Specs(Promoted(nodes)) == Specs(nodes) && Specs(Abandoned(nodes)) == Specs(nodes)
  {
  }

  /** What an accepted end does to the Run. */
  lemma {:induction false} EndShape(run: nat, s: RunState, e: Event)
    requires e.body.AttemptEnded? && End(run, s, e).Some? && e.body.node in s.nodes
    requires AttemptsOk(s.nodes[e.body.node])
    ensures var node := s.nodes[e.body.node];
            && Active(node) && OutcomeFits(s, e.body.kind, ActiveAttempt(node).value.status, e.body.outcome)
            && (e.body.outcome.OutcomeUnknown? ==> node.status.Running?)
            && var mid := s.nodes[e.body.node := Ended(node, ActiveAttempt(node).value, e.body.outcome)];
               End(run, s, e).value == s.(nodes := if e.body.outcome.Succeeded? then Promoted(mid) else mid)
  {
    OpenIsLast(s.nodes[e.body.node]);
  }

  lemma {:induction false} EndStatus(s: RunState, t: RunState, n: Id)
    requires OpenStatusOk(s) && n in s.nodes && Active(s.nodes[n]) && t == s.(nodes := t.nodes) && t.nodes.Keys == s.nodes.Keys
    ensures OpenStatusOk(t)
  {
  }

  lemma {:induction false} EndKeeps(run: nat, s: RunState, e: Event)
    requires WellFormed(s) && e.body.AttemptEnded? && End(run, s, e).Some?
    ensures Open(End(run, s, e).value)
  {
    var t := End(run, s, e).value;
    var n := e.body.node;
    EndShape(run, s, e);
    EndStatus(s, t, n);
    EndedNode(s.nodes[n], e.body.outcome);
    EndRest(s, t, n, Ended(s.nodes[n], ActiveAttempt(s.nodes[n]).value, e.body.outcome));
  }

  lemma {:induction false} EndRest(s: RunState, t: RunState, n: Id, ended: Node)
    requires GraphOk(s) && NodesOk(s) && AttemptIdsUnique(s.nodes) && n in s.nodes && Active(s.nodes[n])
    requires AttemptsOk(ended) && |ended.attempts| == |s.nodes[n].attempts| && ended.spec == s.nodes[n].spec
    requires forall i :: 0 <= i < |ended.attempts| ==> ended.attempts[i].id == s.nodes[n].attempts[i].id
    requires !ended.status.Blocked? && (ended.status.Cancelled? ==> s.status.Cancelling?)
    requires t == s.(nodes := if ended.status.Succeeded? then Promoted(s.nodes[n := ended]) else s.nodes[n := ended])
    ensures GraphOk(t) && NodesOk(t) && AttemptIdsUnique(t.nodes)
  {
    EndAttempts(s.nodes, n, ended);
    SpecsKept(s.nodes, n, ended);
    PromotedSpecs(s.nodes[n := ended]);
    EndPlaces(s, t, n, ended);
  }

  lemma {:induction false} PlacesKept(s: RunState, t: RunState)
    requires (forall n :: n in s.nodes ==> PlaceOk(s, n)) && t.nodes == s.nodes
    requires s.status.Cancelling? || s.status.Cancelled? ==> t.status.Cancelling? || t.status.Cancelled?
    ensures forall n :: n in t.nodes ==> PlaceOk(t, n)
  {
    forall n | n in t.nodes
      ensures PlaceOk(t, n)
    {
      assert PlaceOk(s, n);
    }
  }

  lemma {:induction false} AbandonedIds(nodes: map<Id, Node>)
    requires AttemptIdsUnique(nodes)
    ensures AttemptIdsUnique(Abandoned(nodes))
  {
    SameIds(nodes, Abandoned(nodes));
  }

  lemma {:induction false} AbandonedNodes(s: RunState, t: RunState)
    requires GraphOk(s) && NodesOk(s) && t.status.Cancelled? && t.nodes == Abandoned(s.nodes)
    ensures NodesOk(t)
  {
    forall n | n in t.nodes
      ensures PlaceOk(t, n) && AttemptsOk(t.nodes[n])
    {
      DependenciesKnown(s, n);
      AbandonedPlace(s, t, n);
    }
  }

  lemma {:induction false} AbandonedKeeps(s: RunState, t: RunState)
    requires Open(s) && s.status.Cancelling? && t == s.(status := RunStatus.Cancelled, nodes := Abandoned(s.nodes))
    ensures GraphOk(t) && NodesOk(t) && AttemptIdsUnique(t.nodes)
  {
    PromotedSpecs(s.nodes);
    AbandonedIds(s.nodes);
    AbandonedNodes(s, t);
  }

  lemma {:induction false} AbandonedPlace(s: RunState, t: RunState, n: Id)
    requires t.status.Cancelled? && t.nodes == Abandoned(s.nodes) && n in s.nodes && PlaceOk(s, n) && AttemptsOk(s.nodes[n])
    requires forall d :: d in s.nodes[n].spec.dependsOn ==> d in s.nodes
    ensures PlaceOk(t, n) && AttemptsOk(t.nodes[n])
  {
    PlaceKept(s, t, n);
  }

  lemma {:induction false} RunEventStatus(run: nat, s: RunState, e: Event)
    requires !e.body.GraphNodesAppended? && !e.body.AttemptAccepted? && !e.body.AttemptEnded?
    requires StatusOk(s) && RunEvent(run, s, e).Some?
    ensures OpenStatusOk(RunEvent(run, s, e).value)
  {
  }

  /** What an event on the Run itself may change. */
  lemma {:induction false} RunEventShape(run: nat, s: RunState, e: Event)
    requires !e.body.GraphNodesAppended? && !e.body.AttemptAccepted? && !e.body.AttemptEnded?
    requires RunEvent(run, s, e).Some?
    ensures var t := RunEvent(run, s, e).value;
            if e.body.RunCancelled? then s.status.Cancelling? && t == s.(status := RunStatus.Cancelled, nodes := Abandoned(s.nodes))
            else
              && t.nodes == s.nodes && t.maxNodes == s.maxNodes && t.maxDepth == s.maxDepth
              && !s.status.Cancelling? && !s.status.Cancelled?
  {
  }

  lemma {:induction false} RunEventKeeps(run: nat, s: RunState, e: Event)
    requires !e.body.GraphNodesAppended? && !e.body.AttemptAccepted? && !e.body.AttemptEnded?
    requires WellFormed(s) && RunEvent(run, s, e).Some?
    ensures Open(RunEvent(run, s, e).value)
  {
    RunEventStatus(run, s, e);
    RunEventShape(run, s, e);
    NodesKept(s, RunEvent(run, s, e).value, e.body.RunCancelled?);
  }

  lemma {:induction false} NodesKept(s: RunState, t: RunState, abandons: bool)
    requires Open(s)
    requires if abandons then s.status.Cancelling? && t == s.(status := RunStatus.Cancelled, nodes := Abandoned(s.nodes))
             else
               && t.nodes == s.nodes && t.maxNodes == s.maxNodes && t.maxDepth == s.maxDepth
               && !s.status.Cancelling? && !s.status.Cancelled?
    ensures GraphOk(t) && NodesOk(t) && AttemptIdsUnique(t.nodes)
  {
    if abandons {
      AbandonedKeeps(s, t);
    } else {
      PlacesKept(s, t);
    }
  }

  lemma {:induction false} SettledStatus(s: RunState, version: nat)
    requires OpenStatusOk(s) && (s.status.Running? ==> forall n :: n in s.nodes ==> !s.nodes[n].status.Cancelled?)
    ensures StatusOk(Settled(s).(version := version))
  {
  }

  lemma {:induction false} SettledKeeps(s: RunState, version: nat)
    requires Open(s)
    ensures WellFormed(Settled(s).(version := version))
  {
    var t := Settled(s).(version := version);
    assert forall n :: n in s.nodes && s.status.Running? && PlaceOk(s, n) ==> !s.nodes[n].status.Cancelled?;
    SettledStatus(s, version);
    PlacesKept(s, t);
  }

  /** Every accepted event keeps the whole invariant. */
  lemma {:induction false} StepKeeps(run: nat, s: RunState, e: Event)
    requires WellFormed(s) && Emitted(e) && Applied(run, Some(s), e).Some?
    ensures WellFormed(Applied(run, Some(s), e).value)
  {
    var t := Transition(run, s, e).value;
    match e.body {
      case GraphNodesAppended(_, _, _, _) => AppendKeeps(run, s, e.body);
      case AttemptAccepted(_, _) => AcceptKeeps(run, s, e);
      case AttemptEnded(_, _, _, _, _) => EndKeeps(run, s, e);
      case _ => RunEventKeeps(run, s, e);
    }
    SettledKeeps(t, e.version);
  }

  lemma {:induction false} InitialOk(run: nat, e: Event)
    requires Initial(run, e).Some?
    ensures WellFormed(Initial(run, e).value)
  {
    var s := Initial(run, e).value;
    var g := Specs(s.nodes);
    assert g == map[];
    assert forall c :: Chain(g, c) ==> c[0] in g;
  }

  /** Every state a stream of emitted events reaches. */
  lemma {:induction false} ReachableOk(run: nat, events: seq<Event>)
    requires (forall e :: e in events ==> Emitted(e)) && Fold(run, events).Some?
    ensures WellFormed(Fold(run, events).value)
  {
    var front, last := events[..|events| - 1], events[|events| - 1];
    if front == [] {
      InitialOk(run, last);
    } else {
      ReachableOk(run, front);
      StepKeeps(run, Fold(run, front).value, last);
    }
  }

  // ----- What no event undoes -----

  predicate Closed(attempt: Attempt) {
    !attempt.status.Accepted? && !attempt.status.OutcomeUnknown?
  }

  /** The second node is a later state of the first: no closed attempt changed, none was renumbered. */
  predicate LaterNode(before: Node, after: Node) {
    && after.spec == before.spec
    && |before.attempts| <= |after.attempts|
    && (before.status.Succeeded? ==> after == before)
    && (before.status.Cancelled? ==> after == before)
    && forall i :: 0 <= i < |before.attempts| ==>
                     && after.attempts[i].id == before.attempts[i].id
                     && after.attempts[i].generation == before.attempts[i].generation
                     && (Closed(before.attempts[i]) ==> after.attempts[i] == before.attempts[i])
  }

  lemma {:induction false} EndLater(run: nat, s: RunState, e: Event, n: Id)
    requires NodesOk(s) && e.body.AttemptEnded? && End(run, s, e).Some? && n in s.nodes
    ensures n in End(run, s, e).value.nodes && LaterNode(s.nodes[n], End(run, s, e).value.nodes[n])
  {
    EndShape(run, s, e);
    EndedLater(s.nodes[e.body.node], e.body.outcome);
    assert s.nodes[n].status.Blocked? ==> AttemptsOk(s.nodes[n]);
  }

  lemma {:induction false} AppendLater(run: nat, s: RunState, body: Body, n: Id)
    requires body.GraphNodesAppended? && Append(run, s, body).Some? && n in s.nodes
    ensures n in Append(run, s, body).value.nodes && Append(run, s, body).value.nodes[n] == s.nodes[n]
  {
    AppendedSpecs(s.nodes, Dict(body.specs));
  }

  lemma {:induction false} AcceptLater(run: nat, s: RunState, e: Event, n: Id)
    requires e.body.AttemptAccepted? && Accept(run, s, e).Some? && n in s.nodes
    ensures n in Accept(run, s, e).value.nodes && LaterNode(s.nodes[n], Accept(run, s, e).value.nodes[n])
  {
  }

  lemma {:induction false} OtherLater(run: nat, s: RunState, e: Event, n: Id)
    requires !e.body.AttemptEnded? && Transition(run, s, e).Some? && n in s.nodes
    ensures n in Transition(run, s, e).value.nodes && LaterNode(s.nodes[n], Transition(run, s, e).value.nodes[n])
  {
    if e.body.GraphNodesAppended? {
      AppendLater(run, s, e.body, n);
    } else if e.body.AttemptAccepted? {
      AcceptLater(run, s, e, n);
    } else {
      RunEventShape(run, s, e);
    }
  }

  lemma {:induction false} AppliedNodes(run: nat, s: RunState, e: Event)
    requires Applied(run, Some(s), e).Some?
    ensures Transition(run, s, e).Some? && Applied(run, Some(s), e).value.nodes == Transition(run, s, e).value.nodes
  {
  }

  lemma {:induction false} EndTransition(run: nat, s: RunState, e: Event)
    requires e.body.AttemptEnded?
    ensures Transition(run, s, e) == End(run, s, e)
  {
  }

  /** No event removes a node, reopens or rewrites a closed attempt, or undoes a success. */
  lemma {:induction false} HistoryKept(run: nat, s: RunState, e: Event, n: Id)
    requires NodesOk(s) && Applied(run, Some(s), e).Some? && n in s.nodes
    ensures n in Applied(run, Some(s), e).value.nodes
    ensures LaterNode(s.nodes[n], Applied(run, Some(s), e).value.nodes[n])
  {
    AppliedNodes(run, s, e);
    if e.body.AttemptEnded? {
      EndTransition(run, s, e);
      EndLater(run, s, e, n);
    } else {
      OtherLater(run, s, e, n);
    }
  }

  lemma {:induction false} EndedLater(node: Node, outcome: AttemptStatus)
    requires AttemptsOk(node) && Active(node)
    ensures LaterNode(node, Ended(node, ActiveAttempt(node).value, outcome))
  {
    OpenIsLast(node);
  }

  /** Successes and closed attempts survive every later stream. */
  lemma {:induction false} HistoryIsPermanent(run: nat, events: seq<Event>, k: nat, n: Id)
    requires 0 < k <= |events| && (forall e :: e in events ==> Emitted(e)) && Fold(run, events).Some?
    ensures Fold(run, events[..k]).Some?
    ensures n in Fold(run, events[..k]).value.nodes ==>
              n in Fold(run, events).value.nodes && LaterNode(Fold(run, events[..k]).value.nodes[n], Fold(run, events).value.nodes[n])
    decreases |events|
  {
    if k == |events| {
      assert events[..k] == events;
    } else {
      var front, last := events[..|events| - 1], events[|events| - 1];
      HistoryIsPermanent(run, front, k, n);
      assert front[..k] == events[..k];
      ReachableOk(run, front);
      var s := Fold(run, front).value;
      if n in s.nodes {
        HistoryKept(run, s, last, n);
      }
    }
  }
}

/** Lifecycle commands over one event stream: deciding, replaying and checkpointing. */
module LifecycleController {
  import opened Common
  import opened Graph
  import opened Lifecycle

  /** The frozen configuration snapshot of a Run. */
  datatype Frozen = Frozen(run: nat, config: nat, registry: nat, workspace: Option<nat>, nodeLimit: int, depthLimit: nat)

  datatype Command =
    | Initialize
    | AppendNodes(specs: seq<NodeSpec>, expected: nat, key: nat, manifest: Option<nat>)
    | Start
    | Pause(reason: nat)
    | Resume
    | AwaitUser(request: nat, reason: nat, context: nat)
    | Respond(request: nat, response: nat)
    | RequestCancel(reason: nat)
    | CompleteCancel(requestEvent: nat)
    | AcceptAttempt(node: Id, attempt: Attempt, cause: nat)
    | CompleteAttempt(node: Id, attemptId: nat, generation: nat, unknown: bool, cause: nat)
    | CompleteVerified(node: Id, attemptId: nat, generation: nat, task: nat, evidence: nat)
    | ReconcileAttempt(node: Id, attemptId: nat, generation: nat, cause: nat)
    | CancelAttempt(node: Id, attemptId: nat, generation: nat, receipt: nat, cause: nat)

  // ----- The event a command asks for -----

  function KeyOf(c: Command): Key {
    match c
    case Initialize => KInit
    case AppendNodes(_, _, key, _) => KGraph(key)
    case Start => KStart
    case Pause(reason) => KPause(reason)
    case Resume => KResume
    case AwaitUser(request, _, _) => KAwait(request)
    case Respond(request, _) => KResponse(request)
    case RequestCancel(_) => KCancelRequest
    case CompleteCancel(_) => KCancelComplete
    case AcceptAttempt(_, attempt, _) => KAccepted(attempt.id)
    case CompleteAttempt(_, id, _, _, _) => KEnded(Completed, id)
    case CompleteVerified(_, id, _, _, _) => KEnded(Completed, id)
    case ReconcileAttempt(_, id, _, _) => KEnded(Reconciled, id)
    case CancelAttempt(_, id, _, _, _) => KEnded(Stopped, id)
  }

  function BodyOf(f: Frozen, c: Command): Body {
    match c
    case Initialize => RunInitialized(f.run, f.config, f.registry, f.workspace, f.nodeLimit, f.depthLimit)
    case AppendNodes(specs, expected, _, manifest) => GraphNodesAppended(expected + 1, SortedSpecs(specs), manifest, manifest)
    case Start => RunStarted(f.run)
    case Pause(reason) => RunPaused(f.run, reason)
    case Resume => RunResumed(f.run)
    case AwaitUser(request, reason, context) => RunAwaitingUser(f.run, request, reason, context)
    case Respond(request, response) => RunUserResponseReceived(f.run, request, response)
    case RequestCancel(reason) => RunCancellationRequested(f.run, reason)
    case CompleteCancel(requestEvent) => RunCancelled(f.run, requestEvent)
    case AcceptAttempt(node, attempt, _) => AttemptAccepted(node, attempt)
    case CompleteAttempt(node, id, _, unknown, _) =>
      AttemptEnded(Completed, node, id, if unknown then AttemptStatus.OutcomeUnknown else AttemptStatus.Failed, None)
    case CompleteVerified(node, id, _, task, evidence) =>
      AttemptEnded(Completed, node, id, AttemptStatus.Succeeded, Some((task, evidence)))
    case ReconcileAttempt(node, id, _, _) => AttemptEnded(Reconciled, node, id, AttemptStatus.Failed, None)
    case CancelAttempt(node, id, _, receipt, _) => AttemptEnded(Stopped, node, id, AttemptStatus.Cancelled, Some((receipt, receipt)))
  }

  function ContextOf(f: Frozen, c: Command): Context {
    match c
    case AcceptAttempt(node, attempt, _) => Context(Some(f.run), Some(node), Some(attempt.id), Some(attempt.generation))
    case CompleteAttempt(node, id, g, _, _) => Context(Some(f.run), Some(node), Some(id), Some(g))
    case CompleteVerified(node, id, g, _, _) => Context(Some(f.run), Some(node), Some(id), Some(g))
    case ReconcileAttempt(node, id, g, _) => Context(Some(f.run), Some(node), Some(id), Some(g))
    case CancelAttempt(node, id, g, _, _) => Context(Some(f.run), Some(node), Some(id), Some(g))
    case AwaitUser(_, _, _) => Context(Some(f.run), None, None, None)
    case Respond(_, _) => Context(Some(f.run), None, None, None)
    case RequestCancel(_) => Context(Some(f.run), None, None, None)
    case CompleteCancel(_) => Context(Some(f.run), None, None, None)
    case _ => Context(None, None, None, None)
  }

  function CauseOf(f: Frozen, c: Command): Cause {
    match c
    case AwaitUser(_, _, _) => HashOf(BodyOf(f, c))
    case RequestCancel(_) => HashOf(BodyOf(f, c))
    case Respond(_, response) => OfResponse(response)
    case CompleteCancel(requestEvent) => OfEvent(requestEvent)
    case AcceptAttempt(_, _, cause) => Other(cause)
    case CompleteAttempt(_, _, _, _, cause) => Other(cause)
    case CompleteVerified(_, _, _, task, _) => Other(task)
    case ReconcileAttempt(_, _, _, cause) => Other(cause)
    case CancelAttempt(_, _, _, _, cause) => Other(cause)
    case _ => Unstated
  }

  /** The store numbers its events; an event's identity is its position. */
  function EventOf(f: Frozen, c: Command, version: nat): Event {
    Event(version, version, KeyOf(c), ContextOf(f, c), CauseOf(f, c), BodyOf(f, c))
  }

  // ----- Deciding -----

  /** Input a command refuses before it looks at the stream. */
  predicate Sensible(c: Command) {
    match c
    case AppendNodes(specs, _, _, manifest) => specs != [] && (manifest.None? ==> forall x :: x in specs ==> x.contract.None?)
    case AcceptAttempt(_, attempt, _) => attempt.status.Accepted?
    case _ => true
  }

  predicate CurrentAttempt(s: RunState, n: Id, id: nat, generation: nat, status: AttemptStatus) {
    && n in s.nodes
    && var active := ActiveAttempt(s.nodes[n]);
       active.Some? && active.value.id == id && active.value.generation == generation && active.value.status == status
  }

  predicate NoneActive(s: RunState) {
    forall n :: n in s.nodes ==> !Active(s.nodes[n])
  }

  predicate AppendFits(f: Frozen, s: RunState, c: Command)
    requires c.AppendNodes?
  {
    && (s.status.Created? || s.status.Running?)
    && s.graphVersion == c.expected
    && (c.manifest.Some? && s.policy.Some? ==> c.manifest == s.policy)
    && forall x :: x in c.specs && x.contract.Some? ==>
         && x.contract.value.run == f.run && x.contract.value.config == f.config
         && x.contract.value.registry == f.registry && Some(x.contract.value.policy) == c.manifest
  }

  predicate AcceptFits(s: RunState, n: Id, attempt: Attempt) {
    && n in s.nodes && s.status.Running? && s.nodes[n].status.Ready?
    && attempt.generation == |s.nodes[n].attempts| + 1
    && !UsedAttempt(s.nodes, attempt.id)
    && |s.nodes[n].attempts| < s.nodes[n].spec.maxAttempts
  }

  /** The condition under which a command's decision appends its event. */
  ghost predicate Guard(f: Frozen, s: RunState, c: Command) {
    match c
    case Initialize => false
    case AppendNodes(specs, _, _, _) => AppendFits(f, s, c) && Allowed(Specs(s.nodes), SortedSpecs(specs), f.nodeLimit, f.depthLimit)
    case Start => s.status.Created? && s.nodes != map[]
    case Pause(_) => s.status.Running?
    case Resume => s.status.Paused?
    case AwaitUser(_, _, _) => s.status.Running?
    case Respond(request, _) => s.status.AwaitingUser? && s.request == Some(request)
    case RequestCancel(_) => s.status.Created? || s.status.Running? || s.status.Paused? || s.status.AwaitingUser?
    case CompleteCancel(_) => s.status.Cancelling? && NoneActive(s)
    case AcceptAttempt(n, attempt, _) => AcceptFits(s, n, attempt)
    case CompleteAttempt(n, id, g, _, _) => CurrentAttempt(s, n, id, g, AttemptStatus.Accepted)
    case CompleteVerified(n, id, g, _, _) => CurrentAttempt(s, n, id, g, AttemptStatus.Accepted)
    case ReconcileAttempt(n, id, g, _) => CurrentAttempt(s, n, id, g, AttemptStatus.OutcomeUnknown)
    case CancelAttempt(n, id, g, _, _) => s.status.Cancelling? && CurrentAttempt(s, n, id, g, AttemptStatus.Accepted)
  }

  predicate Issued(events: seq<Event>, key: Key) {
    exists i :: 0 <= i < |events| && events[i].key == key
  }

  /** The stream holds this very command's event under its key. */
  predicate Answered(f: Frozen, events: seq<Event>, c: Command) {
    exists e :: e in events && e.key == KeyOf(c) && e.body == BodyOf(f, c)
  }

  lemma {:induction false} NotAnswered(f: Frozen, events: seq<Event>, c: Command)
    requires !Issued(events, KeyOf(c))
    ensures !Answered(f, events, c)
  {
    assert forall e :: e in events ==> e.key != KeyOf(c);
  }

  ghost predicate Decides(f: Frozen, events: seq<Event>, c: Command) {
    && Sensible(c) && !Issued(events, KeyOf(c))
    && if c.Initialize? then events == [] else Fold(f.run, events).Some? && Guard(f, Fold(f.run, events).value, c)
  }

  /** The stream after one atomic decision. */
  ghost function After(f: Frozen, events: seq<Event>, c: Command): seq<Event> {
    if Decides(f, events, c) then events + [EventOf(f, c, |events| + 1)] else events
  }

  ghost function AfterAll(f: Frozen, events: seq<Event>, cs: seq<Command>): seq<Event> {
    if cs == [] then events else After(f, AfterAll(f, events, cs[..|cs| - 1]), cs[|cs| - 1])
  }

  // ----- What every stream keeps -----

  /** The latest cancellation request of a stream. */
  function LastRequest(events: seq<Event>): Option<nat> {
    if events == [] then None
    else
      var last := events[|events| - 1];
      if last.body.RunCancellationRequested? then Some(last.id) else LastRequest(events[..|events| - 1])
  }

  ghost predicate Matches(f: Frozen, events: seq<Event>, s: RunState) {
    && s.config == f.config && s.registry == f.registry && s.workspace == f.workspace
    && s.maxNodes == f.nodeLimit && s.maxDepth == f.depthLimit && s.version == |events|
    && s.cancelEvent == LastRequest(events)
  }

  /** The stream as the store keeps it: contiguous versions, one event per idempotency key. */
  ghost predicate Log(events: seq<Event>) {
    && (forall e :: e in events ==> Emitted(e))
    && (forall e :: e in events && e.body.RunCancellationRequested? ==> e.key == KCancelRequest)
    && (forall i :: 0 <= i < |events| ==> events[i].version == i + 1)
    && (forall i, j :: 0 <= i < j < |events| ==> events[i].key != events[j].key)
  }

  /** A stream that replays to a well-formed state of this Run. */
  ghost predicate Sound(f: Frozen, events: seq<Event>) {
    && Log(events)
    && (events != [] ==>
          && events[0].body == BodyOf(f, Initialize)
          && Fold(f.run, events).Some? && WellFormed(Fold(f.run, events).value)
          && Matches(f, events, Fold(f.run, events).value))
  }

  lemma {:induction false} FoldMore(run: nat, events: seq<Event>, e: Event)
    requires events != []
    ensures Fold(run, events + [e]) == if Fold(run, events).None? then None else Applied(run, Fold(run, events), e)
  {
    assert (events + [e])[..|events|] == events;
  }

  lemma {:induction false} AppendDecision(f: Frozen, s: RunState, c: Command)
    requires c.AppendNodes? && Sensible(c) && Guard(f, s, c)
    requires s.config == f.config && s.registry == f.registry && s.maxNodes == f.nodeLimit && s.maxDepth == f.depthLimit
    ensures Append(f.run, s, BodyOf(f, c)).Some?
  {
    SortedSpecsCanonical(c.specs);
    forall x | x in SortedSpecs(c.specs)
      ensures x in c.specs
    {
      assert x in multiset(SortedSpecs(c.specs));
    }
  }

  lemma {:induction false} EndDecision(f: Frozen, s: RunState, c: Command, version: nat)
    requires c.CompleteAttempt? || c.CompleteVerified? || c.ReconcileAttempt? || c.CancelAttempt?
    requires Guard(f, s, c)
    ensures End(f.run, s, EventOf(f, c, version)).Some?
  {
  }

  lemma {:induction false} RunDecision(f: Frozen, s: RunState, c: Command, version: nat)
    requires c.Start? || c.Pause? || c.Resume? || c.AwaitUser? || c.Respond? || c.RequestCancel? || c.CompleteCancel?
    requires Guard(f, s, c) && (c.CompleteCancel? ==> s.cancelEvent == Some(c.requestEvent))
    ensures RunEvent(f.run, s, EventOf(f, c, version)).Some?
  {
  }

  lemma {:induction false} TransitionApplies(f: Frozen, s: RunState, c: Command)
    requires Transition(f.run, s, EventOf(f, c, s.version + 1)).Some?
    ensures Applied(f.run, Some(s), EventOf(f, c, s.version + 1)).Some?
  {
  }

  /** Every event a decision appends applies to the stream it is appended to. */
  lemma {:induction false} GuardedApplies(f: Frozen, s: RunState, c: Command)
    requires Sensible(c) && Guard(f, s, c)
    requires s.config == f.config && s.registry == f.registry && s.maxNodes == f.nodeLimit && s.maxDepth == f.depthLimit
    requires c.CompleteCancel? ==> s.cancelEvent == Some(c.requestEvent)
    ensures Applied(f.run, Some(s), EventOf(f, c, s.version + 1)).Some?
  {
    if c.AppendNodes? {
      AppendDecision(f, s, c);
    } else if c.CompleteAttempt? || c.CompleteVerified? || c.ReconcileAttempt? || c.CancelAttempt? {
      EndDecision(f, s, c, s.version + 1);
    } else if !c.AcceptAttempt? {
      RunDecision(f, s, c, s.version + 1);
    }
    TransitionApplies(f, s, c);
  }

  /** An accepted event leaves the frozen fields alone and records a cancellation request. */
  lemma {:induction false} AppliedFields(run: nat, s: RunState, e: Event)
    requires Applied(run, Some(s), e).Some?
    ensures var t := Applied(run, Some(s), e).value;
            && t.config == s.config && t.registry == s.registry && t.workspace == s.workspace
            && t.maxNodes == s.maxNodes && t.maxDepth == s.maxDepth && t.version == e.version
            && t.cancelEvent == if e.body.RunCancellationRequested? then Some(e.id) else s.cancelEvent
  {
  }

  /** A completion was asked for after its caller had seen the Run cancelling. */
  ghost predicate Observed(f: Frozen, events: seq<Event>, c: Command) {
    c.CompleteCancel? ==> exists k :: 0 < k <= |events| && LastRequest(events[..k]) == Some(c.requestEvent)
  }

  lemma {:induction false} FirstSound(f: Frozen)
    requires f.nodeLimit >= 1
    ensures Sound(f, [EventOf(f, Initialize, 1)])
  {
    var events := [EventOf(f, Initialize, 1)];
    assert events[..0] == [];
    InitialOk(f.run, events[0]);
  }

  lemma {:induction false} LastRequestFound(events: seq<Event>) returns (i: int)
    ensures LastRequest(events).None? ==> i == -1 && forall e :: e in events ==> !e.body.RunCancellationRequested?
    ensures LastRequest(events).Some? ==>
              0 <= i < |events| && events[i].body.RunCancellationRequested? && LastRequest(events) == Some(events[i].id)
  {
    if events == [] {
      return -1;
    }
    i := |events| - 1;
    if !events[i].body.RunCancellationRequested? {
      assert events == events[..i] + [events[i]];
      i := LastRequestFound(events[..i]);
    }
  }

  /** A Run has one cancellation request, so one read earlier is still the current one. */
  lemma {:induction false} RequestIsCurrent(events: seq<Event>, k: nat)
    requires Log(events) && k <= |events| && LastRequest(events[..k]).Some?
    ensures LastRequest(events) == LastRequest(events[..k])
  {
    var i := LastRequestFound(events[..k]);
    var j := LastRequestFound(events);
    assert events[i] in events;
    assert events[j] in events && events[i].key == events[j].key;
  }

  lemma {:induction false} NextLog(f: Frozen, events: seq<Event>, c: Command)
    requires Log(events) && Sensible(c) && !Issued(events, KeyOf(c))
    ensures Log(events + [EventOf(f, c, |events| + 1)])
  {
  }

  /** The state after a decision's event. */
  lemma {:induction false} NextState(f: Frozen, events: seq<Event>, c: Command)
    requires Sound(f, events) && events != [] && Decides(f, events, c)
    requires c.CompleteCancel? ==> Fold(f.run, events).value.cancelEvent == Some(c.requestEvent)
    ensures var s, e := Fold(f.run, events).value, EventOf(f, c, |events| + 1);
            && Fold(f.run, events + [e]) == Applied(f.run, Some(s), e)
            && Applied(f.run, Some(s), e).Some? && WellFormed(Applied(f.run, Some(s), e).value)
  {
    var e := EventOf(f, c, |events| + 1);
    var s := Fold(f.run, events).value;
    FoldMore(f.run, events, e);
    GuardedApplies(f, s, c);
    StepKeeps(f.run, s, e);
  }

  lemma {:induction false} NextSound(f: Frozen, events: seq<Event>, c: Command)
    requires Sound(f, events) && events != [] && Decides(f, events, c)
    requires c.CompleteCancel? ==> Fold(f.run, events).value.cancelEvent == Some(c.requestEvent)
    ensures Sound(f, events + [EventOf(f, c, |events| + 1)])
  {
    var e := EventOf(f, c, |events| + 1);
    NextLog(f, events, c);
    NextState(f, events, c);
    AppliedFields(f.run, Fold(f.run, events).value, e);
    assert (events + [e])[..|events|] == events;
  }

  /**
   Every command keeps the stream sound: whatever it appends applies on replay and keeps the
   invariant. The frozen node limit has to be at least one for the first event to replay at all.
   */
  lemma {:induction false} AfterSound(f: Frozen, events: seq<Event>, c: Command)
    requires f.nodeLimit >= 1 && Sound(f, events) && Observed(f, events, c)
    ensures Sound(f, After(f, events, c))
  {
    if Decides(f, events, c) {
      if events == [] {
        FirstSound(f);
        assert [] + [EventOf(f, c, 1)] == [EventOf(f, Initialize, 1)];
      } else {
        if c.CompleteCancel? {
          var k :| 0 < k <= |events| && LastRequest(events[..k]) == Some(c.requestEvent);
          RequestIsCurrent(events, k);
        }
        NextSound(f, events, c);
      }
    }
  }

  /** With a node limit below one, initialising appends an event that no replay accepts. */
  lemma {:induction false} InitializedReplaysIff(f: Frozen)
    ensures Fold(f.run, After(f, [], Initialize)).Some? <==> f.nodeLimit >= 1
  {
    var events := After(f, [], Initialize);
    assert events == [EventOf(f, Initialize, 1)];
    assert events[..0] == [];
  }

  // ----- Repeated commands -----

  lemma {:induction false} AfterAllKeeps(f: Frozen, events: seq<Event>, cs: seq<Command>, key: Key)
    requires Issued(events, key)
    ensures Issued(AfterAll(f, events, cs), key)
  {
    if cs != [] {
      AfterAllKeeps(f, events, cs[..|cs| - 1], key);
      var before := AfterAll(f, events, cs[..|cs| - 1]);
      var after := After(f, before, cs[|cs| - 1]);
      var i :| 0 <= i < |before| && before[i].key == key;
      assert after[i] == before[i];
    }
  }

  /** A command that was accepted once appends nothing at any later point. */
  lemma {:induction false} AcceptedOnce(f: Frozen, events: seq<Event>, c: Command, later: seq<Command>)
    requires After(f, events, c) != events
    ensures var stream := AfterAll(f, After(f, events, c), later); After(f, stream, c) == stream
  {
    var accepted := After(f, events, c);
    assert accepted[|events|].key == KeyOf(c);
    AfterAllKeeps(f, accepted, later, KeyOf(c));
  }

  lemma {:induction false} TurnApplies(run: nat, s: RunState, e: Event)
    requires e.version == s.version + 1 && e.context == Context(None, None, None, None)
    requires (e.body.RunResumed? && s.status.Paused?) || (e.body.RunPaused? && s.status.Running?)
    ensures Applied(run, Some(s), e).Some?
    ensures Applied(run, Some(s), e).value.status.Paused? <==> e.body.RunPaused?
  {
  }

  /**
   A pause of a running Run, or a resume of a paused one, takes effect exactly when its key is
   new: a Run resumes once in its life, and pauses once for each reason.
   */
  lemma {:induction false} PausesOrResumesIffNew(f: Frozen, events: seq<Event>, c: Command)
    requires (c.Resume? || c.Pause?) && Sound(f, events) && events != []
    requires if c.Resume? then Fold(f.run, events).value.status.Paused? else Fold(f.run, events).value.status.Running?
    ensures Fold(f.run, After(f, events, c)).Some?
    ensures Issued(events, KeyOf(c)) ==> After(f, events, c) == events
    ensures !Issued(events, KeyOf(c)) ==> (Fold(f.run, After(f, events, c)).value.status.Paused? <==> c.Pause?)
  {
    var s := Fold(f.run, events).value;
    assert Guard(f, s, c);
    if !Issued(events, KeyOf(c)) {
      TurnApplies(f.run, s, EventOf(f, c, |events| + 1));
      FoldMore(f.run, events, EventOf(f, c, |events| + 1));
    }
  }

  // ----- Applying one event, step by step -----

  /** Every node is filed under its own identifier. */
  predicate Keyed(nodes: map<Id, Node>) {
    forall n :: n in nodes ==> nodes[n].spec.id == n
  }

  method ListSpecs(nodes: map<Id, Node>) returns (specs: seq<NodeSpec>)
    requires Keyed(nodes)
    ensures Dict(specs) == Specs(nodes)
  {
    specs := [];
    var rest := nodes.Keys;
    while rest != {}
      invariant rest <= nodes.Keys
      invariant Dict(specs) == map n | n in nodes && n !in rest :: nodes[n].spec
    {
      var n :| n in rest;
      var more := specs + [nodes[n].spec];
      assert more[..|specs|] == specs;
      specs, rest := more, rest - {n};
    }
  }

  lemma {:induction false} InsertUnique(x: NodeSpec, specs: seq<NodeSpec>)
    requires UniqueIds([x] + specs)
    ensures UniqueIds(InsertSpec(x, specs))
    ensures forall y :: y in InsertSpec(x, specs) <==> y == x || y in specs
  {
    if specs != [] && x.id > specs[0].id {
      var h, rest := specs[0], specs[1..];
      assert forall i :: 0 <= i < |[x] + rest| ==> ([x] + rest)[i] == ([x] + specs)[if i == 0 then 0 else i + 1];
      InsertUnique(x, rest);
      assert specs == [h] + rest && ([x] + specs)[1] == h;
      forall y | y in InsertSpec(x, rest)
        ensures y.id != h.id
      {
        if y != x {
          var j :| 0 <= j < |rest| && rest[j] == y;
          assert ([x] + specs)[j + 2] == y;
        }
      }
    }
  }

  lemma {:induction false} SortedUnique(specs: seq<NodeSpec>)
    requires UniqueIds(specs)
    ensures UniqueIds(SortedSpecs(specs)) && forall y :: y in SortedSpecs(specs) <==> y in specs
  {
    if specs != [] {
      var h, rest := specs[0], specs[1..];
      SortedUnique(rest);
      var sorted := SortedSpecs(rest);
      assert specs == [h] + rest;
      forall i | 0 <= i < |sorted|
        ensures sorted[i].id != h.id
      {
        assert sorted[i] in rest;
        var j :| 0 <= j < |rest| && rest[j] == sorted[i];
        assert specs[j + 1] == sorted[i];
      }
      InsertUnique(h, sorted);
    }
  }

  lemma {:induction false} SameDict(a: seq<NodeSpec>, b: seq<NodeSpec>)
    requires UniqueIds(a) && UniqueIds(b) && forall y :: y in a <==> y in b
    ensures forall n :: n in Dict(a) ==> n in Dict(b) && Dict(b)[n] == Dict(a)[n]
  {
    DictHas(a);
    DictHas(b);
    forall n | n in Dict(a)
      ensures n in Dict(b) && Dict(b)[n] == Dict(a)[n]
    {
      assert Dict(a)[n] in b;
      var i :| 0 <= i < |b| && b[i] == Dict(a)[n];
      assert Dict(b)[b[i].id] == b[i];
    }
  }

  lemma {:induction false} SortedDict(specs: seq<NodeSpec>)
    requires UniqueIds(specs)
    ensures UniqueIds(SortedSpecs(specs)) && Dict(SortedSpecs(specs)) == Dict(specs)
  {
    SortedUnique(specs);
    SameDict(specs, SortedSpecs(specs));
    SameDict(SortedSpecs(specs), specs);
  }

  function FiledBlocked(added: Nodes): map<Id, Node> {
    map n | n in added :: Node(added[n], NodeStatus.Blocked, [])
  }

  predicate FiledSoFar(known: map<Id, Node>, specs: seq<NodeSpec>, i: nat, nodes: map<Id, Node>)
    requires i <= |specs|
  {
    nodes == known + FiledBlocked(Dict(specs[..i]))
  }

  /** Files the new nodes as blocked. */
  method FileBlocked(known: map<Id, Node>, specs: seq<NodeSpec>) returns (nodes: map<Id, Node>)
    ensures nodes == known + FiledBlocked(Dict(specs))
  {
    nodes := known;
    for i := 0 to |specs|
      invariant FiledSoFar(known, specs, i, nodes)
    {
      assert specs[..i + 1][..i] == specs[..i];
      nodes := nodes[specs[i].id := Node(specs[i], NodeStatus.Blocked, [])];
    }
    assert specs[..|specs|] == specs;
  }

  /** The new nodes as they are once the first few have been looked at. */
  predicate MarkedSoFar(known: map<Id, Node>, specs: seq<NodeSpec>, i: nat, nodes: map<Id, Node>)
    requires i <= |specs|
  {
    && nodes.Keys == known.Keys + Dict(specs).Keys
    && (forall n :: n in known ==> nodes[n] == known[n])
    && forall j :: 0 <= j < |specs| && specs[j].id in nodes ==>
         nodes[specs[j].id] == Node(specs[j], if j < i && DependenciesSucceeded(known, specs[j]) then NodeStatus.Ready else NodeStatus.Blocked, [])
  }

  lemma {:induction false} MarkStart(known: map<Id, Node>, specs: seq<NodeSpec>)
    requires UniqueIds(specs) && known.Keys !! Dict(specs).Keys
    ensures MarkedSoFar(known, specs, 0, known + FiledBlocked(Dict(specs)))
  {
    DictHas(specs);
  }

  lemma {:induction false} MarkedEntry(known: map<Id, Node>, specs: seq<NodeSpec>, nodes: map<Id, Node>, added: Nodes, j: nat)
    requires MarkedSoFar(known, specs, |specs|, nodes) && j < |specs| && specs[j].id in nodes
    requires specs[j].id in added && added[specs[j].id] == specs[j]
    ensures nodes[specs[j].id] == Appended(known, added)[specs[j].id]
  {
  }

  lemma {:induction false} MarkEnd(known: map<Id, Node>, specs: seq<NodeSpec>, nodes: map<Id, Node>)
    requires UniqueIds(specs) && known.Keys !! Dict(specs).Keys && MarkedSoFar(known, specs, |specs|, nodes)
    ensures nodes == Appended(known, Dict(specs))
  {
    DictHas(specs);
    var added := Dict(specs);
    var target := Appended(known, added);
    assert target.Keys == known.Keys + added.Keys;
    forall n | n in nodes
      ensures nodes[n] == target[n]
    {
      if n in added {
        var j :| 0 <= j < |specs| && specs[j].id == n;
        MarkedEntry(known, specs, nodes, added, j);
      } else {
        assert n in known && target[n] == known[n];
      }
    }
  }

  /** While they are filed, new nodes have not succeeded, so only the known ones count. */
  lemma {:induction false} OnlyKnownCount(known: map<Id, Node>, specs: seq<NodeSpec>, i: nat, nodes: map<Id, Node>, spec: NodeSpec)
    requires i <= |specs| && known.Keys !! Dict(specs).Keys && MarkedSoFar(known, specs, i, nodes)
    ensures DependenciesSucceeded(nodes, spec) == DependenciesSucceeded(known, spec)
  {
    DictHas(specs);
    forall d | d in Dict(specs)
      ensures !nodes[d].status.Succeeded?
    {
      var j :| 0 <= j < |specs| && specs[j].id == d;
      assert specs[j].id in nodes;
    }
  }

  /** Looking at one more new node. */
  lemma {:induction false} MarkStep(known: map<Id, Node>, specs: seq<NodeSpec>, i: nat, nodes: map<Id, Node>)
    requires i < |specs| && UniqueIds(specs) && known.Keys !! Dict(specs).Keys && MarkedSoFar(known, specs, i, nodes)
    ensures specs[i].id in nodes && nodes[specs[i].id] == Node(specs[i], NodeStatus.Blocked, [])
    ensures MarkedSoFar(known, specs, i + 1,
                        if DependenciesSucceeded(known, specs[i]) then nodes[specs[i].id := nodes[specs[i].id].(status := NodeStatus.Ready)] else nodes)
  {
    DictKeys(specs, specs[i].id);
    assert specs[i].id in Dict(specs);
  }

  /** Marks the new nodes ready whose dependencies have all succeeded. */
  method MarkReady(known: map<Id, Node>, specs: seq<NodeSpec>, filed: map<Id, Node>) returns (nodes: map<Id, Node>)
    requires UniqueIds(specs) && known.Keys !! Dict(specs).Keys && filed == known + FiledBlocked(Dict(specs))
    ensures nodes == Appended(known, Dict(specs))
  {
    nodes := filed;
    MarkStart(known, specs);
    for i := 0 to |specs|
      invariant MarkedSoFar(known, specs, i, nodes)
    {
      OnlyKnownCount(known, specs, i, nodes, specs[i]);
      MarkStep(known, specs, i, nodes);
      if DependenciesSucceeded(nodes, specs[i]) {
        nodes := nodes[specs[i].id := nodes[specs[i].id].(status := NodeStatus.Ready)];
      }
    }
    MarkEnd(known, specs, nodes);
  }

  /** The append in its canonical order, or None when an event must not apply. */
  method CheckAppend(run: nat, s: RunState, body: Body) returns (specs: Option<seq<NodeSpec>>)
    requires body.GraphNodesAppended? && Keyed(s.nodes)
    ensures specs.Some? <==> Append(run, s, body).Some?
    ensures specs.Some? ==> specs.value == SortedSpecs(body.specs)
  {
    if !(s.status.Created? || s.status.Running?) || body.graphVersion != s.graphVersion + 1 {
      return None;
    }
    var policy := FrozenPolicy(s, body.manifest, body.manifestHash);
    if policy.None? || exists x :: x in body.specs && !ContractFits(run, s, policy.value, x) {
      return None;
    }
    var current := ListSpecs(s.nodes);
    var checked := ValidateGraphAppend(current, body.specs, s.maxNodes, s.maxDepth);
    return if checked.Err? then None else Some(checked.value);
  }

  lemma {:induction false} AppendValue(run: nat, s: RunState, body: Body)
    requires body.GraphNodesAppended? && Append(run, s, body).Some?
    ensures UniqueIds(body.specs) && s.nodes.Keys !! Dict(body.specs).Keys
    ensures FrozenPolicy(s, body.manifest, body.manifestHash).Some?
    ensures Append(run, s, body).value ==
            s.(policy := FrozenPolicy(s, body.manifest, body.manifestHash).value, graphVersion := body.graphVersion,
               nodes := Appended(s.nodes, Dict(body.specs)))
  {
    assert Specs(s.nodes).Keys == s.nodes.Keys;
  }

  method ApplyAppend(run: nat, s: RunState, body: Body) returns (r: Option<RunState>)
    requires body.GraphNodesAppended? && Keyed(s.nodes)
    ensures r == Append(run, s, body)
  {
    var specs := CheckAppend(run, s, body);
    if specs.None? {
      return None;
    }
    AppendValue(run, s, body);
    SortedDict(body.specs);
    var nodes := FileBlocked(s.nodes, specs.value);
    nodes := MarkReady(s.nodes, specs.value, nodes);
    return Some(s.(policy := FrozenPolicy(s, body.manifest, body.manifestHash).value,
                   graphVersion := body.graphVersion, nodes := nodes));
  }

  /** Marks every blocked node ready whose dependencies have all succeeded. */
  method Promote(before: map<Id, Node>) returns (nodes: map<Id, Node>)
    ensures nodes == Promoted(before)
  {
    nodes := before;
    var rest := before.Keys;
    while rest != {}
      invariant rest <= before.Keys && nodes.Keys == before.Keys
      invariant forall n :: n in before ==> nodes[n] == if n in rest then before[n] else Promoted(before)[n]
    {
      var n :| n in rest;
      if before[n].status.Blocked? && DependenciesSucceeded(nodes, before[n].spec) {
        nodes := nodes[n := before[n].(status := NodeStatus.Ready)];
      }
      rest := rest - {n};
    }
  }

  method ApplyEnd(run: nat, s: RunState, e: Event) returns (r: Option<RunState>)
    requires e.body.AttemptEnded?
    ensures r == End(run, s, e)
  {
    var n, outcome := e.body.node, e.body.outcome;
    if n !in s.nodes {
      return None;
    }
    var active := ActiveAttempt(s.nodes[n]);
    if active.None? || active.value.id != e.body.attemptId {
      return None;
    }
    if e.context != Context(Some(run), Some(n), Some(active.value.id), Some(active.value.generation)) {
      return None;
    }
    if !OutcomeFits(s, e.body.kind, active.value.status, outcome) {
      return None;
    }
    var nodes := s.nodes[n := Ended(s.nodes[n], active.value, outcome)];
    if outcome.Succeeded? {
      nodes := Promote(nodes);
    }
    return Some(s.(nodes := nodes));
  }

  method ApplyTransition(run: nat, s: RunState, e: Event) returns (t: Option<RunState>)
    requires Keyed(s.nodes)
    ensures t == Transition(run, s, e)
  {
    if e.body.GraphNodesAppended? {
      t := ApplyAppend(run, s, e.body);
    } else if e.body.AttemptAccepted? {
      t := Accept(run, s, e);
    } else if e.body.AttemptEnded? {
      t := ApplyEnd(run, s, e);
    } else {
      t := RunEvent(run, s, e);
    }
  }

  /** Applies one event; shared by snapshots and full replay. */
  method Apply(run: nat, s: Option<RunState>, e: Event) returns (r: Option<RunState>)
    requires s.Some? ==> Keyed(s.value.nodes)
    ensures r == Applied(run, s, e)
  {
    if e.context.run.Some? && e.context.run != Some(run) {
      return None;
    }
    if s.None? {
      return Initial(run, e);
    }
    if e.version != s.value.version + 1 {
      return None;
    }
    var t := ApplyTransition(run, s.value, e);
    return if t.None? then None else Some(Settled(t.value).(version := e.version));
  }

  lemma {:induction false} WellFormedKeyed(s: RunState)
    requires WellFormed(s)
    ensures Keyed(s.nodes)
  {
    assert forall n :: n in s.nodes && PlaceOk(s, n) ==> s.nodes[n].spec.id == n;
  }

  lemma {:induction false} ReachableKeyed(run: nat, events: seq<Event>)
    requires (forall e :: e in events ==> Emitted(e)) && Fold(run, events).Some?
    ensures Keyed(Fold(run, events).value.nodes)
  {
    ReachableOk(run, events);
    WellFormedKeyed(Fold(run, events).value);
  }

  lemma {:induction false} FoldStep(run: nat, events: seq<Event>, k: nat)
    requires k < |events| && (k > 0 ==> Fold(run, events[..k]).Some?)
    ensures Fold(run, events[..k + 1]) == Applied(run, Fold(run, events[..k]), events[k])
  {
    var longer := events[..k + 1];
    assert longer[..|longer| - 1] == events[..k];
  }

  /** Continues a replay from the state after the first events. */
  method ReplayFrom(run: nat, events: seq<Event>, start: Option<RunState>, offset: nat) returns (r: Option<RunState>)
    requires offset <= |events| && (forall e :: e in events ==> Emitted(e))
    requires start == Fold(run, events[..offset]) && (start.None? ==> offset == 0)
    ensures r == Fold(run, events)
  {
    r := start;
    for k := offset to |events|
      invariant r == Fold(run, events[..k]) && (r.None? ==> k == 0)
    {
      FoldStep(run, events, k);
      if r.Some? {
        ReachableKeyed(run, events[..k]);
      }
      r := Apply(run, r, events[k]);
      if r.None? {
        StaysBroken(run, events, k + 1);
        return;
      }
    }
    assert events[..|events|] == events;
  }

  lemma {:induction false} StaysBroken(run: nat, events: seq<Event>, k: nat)
    requires 0 < k <= |events| && Fold(run, events[..k]).None?
    ensures Fold(run, events).None?
    decreases |events|
  {
    if k == |events| {
      assert events[..k] == events;
    } else {
      assert events[..|events| - 1][..k] == events[..k];
      StaysBroken(run, events[..|events| - 1], k);
    }
  }

  // ----- The controller -----

  /** A persisted projection, anchored to the event it ends with. */
  datatype Saved = Saved(version: nat, state: RunState, source: nat)

  ghost predicate Anchored(f: Frozen, events: seq<Event>, saved: Option<Saved>) {
    saved.Some? ==>
      && 0 < saved.value.version <= |events|
      && Fold(f.run, events[..saved.value.version]) == Some(saved.value.state)
      && events[saved.value.version - 1].id == saved.value.source
  }

  lemma {:induction false} AnchorKept(f: Frozen, events: seq<Event>, more: seq<Event>, saved: Option<Saved>)
    requires Anchored(f, events, saved)
    ensures Anchored(f, events + more, saved)
  {
    if saved.Some? {
      assert (events + more)[..saved.value.version] == events[..saved.value.version];
    }
  }

  lemma {:induction false} FoldMatches(f: Frozen, events: seq<Event>)
    requires Log(events) && events != [] && events[0].body == BodyOf(f, Initialize) && Fold(f.run, events).Some?
    ensures Matches(f, events, Fold(f.run, events).value)
  {
    var front, last := events[..|events| - 1], events[|events| - 1];
    if front != [] {
      FoldMatches(f, front);
      AppliedFields(f.run, Fold(f.run, front).value, last);
    } else {
      assert LastRequest(front).None?;
    }
  }

  lemma {:induction false} PrefixSound(f: Frozen, events: seq<Event>, k: nat)
    requires Sound(f, events) && 0 < k <= |events|
    ensures Sound(f, events[..k])
  {
    LogPrefix(events, k);
    if Fold(f.run, events[..k]).None? {
      StaysBroken(f.run, events, k);
    }
    ReachableOk(f.run, events[..k]);
    FoldMatches(f, events[..k]);
  }

  /** The request a cancelling prefix knows of is the one any longer prefix knows of. */
  lemma {:induction false} RequestStillCurrent(f: Frozen, events: seq<Event>, k: nat, read: nat)
    requires Log(events) && 0 < k <= read <= |events| && Sound(f, events[..k])
    requires Fold(f.run, events[..k]).value.status.Cancelling?
    ensures LastRequest(events[..read]).Some? && LastRequest(events[..read]) == LastRequest(events)
  {
    assert events[..read][..k] == events[..k];
    LogPrefix(events, read);
    RequestIsCurrent(events[..read], k);
    RequestIsCurrent(events, read);
  }

  lemma {:induction false} LogPrefix(events: seq<Event>, k: nat)
    requires Log(events) && k <= |events|
    ensures Log(events[..k])
  {
  }

  method FitsGraph(f: Frozen, s: RunState, specs: seq<NodeSpec>) returns (fits: bool)
    requires Keyed(s.nodes)
    ensures fits <==> Allowed(Specs(s.nodes), SortedSpecs(specs), f.nodeLimit, f.depthLimit)
  {
    var proposed := SortedSpecs(specs);
    var current := ListSpecs(s.nodes);
    var checked := ValidateGraphAppend(current, proposed, f.nodeLimit, f.depthLimit);
    SortedSpecsCanonical(specs);
    CanonicalIsSorted(proposed);
    return checked == Ok(proposed);
  }

  /** Whether the state lets a command append its event. */
  method Permits(f: Frozen, s: RunState, c: Command) returns (b: bool)
    requires Keyed(s.nodes)
    ensures b <==> Guard(f, s, c)
  {
    match c {
      case Initialize => b := false;
      case AppendNodes(specs, _, _, _) =>
        b := AppendFits(f, s, c);
        if b {
          b := FitsGraph(f, s, specs);
        }
      case Start => b := s.status.Created? && s.nodes != map[];
      case Pause(_) => b := s.status.Running?;
      case Resume => b := s.status.Paused?;
      case AwaitUser(_, _, _) => b := s.status.Running?;
      case Respond(request, _) => b := s.status.AwaitingUser? && s.request == Some(request);
      case RequestCancel(_) => b := s.status.Created? || s.status.Running? || s.status.Paused? || s.status.AwaitingUser?;
      case CompleteCancel(_) => b := s.status.Cancelling? && NoneActive(s);
      case AcceptAttempt(n, attempt, _) => b := AcceptFits(s, n, attempt);
      case CompleteAttempt(n, id, g, _, _) => b := CurrentAttempt(s, n, id, g, AttemptStatus.Accepted);
      case CompleteVerified(n, id, g, _, _) => b := CurrentAttempt(s, n, id, g, AttemptStatus.Accepted);
      case ReconcileAttempt(n, id, g, _) => b := CurrentAttempt(s, n, id, g, AttemptStatus.OutcomeUnknown);
      case CancelAttempt(n, id, g, _, _) => b := s.status.Cancelling? && CurrentAttempt(s, n, id, g, AttemptStatus.Accepted);
    }
  }

  /** One call, or the later half of one that read the stream when it was shorter. */
  datatype Step =
    | Does(command: Command)
    | Saves(replayed: nat, read: nat)
    | Completes(replayed: nat, read: nat)

  class Controller {
    const f: Frozen
    var events: seq<Event>
    var snapshot: Option<Saved>

    ghost predicate Valid()
      reads this
    {
      f.nodeLimit >= 1 && Sound(f, events) && Anchored(f, events, snapshot)
    }

    constructor (f: Frozen)
      requires f.nodeLimit >= 1
      ensures this.f == f && events == [] && snapshot == None && Valid()
    {
      this.f := f;
      events, snapshot := [], None;
    }

    /** Whether the stream as it is lets a new command append its event. */
    method Admits(c: Command) returns (ok: bool)
      requires Sound(f, events) && Sensible(c) && !Issued(events, KeyOf(c))
      ensures ok <==> Decides(f, events, c)
    {
      if c.Initialize? {
        return events == [];
      }
      var s := ReplayFrom(f.run, events, None, 0);
      if s.None? {
        return false;
      }
      WellFormedKeyed(s.value);
      ok := Permits(f, s.value, c);
    }

    /** Takes one decision on the whole stream, under the store's write lock. */
    method Submit(c: Command) returns (ok: bool)
      requires Valid() && Observed(f, events, c)
      modifies this`events
      ensures Valid() && events == After(f, old(events), c)
      ensures ok <==> Decides(f, old(events), c)
                      || (Sensible(c) && Answered(f, old(events), c))
    {
      AfterSound(f, events, c);
      if !Sensible(c) {
        return false;
      }
      if Issued(events, KeyOf(c)) {
        return Answered(f, events, c);
      }
      NotAnswered(f, events, c);
      ok := Admits(c);
      if ok {
        AnchorKept(f, events, [EventOf(f, c, |events| + 1)], snapshot);
        events := events + [EventOf(f, c, |events| + 1)];
      }
    }

    /** Replays the stream, from the snapshot when one loads and its anchor fits. */
    method Replay(loads: bool) returns (r: Option<RunState>)
      requires Valid()
      ensures r == Fold(f.run, events)
    {
      var state, offset := None, 0;
      if events != [] && loads && snapshot.Some? && snapshot.value.version <= |events| {
        var saved := snapshot.value;
        if && saved.state.version == saved.version && saved.source == events[saved.version - 1].id
           && events[0].body.RunInitialized?
           && saved.state.config == events[0].body.config && saved.state.registry == events[0].body.registry
        {
          state, offset := Some(saved.state), saved.version;
        }
      }
      r := ReplayFrom(f.run, events, state, offset);
    }

    /** Saves a projection, unless the stream had already moved on when it was read again. */
    method Checkpoint(replayed: nat, read: nat)
      requires Valid() && replayed <= read <= |events|
      modifies this`snapshot
      ensures Valid()
      ensures 0 < replayed == read ==> snapshot.Some? && Fold(f.run, events[..read]) == Some(snapshot.value.state)
      ensures replayed != read || read == 0 ==> snapshot == old(snapshot)
    {
      if replayed == 0 || replayed != read {
        return;
      }
      PrefixSound(f, events, read);
      var state := ReplayFrom(f.run, events[..read], None, 0);
      snapshot := Some(Saved(read, state.value, events[read - 1].id));
    }

    /** Completes a cancellation, if the Run was idle and cancelling when it was last replayed. */
    method CompleteCancellationIfIdle(replayed: nat, read: nat)
      requires Valid() && replayed <= read <= |events|
      modifies this`events
      ensures Valid()
      ensures events == old(events) ||
              (LastRequest(old(events)).Some? && events == After(f, old(events), CompleteCancel(LastRequest(old(events)).value)))
    {
      if replayed == 0 {
        return;
      }
      PrefixSound(f, events, replayed);
      var state := ReplayFrom(f.run, events[..replayed], None, 0);
      if !state.value.status.Cancelling? || !NoneActive(state.value) {
        return;
      }
      RequestStillCurrent(f, events, replayed, read);
      var _ := Submit(CompleteCancel(LastRequest(events[..read]).value));
    }

    /** Any interleaving of commands and of the halves of checkpoints and cancellations. */
    method Run(steps: seq<Step>, loads: bool) returns (r: Option<RunState>)
      requires Valid()
      requires forall s :: s in steps && s.Does? ==> !s.command.CompleteCancel?
      modifies this
      ensures Valid() && r == Fold(f.run, events)
      ensures r.Some? ==> WellFormed(r.value)
    {
      for k := 0 to |steps|
        invariant Valid()
      {
        var step := steps[k];
        if step.Does? {
          var _ := Submit(step.command);
        } else if step.replayed <= step.read <= |events| {
          if step.Saves? {
            Checkpoint(step.replayed, step.read);
          } else {
            CompleteCancellationIfIdle(step.replayed, step.read);
          }
        }
      }
      r := Replay(loads);
    }
  }
}

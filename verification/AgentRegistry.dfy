/** The registry of Agent instances of one Run, reduced from its event stream. */
module AgentRegistry {
  import opened Common

  datatype Status = Created | Active | OutcomeUnknown | Completed | Failed | Cancelled

  datatype Instance = Instance(id: nat, node: nat, attempt: nat, creator: nat, parent: Option<nat>, depth: nat,
                               decision: nat, generation: nat, status: Status)

  type Instances = map<nat, Instance>

  datatype Limits = Limits(total: nat, depth: nat, concurrent: nat)

  datatype Kind = Starts | BecomesUnknown | Completes | Fails | Reconciles | Cancels

  datatype Outcome = Unstated | Succeeded | HasFailed | Unknown | WasCancelled

  datatype Body = AgentCreated(instance: Instance) | AgentMoved(kind: Kind, id: nat, outcome: Outcome)

  datatype Key = KCreate(attempt: nat) | KMove(kind: Kind, attempt: nat)

  datatype Event = Event(key: Key, node: nat, attempt: nat, generation: nat, cause: nat, body: Body)

  // ----- Reducing the stream -----

  predicate AttemptKnown(s: Instances, attempt: nat) {
    exists i :: i in s && s[i].attempt == attempt
  }

  predicate CreationOk(s: Instances, e: Event)
    requires e.body.AgentCreated?
  {
    var x := e.body.instance;
    && x.status.Created? && e.node == x.node && e.attempt == x.attempt && e.generation == x.generation && e.cause == x.decision
    && x.id !in s && !AttemptKnown(s, x.attempt)
    && if x.parent.None? then x.depth == 0 && x.creator == x.attempt
       else
         && x.parent.value in s && s[x.parent.value].status.Completed?
         && x.depth == s[x.parent.value].depth + 1 && x.creator == s[x.parent.value].attempt
  }

  /** The status a move leads to, if it may start from the current one with that outcome. */
  function MoveTo(kind: Kind, from: Status, outcome: Outcome): Option<Status> {
    match kind
    case Starts => if from.Created? then Some(Active) else None
    case BecomesUnknown => if from.Active? then Some(OutcomeUnknown) else None
    case Completes => if from.Active? && outcome.Succeeded? then Some(Completed) else None
    case Fails => if from.Active? && outcome.HasFailed? then Some(Failed) else None
    case Reconciles =>
      if !from.OutcomeUnknown? then None
      else if outcome.Succeeded? then Some(Completed) else if outcome.HasFailed? then Some(Failed) else None
    case Cancels => if (from.Created? || from.Active?) && outcome.WasCancelled? then Some(Cancelled) else None
  }

  predicate MoveOk(s: Instances, e: Event)
    requires e.body.AgentMoved?
  {
    && e.body.id in s
    && var x := s[e.body.id];
       && e.node == x.node && e.attempt == x.attempt && e.generation == x.generation
       && (e.body.kind.Cancels? || e.cause == x.decision)
       && MoveTo(e.body.kind, x.status, e.body.outcome).Some?
  }

  function Applied(s: Instances, e: Event): Option<Instances> {
    match e.body
    case AgentCreated(x) => if CreationOk(s, e) then Some(s[x.id := x]) else None
    case AgentMoved(kind, id, outcome) =>
      if MoveOk(s, e) then Some(s[id := s[id].(status := MoveTo(kind, s[id].status, outcome).value)]) else None
  }

  function Reduced(events: seq<Event>): Option<Instances> {
    if events == [] then Some(map[])
    else
      var s := Reduced(events[..|events| - 1]);
      if s.None? then None else Applied(s.value, events[|events| - 1])
  }

  /** Reduces the stream with an index from attempts to instances kept beside the instances. */
  method Reduce(events: seq<Event>) returns (r: Option<Instances>)
    ensures r == Reduced(events)
  {
    var instances: Instances := map[];
    var byAttempt: map<nat, nat> := map[];
    for k := 0 to |events|
      invariant Reduced(events[..k]) == Some(instances)
      invariant forall a :: a in byAttempt <==> AttemptKnown(instances, a)
    {
      var e := events[k];
      assert events[..k + 1][..k] == events[..k];
      if e.body.AgentCreated? {
        var x := e.body.instance;
        if x.attempt in byAttempt || !CreationOk(instances, e) {
          Broken(events, k + 1);
          return None;
        }
        KnownAfter(instances, x);
        instances := instances[x.id := x];
        byAttempt := byAttempt[x.attempt := x.id];
      } else {
        var next := Applied(instances, e);
        if next.None? {
          Broken(events, k + 1);
          return None;
        }
        KnownAfterMove(instances, e.body.id, next.value[e.body.id]);
        instances := next.value;
      }
    }
    assert events[..|events|] == events;
    return Some(instances);
  }

  lemma {:induction false} KnownAfter(s: Instances, x: Instance)
    requires x.id !in s
    ensures forall a :: AttemptKnown(s[x.id := x], a) <==> AttemptKnown(s, a) || a == x.attempt
  {
    var t := s[x.id := x];
    forall a
      ensures AttemptKnown(t, a) <==> AttemptKnown(s, a) || a == x.attempt
    {
      if AttemptKnown(s, a) {
        var i :| i in s && s[i].attempt == a;
        assert i in t && t[i].attempt == a;
      }
      assert x.id in t && t[x.id].attempt == x.attempt;
    }
  }

  lemma {:induction false} KnownAfterMove(s: Instances, id: nat, x: Instance)
    requires id in s && x.attempt == s[id].attempt
    ensures forall a :: AttemptKnown(s[id := x], a) <==> AttemptKnown(s, a)
  {
    var t := s[id := x];
    forall a
      ensures AttemptKnown(t, a) <==> AttemptKnown(s, a)
    {
      if AttemptKnown(s, a) {
        var i :| i in s && s[i].attempt == a;
        assert i in t && t[i].attempt == a;
      }
      if AttemptKnown(t, a) {
        var i :| i in t && t[i].attempt == a;
        assert i in s && s[i].attempt == a;
      }
    }
  }

  /** A stream with an event that does not apply never reduces again. */
  lemma {:induction false} Broken(events: seq<Event>, k: nat)
    requires k <= |events| && Reduced(events[..k]).None?
    ensures Reduced(events).None?
    decreases |events|
  {
    if k < |events| {
      assert events[..|events| - 1][..k] == events[..k];
      Broken(events[..|events| - 1], k);
    } else {
      assert events[..k] == events;
    }
  }

  // ----- Commands -----

  datatype Command =
    | Register(node: nat, parent: Option<nat>, attempt: nat, agent: nat, decision: nat, generation: nat, accepted: bool, running: bool)
    | Move(kind: Kind, attempt: nat, agent: nat, node: nat, generation: nat, cause: nat, outcome: Outcome)

  predicate Counts(s: Status) {
    s.Active? || s.OutcomeUnknown?
  }

  function ActiveIds(s: Instances): set<nat> {
    set i | i in s && Counts(s[i].status)
  }

  function NewInstance(s: Instances, c: Command): Instance
    requires c.Register? && (c.parent.Some? ==> c.parent.value in s)
  {
    Instance(c.agent, c.node, c.attempt, if c.parent.Some? then s[c.parent.value].attempt else c.attempt, c.parent,
             if c.parent.Some? then s[c.parent.value].depth + 1 else 0, c.decision, c.generation, Created)
  }

  function RegisterBatch(s: Instances, c: Command): seq<Event>
    requires c.Register? && (c.parent.Some? ==> c.parent.value in s)
  {
    var key := KCreate(c.attempt);
    [Event(key, c.node, c.attempt, c.generation, c.decision, AgentCreated(NewInstance(s, c))),
     Event(key, c.node, c.attempt, c.generation, c.decision, AgentMoved(Starts, c.agent, Unstated))]
  }

  /** A registration goes ahead within all three limits, for an accepted attempt of a running node. */
  predicate RegisterFits(l: Limits, s: Instances, c: Command)
    requires c.Register?
  {
    && c.accepted && (c.parent.Some? ==> c.parent.value in s && s[c.parent.value].status.Completed?)
    && NewInstance(s, c).depth <= l.depth && c.running
    && |s| < l.total && |ActiveIds(s)| < l.concurrent
    && !AttemptKnown(s, c.attempt) && c.agent !in s
  }

  /** What a move checks; the cause it was given is not among it. */
  predicate MoveFits(s: Instances, c: Command)
    requires c.Move?
  {
    && c.agent in s && s[c.agent].attempt == c.attempt && s[c.agent].node == c.node && s[c.agent].generation == c.generation
    && (if c.kind.Reconciles? then s[c.agent].status.OutcomeUnknown? else s[c.agent].status.Active?)
  }

  /** The outcome each kind of call records. */
  predicate Offered(c: Command)
    requires c.Move?
  {
    match c.kind
    case Starts => false
    case BecomesUnknown => c.outcome.Unknown?
    case Completes => c.outcome.Succeeded?
    case Fails => c.outcome.HasFailed?
    case Reconciles => c.outcome.Succeeded? || c.outcome.HasFailed?
    case Cancels => c.outcome.WasCancelled?
  }

  function KeyOf(c: Command): Key {
    if c.Register? then KCreate(c.attempt) else KMove(c.kind, c.attempt)
  }

  predicate Issued(events: seq<Event>, key: Key) {
    exists e :: e in events && e.key == key
  }

  function Batch(l: Limits, events: seq<Event>, c: Command): seq<Event> {
    var s := Reduced(events);
    if Issued(events, KeyOf(c)) || s.None? then []
    else match c
      case Register(_, _, _, _, _, _, _, _) => if RegisterFits(l, s.value, c) then RegisterBatch(s.value, c) else []
      case Move(kind, attempt, agent, node, generation, cause, outcome) =>
        if Offered(c) && MoveFits(s.value, c) then
          [Event(KeyOf(c), node, attempt, generation, cause, AgentMoved(kind, agent, outcome))]
        else []
  }

  function After(l: Limits, events: seq<Event>, c: Command): seq<Event> {
    events + Batch(l, events, c)
  }

  // ----- What every run keeps -----

  /** Parents come earlier by depth, are completed, and are counted by the depth. */
  ghost predicate FamilyOk(s: Instances, i: nat)
    requires i in s
  {
    var x := s[i];
    && x.id == i && !x.status.Created?
    && if x.parent.None? then x.depth == 0 && x.creator == x.attempt
       else
         && x.parent.value in s && s[x.parent.value].status.Completed?
         && x.depth == s[x.parent.value].depth + 1 && x.creator == s[x.parent.value].attempt
  }

  ghost predicate FamiliesOk(l: Limits, s: Instances) {
    forall i :: i in s ==> FamilyOk(s, i) && s[i].depth <= l.depth
  }

  ghost predicate Apart(s: Instances, i: nat, j: nat)
    requires i in s && j in s
  {
    i != j ==> s[i].attempt != s[j].attempt
  }

  ghost predicate AttemptsUnique(s: Instances) {
    forall i, j {:trigger Apart(s, i, j)} :: i in s && j in s ==> Apart(s, i, j)
  }

  predicate Bounded(l: Limits, s: Instances) {
    |s| <= l.total && |ActiveIds(s)| <= l.concurrent
  }

  ghost predicate Sound(l: Limits, s: Instances) {
    FamiliesOk(l, s) && AttemptsUnique(s) && Bounded(l, s)
  }

  /** The ancestors of an instance, nearest first; depth bounds the way up. */
  ghost function Ancestors(s: Instances, i: nat): (chain: seq<nat>)
    requires i in s && forall j :: j in s ==> FamilyOk(s, j)
    ensures |chain| == s[i].depth && forall k :: 0 <= k < |chain| ==> chain[k] in s && s[chain[k]].status.Completed?
    decreases s[i].depth
  {
    assert FamilyOk(s, i);
    if s[i].parent.None? then [] else [s[i].parent.value] + Ancestors(s, s[i].parent.value)
  }

  /** No instance is its own ancestor: the parent relation is well founded. */
  lemma {:induction false} AncestorsAreLower(s: Instances, i: nat, k: nat)
    requires i in s && (forall j :: j in s ==> FamilyOk(s, j)) && k < |Ancestors(s, i)|
    ensures s[Ancestors(s, i)[k]].depth == s[i].depth - 1 - k && Ancestors(s, i)[k] != i
    decreases k
  {
    assert FamilyOk(s, i);
    if k > 0 {
      AncestorsAreLower(s, s[i].parent.value, k - 1);
    }
  }

  lemma {:induction false} ReducedMore(events: seq<Event>, e: Event)
    ensures Reduced(events + [e]) == if Reduced(events).None? then None else Applied(Reduced(events).value, e)
  {
    assert (events + [e])[..|events|] == events;
  }

  /** A registration's two events always apply, and leave the new instance active. */
  lemma {:induction false} RegisterApplies(l: Limits, events: seq<Event>, c: Command)
    requires c.Register? && Reduced(events).Some? && RegisterFits(l, Reduced(events).value, c)
    ensures var s := Reduced(events).value;
            Reduced(events + RegisterBatch(s, c)) == Some(s[c.agent := NewInstance(s, c).(status := Active)])
  {
    var s := Reduced(events).value;
    var batch := RegisterBatch(s, c);
    ReducedMore(events, batch[0]);
    ReducedMore(events + [batch[0]], batch[1]);
    assert events + batch == events + [batch[0]] + [batch[1]];
    var x := NewInstance(s, c);
    var created: Instances := s[c.agent := x];
    assert created[c.agent := x.(status := Active)] == s[c.agent := x.(status := Active)];
  }

  /** A move's event applies exactly when it cancels or carries the decision of the instance as its cause. */
  lemma {:induction false} MoveAppliesIff(l: Limits, events: seq<Event>, c: Command)
    requires c.Move? && Reduced(events).Some? && Batch(l, events, c) != []
    ensures Reduced(After(l, events, c)).Some? <==> c.kind.Cancels? || c.cause == Reduced(events).value[c.agent].decision
  {
    ReducedMore(events, Batch(l, events, c)[0]);
  }

  /** Registered and then completed with another cause than its decision, the registry never reduces again. */
  lemma {:induction false} OtherCauseBreaks(l: Limits, node: nat, attempt: nat, agent: nat, decision: nat, generation: nat, cause: nat)
    requires l.total >= 1 && l.concurrent >= 1 && cause != decision
    ensures var registered := After(l, [], Register(node, None, attempt, agent, decision, generation, true, true));
            var completed := After(l, registered, Move(Completes, attempt, agent, node, generation, cause, Succeeded));
            && Reduced(registered).Some? && |completed| == |registered| + 1
            && Reduced(completed).None? && forall later: seq<Event> :: Reduced(completed + later).None?
  {
    var c := Register(node, None, attempt, agent, decision, generation, true, true);
    var d := Move(Completes, attempt, agent, node, generation, cause, Succeeded);
    assert ActiveIds(map[]) == {};
    assert RegisterFits(l, map[], c) && Batch(l, [], c) == RegisterBatch(map[], c);
    RegisterApplies(l, [], c);
    var registered := After(l, [], c);
    assert registered == [] + RegisterBatch(map[], c) == RegisterBatch(map[], c);
    assert !Issued(registered, KeyOf(d));
    MoveAppliesIff(l, registered, d);
    var completed := After(l, registered, d);
    forall later: seq<Event>
      ensures Reduced(completed + later).None?
    {
      assert (completed + later)[..|completed|] == completed;
      Broken(completed + later, |completed|);
    }
  }

  lemma {:induction false} RegisterBounded(l: Limits, s: Instances, id: nat, x: Instance)
    requires id !in s && x.status.Active? && |s| < l.total && |ActiveIds(s)| < l.concurrent
    ensures Bounded(l, s[id := x])
  {
    var t := s[id := x];
    assert ActiveIds(t) == ActiveIds(s) + {id};
    assert t.Keys == s.Keys + {id} && |s.Keys| == |s| && |t.Keys| == |t|;
  }

  lemma {:induction false} RegisterApart(s: Instances, id: nat, x: Instance)
    requires AttemptsUnique(s) && id !in s && !AttemptKnown(s, x.attempt)
    ensures AttemptsUnique(s[id := x])
  {
    var t := s[id := x];
    forall i, j | i in t && j in t
      ensures Apart(t, i, j)
    {
      assert i in s && j in s ==> Apart(s, i, j);
    }
  }

  lemma {:induction false} RegisterFamilies(l: Limits, s: Instances, id: nat, x: Instance)
    requires FamiliesOk(l, s) && id !in s && x.id == id && !x.status.Created? && x.depth <= l.depth
    requires if x.parent.None? then x.depth == 0 && x.creator == x.attempt
             else
               && x.parent.value in s && s[x.parent.value].status.Completed?
               && x.depth == s[x.parent.value].depth + 1 && x.creator == s[x.parent.value].attempt
    ensures FamiliesOk(l, s[id := x])
  {
    var t := s[id := x];
    forall i | i in t
      ensures FamilyOk(t, i) && t[i].depth <= l.depth
    {
      assert i in s ==> FamilyOk(s, i);
    }
  }

  lemma {:induction false} RegisterKeeps(l: Limits, s: Instances, c: Command)
    requires c.Register? && Sound(l, s) && RegisterFits(l, s, c)
    ensures Sound(l, s[c.agent := NewInstance(s, c).(status := Active)])
  {
    var x := NewInstance(s, c).(status := Active);
    RegisterBounded(l, s, c.agent, x);
    RegisterApart(s, c.agent, x);
    RegisterFamilies(l, s, c.agent, x);
  }

  lemma {:induction false} MoveBounded(l: Limits, s: Instances, id: nat, to: Status)
    requires Bounded(l, s) && id in s && Counts(s[id].status)
    ensures Bounded(l, s[id := s[id].(status := to)])
  {
    var t := s[id := s[id].(status := to)];
    SubsetSize(ActiveIds(t), ActiveIds(s));
    assert t.Keys == s.Keys && |s.Keys| == |s| && |t.Keys| == |t|;
  }

  lemma {:induction false} MoveFamilies(l: Limits, s: Instances, id: nat, to: Status)
    requires FamiliesOk(l, s) && id in s && Counts(s[id].status) && !to.Created?
    ensures FamiliesOk(l, s[id := s[id].(status := to)])
  {
    var t := s[id := s[id].(status := to)];
    forall i | i in t
      ensures FamilyOk(t, i) && t[i].depth <= l.depth
    {
      assert FamilyOk(s, i);
    }
  }

  lemma {:induction false} MoveKeeps(l: Limits, s: Instances, id: nat, to: Status)
    requires Sound(l, s) && id in s && Counts(s[id].status) && !to.Created?
    ensures Sound(l, s[id := s[id].(status := to)])
  {
    var t := s[id := s[id].(status := to)];
    MoveBounded(l, s, id, to);
    MoveFamilies(l, s, id, to);
    forall i, j | i in t && j in t
      ensures Apart(t, i, j)
    {
      assert Apart(s, i, j);
    }
  }

  ghost predicate StreamOk(l: Limits, events: seq<Event>) {
    Reduced(events).Some? && Sound(l, Reduced(events).value)
  }

  /** The cause a caller must hand over for its event to stay readable. */
  predicate CauseFits(events: seq<Event>, c: Command) {
    c.Move? && !c.kind.Cancels? && Reduced(events).Some? && c.agent in Reduced(events).value ==>
      c.cause == Reduced(events).value[c.agent].decision
  }

  /** Every command keeps the limits, the family relation and the statuses. */
  lemma {:induction false} AfterKeeps(l: Limits, events: seq<Event>, c: Command)
    requires StreamOk(l, events) && CauseFits(events, c)
    ensures StreamOk(l, After(l, events, c))
  {
    var s := Reduced(events).value;
    if Batch(l, events, c) == [] {
      assert events + [] == events;
    } else if c.Register? {
      RegisterApplies(l, events, c);
      RegisterKeeps(l, s, c);
    } else {
      var e := Batch(l, events, c)[0];
      ReducedMore(events, e);
      MoveAppliesIff(l, events, c);
      MoveKeeps(l, s, c.agent, MoveTo(c.kind, s[c.agent].status, c.outcome).value);
    }
  }

  /** What a command leaves of an instance: all but its status, and a completed one altogether. */
  lemma {:induction false} InstanceKept(l: Limits, events: seq<Event>, c: Command, i: nat)
    requires StreamOk(l, events) && CauseFits(events, c) && i in Reduced(events).value
    ensures Reduced(After(l, events, c)).Some? && i in Reduced(After(l, events, c)).value
    ensures var s, t := Reduced(events).value, Reduced(After(l, events, c)).value;
            && t[i] == s[i].(status := t[i].status) && |s| <= |t|
            && (!Counts(s[i].status) ==> t[i] == s[i])
  {
    AfterKeeps(l, events, c);
    var s, t := Reduced(events).value, Reduced(After(l, events, c)).value;
    if Batch(l, events, c) == [] {
      assert events + [] == events;
    } else if c.Register? {
      RegisterApplies(l, events, c);
    } else {
      ReducedMore(events, Batch(l, events, c)[0]);
    }
    SubsetSize(s.Keys, t.Keys);
    assert |s.Keys| == |s| && |t.Keys| == |t|;
  }

  /** An instance's ancestors are the same, and still completed, after any command. */
  lemma {:induction false} AncestorsKept(l: Limits, events: seq<Event>, c: Command, i: nat)
    requires StreamOk(l, events) && CauseFits(events, c) && i in Reduced(events).value
    ensures StreamOk(l, After(l, events, c)) && i in Reduced(After(l, events, c)).value
    ensures Ancestors(Reduced(After(l, events, c)).value, i) == Ancestors(Reduced(events).value, i)
    decreases Reduced(events).value[i].depth
  {
    AfterKeeps(l, events, c);
    InstanceKept(l, events, c, i);
    var s := Reduced(events).value;
    assert FamilyOk(s, i);
    if s[i].parent.Some? {
      AncestorsKept(l, events, c, s[i].parent.value);
    }
  }

  /** The registry over the shared agent stream. */
  class Registry {
    const limits: Limits
    var events: seq<Event>

    constructor (limits: Limits)
      ensures this.limits == limits && events == [] && StreamOk(limits, events)
    {
      this.limits := limits;
      events := [];
      assert ActiveIds(map[]) == {};
    }

    /** Decides one command on the whole stream and appends its batch. */
    method Submit(c: Command)
      requires StreamOk(limits, events) && CauseFits(events, c)
      modifies this`events
      ensures events == After(limits, old(events), c) && StreamOk(limits, events)
    {
      AfterKeeps(limits, events, c);
      if Issued(events, KeyOf(c)) {
        assert events + [] == events;
        return;
      }
      var s := Reduce(events);
      if c.Register? {
        if RegisterFits(limits, s.value, c) {
          events := events + RegisterBatch(s.value, c);
          return;
        }
      } else if Offered(c) && MoveFits(s.value, c) {
        events := events + [Event(KeyOf(c), c.node, c.attempt, c.generation, c.cause, AgentMoved(c.kind, c.agent, c.outcome))];
        return;
      }
      assert events + [] == events;
    }
  }
}

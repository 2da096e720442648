/** One-shot approvals over a security stream and a budget stream that share one store. */
module Approvals {
  import opened Common
  import Budget

  /** The exact effect one request asks to approve; hashes are injective, so the intent stands for its hash. */
  datatype Request = Request(id: nat, node: nat, originAttempt: nat, originGeneration: nat, action: nat, tool: nat,
                             intent: Budget.Intent, manifest: nat, revocation: nat, deny: nat, expires: nat)

  datatype Attempt = Attempt(node: nat, id: nat, generation: nat, isolation: nat)

  /** What a call reads from outside: the clock, the policy versions and the attempt authority. */
  datatype World = World(now: nat, revocation: nat, deny: nat, current: bool)

  /** A grant's identifier is derived from its request's, so the two share a number here. */
  datatype Body =
    | Requested(request: Request)
    | Granted(request: Request, approver: nat)
    | Grant(grant: nat, action: nat, approver: nat)
    | Denied(id: nat)
    | Revoked(id: nat, ofGrant: Option<nat>)
    | Expired(id: nat, ofGrant: Option<nat>)
    | Bound(grant: nat, attempt: Attempt)

  datatype Key =
    | KRequest(id: nat)
    | KApprove(id: nat)
    | KDeny(id: nat)
    | KRevoke(grant: nat)
    | KBind(grant: nat)
    | KExpire(grant: nat)
    | KRevokeStale(grant: nat)

  datatype Event = Event(key: Key, body: Body)

  datatype Store = Store(security: seq<Event>, budget: seq<Budget.Event>)

  const MaxLifetime := 86_400

  // ----- Searches -----

  function FindRequest(events: seq<Event>, id: nat): Option<Request> {
    if events == [] then None
    else if events[0].body.Requested? && events[0].body.request.id == id then Some(events[0].body.request)
    else FindRequest(events[1..], id)
  }

  /** The action a grant approves. */
  function FindGrant(events: seq<Event>, grant: nat): Option<nat> {
    if events == [] then None
    else if events[0].body.Grant? && events[0].body.grant == grant then Some(events[0].body.action)
    else FindGrant(events[1..], grant)
  }

  function FindBound(events: seq<Event>, grant: nat): Option<Attempt> {
    if events == [] then None
    else if events[0].body.Bound? && events[0].body.grant == grant then Some(events[0].body.attempt)
    else FindBound(events[1..], grant)
  }

  predicate Ends(b: Body, id: nat) {
    || (b.Denied? && b.id == id)
    || (b.Revoked? && (b.id == id || b.ofGrant == Some(id)))
    || (b.Expired? && (b.id == id || b.ofGrant == Some(id)))
  }

  /** Denied, revoked or expired, by request or by grant. */
  predicate Ended(events: seq<Event>, id: nat) {
    exists e :: e in events && Ends(e.body, id)
  }

  predicate Consumed(budget: seq<Budget.Event>, grant: nat) {
    exists e :: e in budget && e.body.ApprovalGrantConsumed? && e.body.consumedGrant == grant
  }

  predicate Declared(budget: seq<Budget.Event>, effect: nat) {
    exists e :: e in budget && e.body.EffectIntentRecorded? && e.body.intent.effect == effect
  }

  /** The request behind a grant. */
  function LoadGrant(events: seq<Event>, grant: nat): Option<Request> {
    if FindGrant(events, grant).None? then None else FindRequest(events, grant)
  }

  predicate PolicyCurrent(w: World, r: Request) {
    w.revocation == r.revocation && w.deny == r.deny
  }

  // ----- Calls -----

  datatype Call =
    | CreateRequest(request: Request, now: nat)
    | Approve(id: nat, approver: nat, authorised: bool, world: World)
    | Deny(id: nat, authorised: bool)
    | Revoke(grant: nat, authorised: bool)
    | Bind(grant: nat, attempt: Attempt, before: World, world: World)
    | RecordExpired(grant: nat)
    | RecordRevoked(grant: nat)
    | Consume(grant: nat, attempt: Attempt, intent: Budget.Intent, estimate: Budget.Estimate, tokenLimit: Option<nat>,
              reservation: nat, configured: Option<Budget.Limit>, seen: nat, before: World, world: World)
    | Receipt(grant: nat, effect: nat, attempt: Attempt, applied: bool, receipt: nat)
    | Other(configured: Option<Budget.Limit>, command: Budget.Command)

  function ApproveBodies(security: seq<Event>, c: Call): seq<Body>
    requires c.Approve?
  {
    var request := FindRequest(security, c.id);
    if !c.authorised || request.None? || Ended(security, c.id) || FindGrant(security, c.id).Some? then []
    else if request.value.expires <= c.world.now then [Expired(c.id, None)]
    else if !PolicyCurrent(c.world, request.value) then [Revoked(c.id, None)]
    else [Granted(request.value, c.approver), Grant(c.id, request.value.action, c.approver)]
  }

  predicate BindFits(r: Request, c: Call)
    requires c.Bind?
  {
    && c.attempt.node == r.node && c.attempt.id != r.originAttempt && c.attempt.generation > r.originGeneration
    && c.before.current && c.before.now < r.expires && PolicyCurrent(c.before, r)
  }

  function BindBodies(s: Store, c: Call): seq<Body>
    requires c.Bind?
  {
    var r := LoadGrant(s.security, c.grant);
    if r.None? || !BindFits(r.value, c) || Ended(s.security, c.grant) then []
    else if c.world.now >= r.value.expires then [Expired(c.grant, None)]
    else if Consumed(s.budget, c.grant) || FindBound(s.security, c.grant).Some? then []
    else if !PolicyCurrent(c.world, r.value) || !c.world.current then []
    else [Bound(c.grant, c.attempt)]
  }

  /** What a call asks the security stream to append. */
  function SecurityBodies(s: Store, c: Call): seq<Body> {
    match c
    case CreateRequest(r, now) =>
      if r.expires <= now || r.expires > now + MaxLifetime || FindRequest(s.security, r.id).Some? then [] else [Requested(r)]
    case Approve(_, _, _, _) => ApproveBodies(s.security, c)
    case Deny(id, authorised) =>
      if !authorised || FindRequest(s.security, id).None? || Ended(s.security, id) || FindGrant(s.security, id).Some? then []
      else [Denied(id)]
    case Revoke(grant, authorised) =>
      if !authorised || LoadGrant(s.security, grant).None? || Consumed(s.budget, grant) then []
      else if exists e :: e in s.security && e.body.Revoked? && e.body.ofGrant == Some(grant) then []
      else [Revoked(grant, Some(grant))]
    case Bind(_, _, _, _) => BindBodies(s, c)
    case RecordExpired(grant) =>
      if LoadGrant(s.security, grant).None? || (exists e :: e in s.security && e.body.Expired? && e.body.id == grant) then []
      else [Expired(grant, Some(grant))]
    case RecordRevoked(grant) =>
      if LoadGrant(s.security, grant).None? || (exists e :: e in s.security && e.body.Revoked? && e.body.ofGrant == Some(grant)) then []
      else [Revoked(grant, Some(grant))]
    case _ => []
  }

  function SecurityKey(c: Call): Key {
    match c
    case CreateRequest(r, _) => KRequest(r.id)
    case Approve(id, _, _, _) => KApprove(id)
    case Deny(id, _) => KDeny(id)
    case Revoke(grant, _) => KRevoke(grant)
    case Bind(grant, _, _, _) => KBind(grant)
    case RecordRevoked(grant) => KRevokeStale(grant)
    case RecordExpired(grant) => KExpire(grant)
    case Consume(grant, _, _, _, _, _, _, _, _, _) => KExpire(grant)
    case Receipt(grant, _, _, _, _) => KExpire(grant)
    case Other(_, _) => KExpire(0)
  }

  function Under(key: Key, bodies: seq<Body>): seq<Event> {
    seq(|bodies|, i requires 0 <= i < |bodies| => Event(key, bodies[i]))
  }

  /** An append whose key is already in the stream adds nothing. */
  function AppendOnce(events: seq<Event>, key: Key, bodies: seq<Body>): seq<Event> {
    if exists e :: e in events && e.key == key then events else events + Under(key, bodies)
  }

  // ----- Consumption -----

  /** The checks made before the transaction, on the stream as it was read then. */
  predicate ConsumeFits(security: seq<Event>, c: Call)
    requires c.Consume?
  {
    var r := LoadGrant(security, c.grant);
    && c.before.current && r.Some?
    && c.estimate.amount <= c.intent.maximumCost
    && c.intent == r.value.intent
    && PolicyCurrent(c.before, r.value) && c.before.now < r.value.expires
    && FindBound(security, c.grant).Some?
  }

  /** The checks made inside the budget transaction, on both streams as they are now. */
  predicate FactoryFits(s: Store, c: Call)
    requires c.Consume?
  {
    var r := LoadGrant(s.security, c.grant);
    var bound := FindBound(s.security, c.grant);
    && r.Some? && bound.Some?
    && !Ended(s.security, c.grant) && !Consumed(s.budget, c.grant)
    && c.world.current && c.world.now < r.value.expires
    && c.world.revocation == c.before.revocation && c.world.deny == c.before.deny
    && bound.value == c.attempt && r.value.node == c.attempt.node
    && FindGrant(s.security, c.grant) == Some(r.value.action)
    && !Declared(s.budget, c.intent.effect)
  }

  function ContextOf(a: Attempt): Budget.Context {
    Budget.Context(Some(a.node), Some(a.id), Some(a.generation))
  }

  /** The reservation a consumption asks for, carrying the approval drafts if the factory makes them. */
  function ReserveFor(s: Store, c: Call): Budget.Command
    requires c.Consume?
  {
    var ctx := ContextOf(c.attempt);
    var approval :=
      if FactoryFits(s, c) then
        Budget.Approval(c.grant, Some((c.grant, c.intent, ctx)), Some((c.grant, c.grant, c.intent.effect, ctx)))
      else Budget.Approval(c.grant, None, None);
    Budget.Reserve(c.reservation, Some(Budget.ForGrant(c.grant)), c.estimate, c.tokenLimit, ctx, Some(approval))
  }

  function ReceiptBodies(budget: seq<Budget.Event>, c: Call): seq<Budget.Body>
    requires c.Receipt?
  {
    if !(exists e :: e in budget && e.body.EffectIntentRecorded? && e.body.intent.effect == c.effect && e.body.grant == c.grant
                     && e.body.intentContext.attempt == Some(c.attempt.id) && e.body.intentContext.generation == Some(c.attempt.generation))
    then []
    else if exists e :: e in budget && e.body.EffectReceiptRecorded? && e.body.receiptEffect == c.effect then []
    else [Budget.EffectReceiptRecorded(c.effect, c.grant, c.applied, c.receipt)]
  }

  function NextBudget(s: Store, c: Call): seq<Budget.Event> {
    match c
    case Consume(_, _, _, _, _, _, configured, seen, _, _) =>
      if seen <= |s.security| && ConsumeFits(s.security[..seen], c) then Budget.After(configured, s.budget, ReserveFor(s, c)) else s.budget
    case Receipt(_, effect, _, _, _) => s.budget + Budget.Under(Budget.KReceipt(effect), ReceiptBodies(s.budget, c))
    case Other(configured, command) =>
      if command.Reserve? && command.approval.Some? then s.budget else Budget.After(configured, s.budget, command)
    case _ => s.budget
  }

  /** The store after one call; each append happens under the store's write lock. */
  function Next(s: Store, c: Call): Store {
    Store(AppendOnce(s.security, SecurityKey(c), SecurityBodies(s, c)), NextBudget(s, c))
  }

  // ----- What every run keeps -----

  predicate RequestFor(r: Request, grant: nat, a: Attempt) {
    r.id == grant && r.node == a.node && r.originAttempt != a.id && r.originGeneration < a.generation
  }

  /** Requests, grants and bindings of the security stream. */
  ghost predicate SecurityOk(events: seq<Event>) {
    && (forall e :: e in events && e.body.Grant? ==> FindRequest(events, e.body.grant).Some?)
    && (forall e :: e in events && e.body.Bound? ==>
          && FindRequest(events, e.body.grant).Some?
          && RequestFor(FindRequest(events, e.body.grant).value, e.body.grant, e.body.attempt)
          && FindBound(events, e.body.grant) == Some(e.body.attempt))
  }

  /** A consumption stands between its intent and its reservation, all about one grant, effect and attempt. */
  ghost predicate Atomic(budget: seq<Budget.Event>, j: int)
    requires 0 <= j < |budget| && budget[j].body.ApprovalGrantConsumed?
  {
    var u := budget[j].body;
    && 0 < j < |budget| - 1
    && budget[j - 1].body.EffectIntentRecorded? && budget[j + 1].body.BudgetReserved?
    && budget[j - 1].body.grant == u.consumedGrant && budget[j + 1].body.reservation.grant == Some(u.consumedGrant)
    && budget[j - 1].body.intent.effect == u.effect
    && budget[j - 1].body.intentContext == u.consumedContext == budget[j + 1].body.context
    && budget[j + 1].body.reservation.estimate.amount <= budget[j - 1].body.intent.maximumCost
    && budget[j - 1].key == budget[j].key == budget[j + 1].key
  }

  ghost predicate BudgetOk(budget: seq<Budget.Event>) {
    && (forall j :: 0 <= j < |budget| && budget[j].body.ApprovalGrantConsumed? ==> Atomic(budget, j))
    && (forall j :: 0 <= j < |budget| && budget[j].body.EffectIntentRecorded? ==>
          j + 1 < |budget| && budget[j + 1].body.ApprovalGrantConsumed?)
    && (forall j :: 0 <= j < |budget| && budget[j].body.BudgetReserved? && budget[j].body.reservation.grant.Some? ==>
          j > 0 && budget[j - 1].body.ApprovalGrantConsumed?)
    && ConsumptionsApart(budget) && IntentsApart(budget)
  }

  /** No grant is consumed twice. */
  ghost predicate ConsumptionsApart(budget: seq<Budget.Event>) {
    forall i, j :: 0 <= i < j < |budget| && budget[i].body.ApprovalGrantConsumed? && budget[j].body.ApprovalGrantConsumed? ==>
                     budget[i].body.consumedGrant != budget[j].body.consumedGrant
  }

  /** No effect is declared twice. */
  ghost predicate IntentsApart(budget: seq<Budget.Event>) {
    forall i, j :: 0 <= i < j < |budget| && budget[i].body.EffectIntentRecorded? && budget[j].body.EffectIntentRecorded? ==>
                     budget[i].body.intent.effect != budget[j].body.intent.effect
  }

  /** A consumption belongs to exactly the attempt its grant is bound to, and declares the approved intent. */
  ghost predicate Justified(s: Store, b: Budget.Body)
    requires b.EffectIntentRecorded?
  {
    && FindRequest(s.security, b.grant).Some? && FindRequest(s.security, b.grant).value.intent == b.intent
    && FindBound(s.security, b.grant).Some? && b.intentContext == ContextOf(FindBound(s.security, b.grant).value)
  }

  ghost predicate Sound(s: Store) {
    && SecurityOk(s.security) && BudgetOk(s.budget) && Budget.Sound(s.budget) && Budget.Owned(s.budget)
    && forall e :: e in s.budget && e.body.EffectIntentRecorded? ==> Justified(s, e.body)
  }

  // ----- Searches keep their answer as the stream grows -----

  lemma {:induction false} FindRequestMore(events: seq<Event>, more: seq<Event>, id: nat)
    ensures FindRequest(events + more, id) ==
            if FindRequest(events, id).Some? then FindRequest(events, id) else FindRequest(more, id)
  {
    if events == [] {
      assert events + more == more;
    } else {
      assert (events + more)[1..] == events[1..] + more;
      FindRequestMore(events[1..], more, id);
    }
  }

  lemma {:induction false} FindBoundMore(events: seq<Event>, more: seq<Event>, grant: nat)
    ensures FindBound(events + more, grant) ==
            if FindBound(events, grant).Some? then FindBound(events, grant) else FindBound(more, grant)
  {
    if events == [] {
      assert events + more == more;
    } else {
      assert (events + more)[1..] == events[1..] + more;
      FindBoundMore(events[1..], more, grant);
    }
  }

  lemma {:induction false} Found(events: seq<Event>, id: nat)
    ensures FindGrant(events, id).Some? ==>
              exists e :: e in events && e.body.Grant? && e.body.grant == id && FindGrant(events, id) == Some(e.body.action)
    ensures FindBound(events, id).Some? ==>
              exists e :: e in events && e.body.Bound? && e.body.grant == id && FindBound(events, id) == Some(e.body.attempt)
    ensures FindRequest(events, id).Some? ==> FindRequest(events, id).value.id == id
  {
    if events != [] {
      Found(events[1..], id);
      assert events == [events[0]] + events[1..];
    }
  }

  lemma {:induction false} SecurityMore(events: seq<Event>, more: seq<Event>)
    requires SecurityOk(events)
    requires forall e :: e in more && e.body.Grant? ==> FindRequest(events, e.body.grant).Some?
    requires forall e :: e in more && e.body.Bound? ==>
               && more == [e] && FindBound(events, e.body.grant).None? && FindRequest(events, e.body.grant).Some?
               && RequestFor(FindRequest(events, e.body.grant).value, e.body.grant, e.body.attempt)
    ensures SecurityOk(events + more)
  {
    forall e | e in events + more && e.body.Grant?
      ensures FindRequest(events + more, e.body.grant).Some?
    {
      FindRequestMore(events, more, e.body.grant);
    }
    forall e | e in events + more && e.body.Bound?
      ensures FindRequest(events + more, e.body.grant).Some?
      ensures RequestFor(FindRequest(events + more, e.body.grant).value, e.body.grant, e.body.attempt)
      ensures FindBound(events + more, e.body.grant) == Some(e.body.attempt)
    {
      FindRequestMore(events, more, e.body.grant);
      FindBoundMore(events, more, e.body.grant);
    }
  }

  lemma {:induction false} PlainSecurity(events: seq<Event>, key: Key, bodies: seq<Body>)
    requires SecurityOk(events) && forall b :: b in bodies ==> !b.Grant? && !b.Bound?
    ensures SecurityOk(events + Under(key, bodies))
  {
    assert forall e :: e in Under(key, bodies) ==> e.body in bodies;
    SecurityMore(events, Under(key, bodies));
  }

  lemma {:induction false} ApproveKeeps(events: seq<Event>, c: Call)
    requires SecurityOk(events) && c.Approve?
    ensures SecurityOk(events + Under(SecurityKey(c), ApproveBodies(events, c)))
  {
    var bodies := ApproveBodies(events, c);
    assert forall e :: e in Under(SecurityKey(c), bodies) ==> e.body in bodies;
    assert forall b :: b in bodies ==> !b.Bound? && (b.Grant? ==> b.grant == c.id && FindRequest(events, c.id).Some?);
    SecurityMore(events, Under(SecurityKey(c), bodies));
  }

  lemma {:induction false} BindKeeps(s: Store, c: Call)
    requires SecurityOk(s.security) && c.Bind?
    ensures SecurityOk(s.security + Under(SecurityKey(c), BindBodies(s, c)))
  {
    var bodies := BindBodies(s, c);
    Found(s.security, c.grant);
    assert forall e :: e in Under(SecurityKey(c), bodies) ==> e.body in bodies;
    assert forall b :: b in bodies ==> !b.Grant?;
    SecurityMore(s.security, Under(SecurityKey(c), bodies));
  }

  lemma {:induction false} OtherSecurity(s: Store, c: Call)
    requires !c.Approve? && !c.Bind?
    ensures forall b :: b in SecurityBodies(s, c) ==> !b.Grant? && !b.Bound?
  {
  }

  lemma {:induction false} SecurityKeeps(s: Store, c: Call)
    requires SecurityOk(s.security)
    ensures SecurityOk(Next(s, c).security)
    ensures exists more :: Next(s, c).security == s.security + more
  {
    var more := Under(SecurityKey(c), SecurityBodies(s, c));
    assert s.security == s.security + [];
    if c.Bind? {
      BindKeeps(s, c);
    } else if c.Approve? {
      ApproveKeeps(s.security, c);
    } else {
      OtherSecurity(s, c);
      PlainSecurity(s.security, SecurityKey(c), SecurityBodies(s, c));
    }
    assert Next(s, c).security == s.security + more || Next(s, c).security == s.security + [];
  }

  // ----- The budget stream -----

  /** A budget event that has nothing to do with approvals. */
  predicate Plain(b: Budget.Body) {
    !b.EffectIntentRecorded? && !b.ApprovalGrantConsumed? && (b.BudgetReserved? ==> b.reservation.grant.None?)
  }

  lemma {:induction false} PlainMore(budget: seq<Budget.Event>, more: seq<Budget.Event>)
    requires BudgetOk(budget) && forall i :: 0 <= i < |more| ==> Plain(more[i].body)
    ensures BudgetOk(budget + more)
  {
    var all := budget + more;
    assert forall j :: 0 <= j < |all| && !Plain(all[j].body) ==> j < |budget|;
    forall j | 0 <= j < |all| && all[j].body.ApprovalGrantConsumed?
      ensures Atomic(all, j)
    {
      assert Atomic(budget, j);
    }
  }

  lemma {:induction false} AtomicStays(budget: seq<Budget.Event>, more: seq<Budget.Event>, j: nat)
    requires j < |budget| && budget[j].body.ApprovalGrantConsumed? && Atomic(budget, j)
    ensures Atomic(budget + more, j)
  {
  }

  lemma {:induction false} AtomicMore(budget: seq<Budget.Event>, more: seq<Budget.Event>)
    requires forall j :: 0 <= j < |budget| && budget[j].body.ApprovalGrantConsumed? ==> Atomic(budget, j)
    requires |more| == 3 && more[1].body.ApprovalGrantConsumed? && Atomic(more, 1)
    ensures forall j :: 0 <= j < |budget + more| && (budget + more)[j].body.ApprovalGrantConsumed? ==> Atomic(budget + more, j)
  {
    var all := budget + more;
    var n := |budget|;
    assert all[n] == more[0] && all[n + 1] == more[1] && all[n + 2] == more[2];
    forall j | 0 <= j < |all| && all[j].body.ApprovalGrantConsumed?
      ensures Atomic(all, j)
    {
      if j < n {
        AtomicStays(budget, more, j);
      }
    }
  }

  lemma {:induction false} TripleMore(budget: seq<Budget.Event>, key: Budget.Key, a: Budget.Body, b: Budget.Body, c: Budget.Body)
    requires BudgetOk(budget) && a.EffectIntentRecorded? && b.ApprovalGrantConsumed? && c.BudgetReserved?
    requires a.grant == b.consumedGrant && c.reservation.grant == Some(a.grant) && a.intent.effect == b.effect
    requires a.intentContext == b.consumedContext == c.context && c.reservation.estimate.amount <= a.intent.maximumCost
    requires !Consumed(budget, a.grant) && !Declared(budget, a.intent.effect)
    ensures BudgetOk(budget + Budget.Under(key, [a, b, c]))
  {
    var more := Budget.Under(key, [a, b, c]);
    assert more[0] == Budget.Event(key, a) && more[1] == Budget.Event(key, b) && more[2] == Budget.Event(key, c);
    AtomicMore(budget, more);
    ConsumptionsMore(budget, more, a.grant);
    IntentsMore(budget, more, a.intent.effect);
  }

  lemma {:induction false} ConsumptionsMore(budget: seq<Budget.Event>, more: seq<Budget.Event>, grant: nat)
    requires ConsumptionsApart(budget) && !Consumed(budget, grant) && |more| == 3
    requires !more[0].body.ApprovalGrantConsumed? && !more[2].body.ApprovalGrantConsumed?
    requires more[1].body.ApprovalGrantConsumed? && more[1].body.consumedGrant == grant
    ensures ConsumptionsApart(budget + more)
  {
    assert forall i :: 0 <= i < |budget| ==> budget[i] in budget;
  }

  lemma {:induction false} IntentsMore(budget: seq<Budget.Event>, more: seq<Budget.Event>, effect: nat)
    requires IntentsApart(budget) && !Declared(budget, effect) && |more| == 3
    requires !more[1].body.EffectIntentRecorded? && !more[2].body.EffectIntentRecorded?
    requires more[0].body.EffectIntentRecorded? && more[0].body.intent.effect == effect
    ensures IntentsApart(budget + more)
  {
    assert forall i :: 0 <= i < |budget| ==> budget[i] in budget;
  }

  /** The three events a consumption appends, together or not at all. */
  function Triple(s: Store, c: Call, limit: Budget.Limit): seq<Budget.Event>
    requires c.Consume?
  {
    var ctx := ContextOf(c.attempt);
    Budget.Under(Budget.KReserve(Budget.ForGrant(c.grant)),
                 [Budget.EffectIntentRecorded(c.grant, c.intent, ctx),
                  Budget.ApprovalGrantConsumed(c.grant, c.grant, c.intent.effect, ctx),
                  Budget.BudgetReserved(Budget.ReservationOf(ReserveFor(s, c), limit), ctx)])
  }

  /**
   A call that consumes a grant does so for exactly the attempt the grant is bound to, newer than
   the one that asked, with the intent that was approved and within its maximum cost, before any
   denial, revocation, expiry or other consumption; its three events are appended as one batch.
   */
  lemma {:induction false} ConsumedJustly(s: Store, c: Call)
    requires Sound(s) && c.Consume? && Next(s, c).budget != s.budget
    ensures !Ended(s.security, c.grant) && !Consumed(s.budget, c.grant) && !Declared(s.budget, c.intent.effect)
    ensures FindBound(s.security, c.grant) == Some(c.attempt)
    ensures FindRequest(s.security, c.grant).Some?
    ensures var r := FindRequest(s.security, c.grant).value;
            RequestFor(r, c.grant, c.attempt) && r.intent == c.intent && c.world.now < r.expires && PolicyCurrent(c.world, r)
    ensures c.estimate.amount <= c.intent.maximumCost && c.world.current
    ensures exists limit :: Next(s, c).budget == s.budget + Triple(s, c, limit)
  {
    ConsumptionFits(s, c);
    Found(s.security, c.grant);
    var before := s.security[..c.seen];
    assert s.security == before + s.security[c.seen..];
    FindRequestMore(before, s.security[c.seen..], c.grant);
    ConsumedTriple(s, c);
  }

  /** Only a call that passes both rounds of checks changes the budget. */
  lemma {:induction false} ConsumptionFits(s: Store, c: Call)
    requires c.Consume? && NextBudget(s, c) != s.budget
    ensures FactoryFits(s, c) && c.seen <= |s.security| && ConsumeFits(s.security[..c.seen], c)
  {
    assert Budget.Decide(c.configured, s.budget, ReserveFor(s, c)).Append?;
  }

  lemma {:induction false} ConsumedTriple(s: Store, c: Call)
    requires c.Consume? && FactoryFits(s, c) && NextBudget(s, c) != s.budget
    ensures exists limit :: NextBudget(s, c) == s.budget + Triple(s, c, limit)
  {
    var limit := Budget.LimitFor(c.configured, s.budget).value;
    assert NextBudget(s, c) == s.budget + Triple(s, c, limit);
  }

  lemma {:induction false} OtherBodies(configured: Option<Budget.Limit>, budget: seq<Budget.Event>, command: Budget.Command)
    requires Budget.Decide(configured, budget, command).Append? && (command.Reserve? ==> command.approval.None?)
    ensures forall i :: 0 <= i < |Budget.Bodies(configured, budget, command)| ==>
                          Plain(Budget.Bodies(configured, budget, command)[i])
  {
  }

  lemma {:induction false} ReceiptKeeps(budget: seq<Budget.Event>, key: Budget.Key, b: Budget.Body)
    requires b.EffectReceiptRecorded? && Budget.Sound(budget) && Budget.Owned(budget)
    ensures Budget.Sound(budget + Budget.Under(key, [b])) && Budget.Owned(budget + Budget.Under(key, [b]))
  {
    Budget.ReplayedMore(budget, Budget.Under(key, [b]));
    Budget.StepOne(Budget.Replayed(budget), key, b);
    Budget.UnderPlain(key, [b]);
    Budget.PersistedMore(budget, Budget.Under(key, [b]));
    Budget.OwnedPlain(budget, Budget.Under(key, [b]));
  }

  lemma {:induction false} JustifiedLater(s: Store, more: seq<Event>, b: Budget.Body)
    requires b.EffectIntentRecorded? && Justified(s, b)
    ensures Justified(Store(s.security + more, s.budget), b)
  {
    FindRequestMore(s.security, more, b.grant);
    FindBoundMore(s.security, more, b.grant);
  }

  lemma {:induction false} TripleKeeps(s: Store, c: Call, limit: Budget.Limit)
    requires BudgetOk(s.budget) && c.Consume? && !Consumed(s.budget, c.grant) && !Declared(s.budget, c.intent.effect)
    requires c.estimate.amount <= c.intent.maximumCost
    ensures BudgetOk(s.budget + Triple(s, c, limit))
    ensures forall e :: e in Triple(s, c, limit) && e.body.EffectIntentRecorded? ==>
                          e.body == Budget.EffectIntentRecorded(c.grant, c.intent, ContextOf(c.attempt))
  {
    var ctx := ContextOf(c.attempt);
    TripleMore(s.budget, Budget.KReserve(Budget.ForGrant(c.grant)),
               Budget.EffectIntentRecorded(c.grant, c.intent, ctx),
               Budget.ApprovalGrantConsumed(c.grant, c.grant, c.intent.effect, ctx),
               Budget.BudgetReserved(Budget.ReservationOf(ReserveFor(s, c), limit), ctx));
  }

  lemma {:induction false} ConsumedLedger(s: Store, c: Call)
    requires Budget.Sound(s.budget) && Budget.Owned(s.budget) && c.Consume?
    ensures Budget.Sound(NextBudget(s, c)) && Budget.Owned(NextBudget(s, c))
  {
    Budget.AfterKeeps(c.configured, s.budget, ReserveFor(s, c));
    Budget.OwnedKept(c.configured, s.budget, ReserveFor(s, c));
  }

  lemma {:induction false} NoSecurity(s: Store, c: Call)
    requires c.Consume?
    ensures Next(s, c) == Store(s.security, NextBudget(s, c))
  {
    assert Under(SecurityKey(c), []) == [];
  }

  lemma {:induction false} ConsumeKeeps(s: Store, c: Call)
    requires Sound(s) && c.Consume?
    ensures Sound(Next(s, c))
  {
    NoSecurity(s, c);
    ConsumedLedger(s, c);
    if Next(s, c).budget != s.budget {
      ConsumedJustly(s, c);
      var limit :| Next(s, c).budget == s.budget + Triple(s, c, limit);
      TripleKeeps(s, c, limit);
      forall e | e in Next(s, c).budget && e.body.EffectIntentRecorded?
        ensures Justified(Next(s, c), e.body)
      {
        if e in s.budget {
          assert Justified(s, e.body);
        } else {
          assert e in Triple(s, c, limit);
        }
      }
    }
  }

  lemma {:induction false} ReceiptStep(budget: seq<Budget.Event>, c: Call)
    requires BudgetOk(budget) && Budget.Sound(budget) && Budget.Owned(budget) && c.Receipt?
    ensures var next := budget + Budget.Under(Budget.KReceipt(c.effect), ReceiptBodies(budget, c));
            && BudgetOk(next) && Budget.Sound(next) && Budget.Owned(next)
            && forall e :: e in next && e.body.EffectIntentRecorded? ==> e in budget
  {
    var key, bodies := Budget.KReceipt(c.effect), ReceiptBodies(budget, c);
    PlainBatch(budget, key, bodies);
    if bodies == [] {
      assert budget + Budget.Under(key, []) == budget;
    } else {
      ReceiptKeeps(budget, key, bodies[0]);
      assert bodies == [bodies[0]];
    }
  }

  lemma {:induction false} OtherStep(configured: Option<Budget.Limit>, budget: seq<Budget.Event>, command: Budget.Command)
    requires BudgetOk(budget) && Budget.Sound(budget) && Budget.Owned(budget) && (command.Reserve? ==> command.approval.None?)
    ensures var next := Budget.After(configured, budget, command);
            && BudgetOk(next) && Budget.Sound(next) && Budget.Owned(next)
            && forall e :: e in next && e.body.EffectIntentRecorded? ==> e in budget
  {
    Budget.AfterKeeps(configured, budget, command);
    Budget.OwnedKept(configured, budget, command);
    if Budget.Decide(configured, budget, command).Append? {
      Budget.AcceptedIsNew(configured, budget, command);
      OtherBodies(configured, budget, command);
      PlainBatch(budget, Budget.KeyOf(command), Budget.Bodies(configured, budget, command));
    }
  }

  lemma {:induction false} PlainBatch(budget: seq<Budget.Event>, key: Budget.Key, bodies: seq<Budget.Body>)
    requires BudgetOk(budget) && forall i :: 0 <= i < |bodies| ==> Plain(bodies[i])
    ensures BudgetOk(budget + Budget.Under(key, bodies))
    ensures forall e :: e in budget + Budget.Under(key, bodies) && e.body.EffectIntentRecorded? ==> e in budget
  {
    PlainMore(budget, Budget.Under(key, bodies));
  }

  lemma {:induction false} BudgetKeeps(s: Store, c: Call)
    requires Sound(s) && !c.Consume?
    ensures BudgetOk(Next(s, c).budget) && Budget.Sound(Next(s, c).budget) && Budget.Owned(Next(s, c).budget)
    ensures forall e :: e in Next(s, c).budget && e.body.EffectIntentRecorded? ==> e in s.budget
  {
    if c.Receipt? {
      ReceiptStep(s.budget, c);
    } else if c.Other? && !(c.command.Reserve? && c.command.approval.Some?) {
      OtherStep(c.configured, s.budget, c.command);
    }
  }

  /** Every call keeps both streams sound: grants are consumed once, atomically, by their bound attempt. */
  lemma {:induction false} NextKeeps(s: Store, c: Call)
    requires Sound(s)
    ensures Sound(Next(s, c))
  {
    if c.Consume? {
      ConsumeKeeps(s, c);
    } else {
      SecurityKeeps(s, c);
      BudgetKeeps(s, c);
      var more :| Next(s, c).security == s.security + more;
      forall e | e in Next(s, c).budget && e.body.EffectIntentRecorded?
        ensures Justified(Next(s, c), e.body)
      {
        JustifiedLater(s, more, e.body);
      }
    }
  }

  function Run(calls: seq<Call>): Store {
    if calls == [] then Store([], []) else Next(Run(calls[..|calls| - 1]), calls[|calls| - 1])
  }

  /** In every interleaving of calls, a grant is consumed at most once, and only as an atomic batch. */
  lemma {:induction false} ConsumedOnce(calls: seq<Call>)
    ensures Sound(Run(calls))
    ensures var budget := Run(calls).budget;
            && (forall i, j :: 0 <= i < j < |budget| && budget[i].body.ApprovalGrantConsumed? && budget[j].body.ApprovalGrantConsumed? ==>
                  budget[i].body.consumedGrant != budget[j].body.consumedGrant)
            && (forall j :: 0 <= j < |budget| && budget[j].body.ApprovalGrantConsumed? ==> Atomic(budget, j))
  {
    if calls != [] {
      ConsumedOnce(calls[..|calls| - 1]);
      NextKeeps(Run(calls[..|calls| - 1]), calls[|calls| - 1]);
    }
  }

  /** The service over the shared store. */
  class ApprovalService {
    var security: seq<Event>
    var budget: seq<Budget.Event>

    function Value(): Store
      reads this
    {
      Store(security, budget)
    }

    constructor ()
      ensures Value() == Store([], []) && Sound(Value())
    {
      security, budget := [], [];
    }

    /** Performs one call; a consumption that changes the budget is a justified one. */
    method Perform(c: Call)
      requires Sound(Value())
      modifies this
      ensures Value() == Next(old(Value()), c) && Sound(Value())
    {
      NextKeeps(Value(), c);
      var bodies := SecurityBodies(Value(), c);
      var more := NextBudget(Value(), c);
      if !exists e :: e in security && e.key == SecurityKey(c) {
        security := security + Under(SecurityKey(c), bodies);
      }
      budget := more;
    }
  }
}

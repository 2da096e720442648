/** The per-Run budget ledger: reservations replayed from events, and the caps they never pass. */
module Budget {
  import opened Common

  // ----- Quantities -----

  /** Everything a Run's envelope can cap. */
  datatype Quantity = Money | AllTokens | Input | Output | Reasoning | Cached

  datatype Counts = Counts(input: nat, output: nat, reasoning: nat, cached: nat)

  function Total(c: Counts): nat {
    c.input + c.output + c.reasoning + c.cached
  }

  function ClassCount(c: Counts, q: Quantity): nat {
    match q
    case Input => c.input
    case Output => c.output
    case Reasoning => c.reasoning
    case Cached => c.cached
    case _ => Total(c)
  }

  datatype Limit = Limit(money: Option<nat>, tokens: Option<nat>, currency: nat,
                         input: Option<nat>, output: Option<nat>, reasoning: Option<nat>, cached: Option<nat>)

  function Cap(l: Limit, q: Quantity): Option<nat> {
    match q
    case Money => l.money
    case AllTokens => l.tokens
    case Input => l.input
    case Output => l.output
    case Reasoning => l.reasoning
    case Cached => l.cached
  }

  /** A worst-case cost at frozen prices, in minor units per million tokens. */
  datatype Estimate = Estimate(amount: nat, currency: nat, tokenLimit: nat, counts: Counts,
                               providerFee: nat, toolFee: nat, prices: Counts, snapshots: nat)

  const Million := 1_000_000

  function CeilMillion(n: nat): nat {
    (n + Million - 1) / Million
  }

  function Priced(c: Counts, prices: Counts): nat {
    c.input * prices.input + c.output * prices.output + c.reasoning * prices.reasoning + c.cached * prices.cached
  }

  function CostAt(c: Counts, prices: Counts, providerFee: nat, toolFee: nat): nat {
    CeilMillion(Priced(c, prices)) + providerFee + toolFee
  }

  /** An estimate of the ledger itself; a token limit below the counts is refused. */
  function MakeEstimate(counts: Counts, prices: Counts, providerFee: nat, toolFee: nat, currency: nat, snapshots: nat,
                        tokenLimit: Option<nat>): Option<Estimate> {
    var limit := if tokenLimit.Some? then tokenLimit.value else Total(counts);
    if limit < Total(counts) then None
    else Some(Estimate(CostAt(counts, prices, providerFee, toolFee), currency, limit, counts, providerFee, toolFee, prices, snapshots))
  }

  // ----- Events -----

  datatype Context = Context(node: Option<nat>, attempt: Option<nat>, generation: Option<nat>)

  /** The payload of a reservation, with the envelope it was made under. */
  datatype Reservation = Reservation(id: nat, estimate: Estimate, tokens: nat, limit: Limit, grant: Option<nat>)

  datatype SettlementKey = DefaultKey(reservation: nat) | Chosen(key: nat)

  datatype Record = Record(reservation: nat, key: SettlementKey, currency: nat, counts: Counts,
                           providerFee: nat, toolFee: nat, cost: nat)

  datatype Status = Reserved | Committed | Released | Unknown

  datatype Reason = Stated(reason: nat) | SettlementRemainder

  /** An approved effect, declared before it is attempted. */
  datatype Intent = Intent(effect: nat, target: nat, parameters: nat, providerKey: Option<nat>, maximumCost: nat, recovery: nat)

  datatype Body =
    | BudgetReserved(reservation: Reservation, context: Context)
    | UsageObserved(record: Record)
    | CostCommitted(record: Record)
    | BudgetReleased(id: nat, minor: nat, tokens: nat, status: Status, reason: Reason)
    | MarkedUnknown(id: nat, unknownReason: nat)
    | UsageReconciled(id: nat, key: SettlementKey, minorChange: int, tokenChange: int)
    | EffectIntentRecorded(grant: nat, intent: Intent, intentContext: Context)
    | ApprovalGrantConsumed(consumedGrant: nat, request: nat, effect: nat, consumedContext: Context)
    | EffectReceiptRecorded(receiptEffect: nat, receiptGrant: nat, applied: bool, receipt: nat)

  datatype CallerKey = Plain(key: nat) | ForGrant(grant: nat)

  datatype Key =
    | KReserveId(id: nat)
    | KReserve(caller: CallerKey)
    | KUnknown(id: nat)
    | KSettle(id: nat, settlement: SettlementKey)
    | KReconcile(id: nat, settlement: SettlementKey)
    | KRelease(id: nat)
    | KReceipt(effect: nat)

  datatype Event = Event(key: Key, body: Body)

  // ----- Replay -----

  datatype State = State(reservation: Reservation, status: Status, cost: nat, usedTokens: nat,
                         released: nat, releasedTokens: nat, usage: Option<Record>)

  /** The reservation an event is about, if it is about one. */
  function About(b: Body): Option<nat> {
    match b
    case BudgetReserved(r, _) => Some(r.id)
    case UsageObserved(u) => Some(u.reservation)
    case CostCommitted(u) => Some(u.reservation)
    case BudgetReleased(id, _, _, _, _) => Some(id)
    case MarkedUnknown(id, _) => Some(id)
    case UsageReconciled(id, _, _, _) => Some(id)
    case _ => None
  }

  /** Reservations in the order they were first made, as the replayed dictionary keeps them. */
  function IndexOf(states: seq<State>, id: nat): (i: int)
    ensures -1 <= i < |states|
    ensures i >= 0 ==> states[i].reservation.id == id
    ensures i < 0 ==> forall k :: 0 <= k < |states| ==> states[k].reservation.id != id
  {
    if states == [] then -1
    else
      var n := |states| - 1;
      var i := IndexOf(states[..n], id);
      if i >= 0 then i else if states[n].reservation.id == id then n else -1
  }

  function Changed(st: State, b: Body): State {
    match b
    case UsageObserved(u) => st.(usage := Some(u))
    case CostCommitted(u) =>
      st.(cost := u.cost, usedTokens := Total(u.counts), status := Committed,
          usage := if st.usage.None? then Some(u) else st.usage)
    case BudgetReleased(_, minor, tokens, status, _) =>
      st.(released := st.released + minor, releasedTokens := st.releasedTokens + tokens,
          status := if st.status.Reserved? then status else st.status)
    case MarkedUnknown(_, _) => st.(status := Unknown)
    case _ => st
  }

  function Step(states: seq<State>, b: Body): seq<State> {
    if About(b).None? then states
    else
      var i := IndexOf(states, About(b).value);
      if b.BudgetReserved? then
        var st := State(b.reservation, Reserved, 0, 0, 0, 0, None);
        if i < 0 then states + [st] else states[i := st]
      else if i < 0 then states
      else states[i := Changed(states[i], b)]
  }

  function StepAll(states: seq<State>, events: seq<Event>): seq<State> {
    if events == [] then states else Step(StepAll(states, events[..|events| - 1]), events[|events| - 1].body)
  }

  function Replayed(events: seq<Event>): seq<State> {
    StepAll([], events)
  }

  method Replay(events: seq<Event>) returns (states: seq<State>)
    ensures states == Replayed(events)
  {
    states := [];
    for k := 0 to |events|
      invariant states == Replayed(events[..k])
    {
      assert events[..k + 1][..k] == events[..k];
      states := Step(states, events[k].body);
    }
    assert events[..|events|] == events;
  }

  lemma {:induction false} StepAllMore(states: seq<State>, a: seq<Event>, b: seq<Event>)
    ensures StepAll(states, a + b) == StepAll(StepAll(states, a), b)
    decreases |b|
  {
    if b == [] {
      assert a + b == a;
    } else {
      assert (a + b)[..|a + b| - 1] == a + b[..|b| - 1];
      StepAllMore(states, a, b[..|b| - 1]);
    }
  }

  // ----- Balances -----

  datatype Part = UsedPart | ReservedPart | UnknownPart

  function Held(r: Reservation, q: Quantity): nat {
    match q
    case Money => r.estimate.amount
    case AllTokens => r.tokens
    case _ => ClassCount(r.estimate.counts, q)
  }

  function Spent(u: Record, q: Quantity): nat {
    match q
    case Money => u.cost
    case _ => ClassCount(u.counts, q)
  }

  function UsedBy(st: State, q: Quantity): nat {
    if !st.status.Committed? then 0
    else match q
      case Money => st.cost
      case AllTokens => st.usedTokens
      case _ => if st.usage.Some? then ClassCount(st.usage.value.counts, q) else 0
  }

  function PartOf(st: State, part: Part, q: Quantity): nat {
    match part
    case UsedPart => UsedBy(st, q)
    case ReservedPart => if st.status.Reserved? then Held(st.reservation, q) else 0
    case UnknownPart => if st.status.Unknown? then Held(st.reservation, q) else 0
  }

  /** One figure of the balance: the sum over all reservations. */
  function Balance(states: seq<State>, part: Part, q: Quantity): nat {
    if states == [] then 0
    else Balance(states[..|states| - 1], part, q) + PartOf(states[|states| - 1], part, q)
  }

  function HeldNow(states: seq<State>, q: Quantity): nat {
    Balance(states, ReservedPart, q) + Balance(states, UnknownPart, q)
  }

  function Max(a: int, b: int): int {
    if a < b then b else a
  }

  function Available(cap: nat, states: seq<State>, q: Quantity): int {
    Max(0, cap - Balance(states, UsedPart, q) - HeldNow(states, q))
  }

  /** Whether a new reservation fits: the money and token checks clamp, the class checks do not. */
  predicate ReservationFits(l: Limit, states: seq<State>, r: Reservation) {
    && (l.money.Some? ==> Available(l.money.value, states, Money) >= Held(r, Money))
    && (l.tokens.Some? ==> Available(l.tokens.value, states, AllTokens) >= Held(r, AllTokens))
    && forall q :: q != Money && q != AllTokens && Cap(l, q).Some? ==>
         Balance(states, UsedPart, q) + HeldNow(states, q) + Held(r, q) <= Cap(l, q).value
  }

  /** Whether what was really used fits in place of what was held. */
  predicate SettlementFits(l: Limit, states: seq<State>, u: Record, st: State) {
    forall q :: Cap(l, q).Some? ==>
      Balance(states, UsedPart, q) + Max(0, HeldNow(states, q) - Held(st.reservation, q)) + Spent(u, q) <= Cap(l, q).value
  }

  // ----- Decisions -----

  datatype Approval = Approval(grant: nat, intent: Option<(nat, Intent, Context)>, consumption: Option<(nat, nat, nat, Context)>)

  /** Usage as the caller reports it. */
  datatype Usage = Usage(counts: Counts, providerFee: nat, toolFee: nat, cost: Option<nat>, currency: Option<nat>)

  datatype Command =
    | Reserve(id: nat, caller: Option<CallerKey>, estimate: Estimate, tokenLimit: Option<nat>, context: Context, approval: Option<Approval>)
    | MarkUnknown(id: nat, reason: nat)
    | Settle(id: nat, usage: Usage, key: Option<nat>, reconcile: bool)
    | Release(id: nat, reason: nat)

  datatype Decision = Append(batch: seq<Event>) | NoOp | Refused

  function Keyed(events: seq<Event>, key: Key): seq<Event> {
    if events == [] then []
    else
      var rest := Keyed(events[..|events| - 1], key);
      if events[|events| - 1].key == key then rest + [events[|events| - 1]] else rest
  }

  function SettlementKeyOf(b: Body): Option<SettlementKey> {
    match b
    case UsageObserved(u) => Some(u.key)
    case CostCommitted(u) => Some(u.key)
    case UsageReconciled(_, key, _, _) => Some(key)
    case _ => None
  }

  function SettlementEvents(events: seq<Event>, key: SettlementKey): seq<Event> {
    if events == [] then []
    else
      var rest := SettlementEvents(events[..|events| - 1], key);
      if SettlementKeyOf(events[|events| - 1].body) == Some(key) then rest + [events[|events| - 1]] else rest
  }

  /** The envelope of the first reservation, which is the one that counts after a reopen. */
  function PersistedLimit(events: seq<Event>): Option<Limit> {
    if events == [] then None
    else if events[0].body.BudgetReserved? then
      Some(events[0].body.reservation.limit.(currency := events[0].body.reservation.estimate.currency))
    else PersistedLimit(events[1..])
  }

  function LimitFor(configured: Option<Limit>, events: seq<Event>): Option<Limit> {
    var persisted := PersistedLimit(events);
    if persisted.None? then configured
    else if configured.Some? && configured != persisted then None
    else persisted
  }

  function KeyOf(c: Command): Key {
    match c
    case Reserve(id, caller, _, _, _, _) => if caller.None? then KReserveId(id) else KReserve(caller.value)
    case MarkUnknown(id, _) => KUnknown(id)
    case Settle(id, _, key, reconcile) => if reconcile then KReconcile(id, SettlementKeyFor(c)) else KSettle(id, SettlementKeyFor(c))
    case Release(id, _) => KRelease(id)
  }

  function SettlementKeyFor(c: Command): SettlementKey
    requires c.Settle?
  {
    if c.key.None? then DefaultKey(c.id) else Chosen(c.key.value)
  }

  /** The bodies of a batch, all appended under the command's key. */
  function Under(key: Key, bodies: seq<Body>): seq<Event> {
    seq(|bodies|, i requires 0 <= i < |bodies| => Event(key, bodies[i]))
  }

  function ReservationOf(c: Command, limit: Limit): Reservation
    requires c.Reserve?
  {
    Reservation(c.id, c.estimate, if c.tokenLimit.Some? then c.tokenLimit.value else c.estimate.tokenLimit, limit,
                if c.approval.Some? then Some(c.approval.value.grant) else None)
  }

  function FirstReserved(events: seq<Event>): Option<Reservation> {
    if events == [] then None
    else if events[0].body.BudgetReserved? then Some(events[0].body.reservation)
    else FirstReserved(events[1..])
  }

  predicate ApprovalFits(c: Command)
    requires c.Reserve? && c.approval.Some?
  {
    var a := c.approval.value;
    && a.intent.Some? && a.consumption.Some?
    && a.intent.value.0 == a.grant && a.consumption.value.0 == a.grant
    && a.intent.value.1.effect == a.consumption.value.2
    && a.intent.value.2 == c.context && a.consumption.value.3 == c.context
  }

  function ReserveBodies(c: Command, r: Reservation): seq<Body>
    requires c.Reserve?
  {
    if c.approval.Some? && ApprovalFits(c) then
      var (i, u) := (c.approval.value.intent.value, c.approval.value.consumption.value);
      [EffectIntentRecorded(i.0, i.1, i.2), ApprovalGrantConsumed(u.0, u.1, u.2, u.3), BudgetReserved(r, c.context)]
    else [BudgetReserved(r, c.context)]
  }

  function DecideReserve(configured: Option<Limit>, events: seq<Event>, states: seq<State>, c: Command): Decision
    requires c.Reserve?
  {
    var limit := LimitFor(configured, events);
    if (if c.tokenLimit.Some? then c.tokenLimit.value else c.estimate.tokenLimit) < Total(c.estimate.counts) then Refused
    else if c.approval.Some? && (c.context.node.None? || c.context.attempt.None? || c.context.generation.None?) then Refused
    else if limit.None? || limit.value.currency != c.estimate.currency then Refused
    else
      var r := ReservationOf(c, limit.value);
      var same := Keyed(events, KeyOf(c));
      if same != [] then (if FirstReserved(same) == Some(r) then NoOp else Refused)
      else if IndexOf(states, c.id) >= 0 || !ReservationFits(limit.value, states, r) then Refused
      else if c.approval.Some? && !ApprovalFits(c) then Refused
      else Append(Under(KeyOf(c), ReserveBodies(c, r)))
  }

  function DecideUnknown(events: seq<Event>, states: seq<State>, c: Command): Decision
    requires c.MarkUnknown?
  {
    var i := IndexOf(states, c.id);
    var same := Keyed(events, KeyOf(c));
    if i < 0 then Refused
    else if same != [] then
      (if same[0].body == MarkedUnknown(c.id, c.reason) && states[i].status.Unknown? then NoOp else Refused)
    else if states[i].status.Unknown? then NoOp
    else if !states[i].status.Reserved? then Refused
    else Append(Under(KeyOf(c), [MarkedUnknown(c.id, c.reason)]))
  }

  /** The usage record a settlement writes, priced at the reservation's own rates. */
  function BuildUsage(st: State, usage: Usage, key: SettlementKey): Option<Record> {
    var e := st.reservation.estimate;
    if usage.currency.Some? && usage.currency.value != e.currency then None
    else Some(Record(st.reservation.id, key, e.currency, usage.counts, usage.providerFee, usage.toolFee,
                     if usage.cost.Some? then usage.cost.value
                     else CostAt(usage.counts, e.prices, usage.providerFee, usage.toolFee)))
  }

  function FirstObserved(events: seq<Event>): Option<Record> {
    if events == [] then None
    else if events[0].body.UsageObserved? then Some(events[0].body.record) else FirstObserved(events[1..])
  }

  function FirstCommitted(events: seq<Event>): Option<Record> {
    if events == [] then None
    else if events[0].body.CostCommitted? then Some(events[0].body.record) else FirstCommitted(events[1..])
  }

  function FirstReconciled(events: seq<Event>, id: nat, key: SettlementKey): Option<Body> {
    if events == [] then None
    else if events[0].body.UsageReconciled? && events[0].body.id == id && events[0].body.key == key then Some(events[0].body)
    else FirstReconciled(events[1..], id, key)
  }

  function ReconciledBody(st: State, u: Record): Body {
    UsageReconciled(u.reservation, u.key, u.cost - st.reservation.estimate.amount, Total(u.counts) - st.reservation.tokens)
  }

  /** The three events of a settlement, without the marker of a reconciliation. */
  function SettleCore(st: State, u: Record): (bodies: seq<Body>)
    ensures |bodies| == 3
  {
    [UsageObserved(u), CostCommitted(u),
     BudgetReleased(u.reservation, Max(0, st.reservation.estimate.amount - u.cost), Max(0, st.reservation.tokens - Total(u.counts)),
                    Committed, SettlementRemainder)]
  }

  function SettleBodies(st: State, u: Record): seq<Body> {
    SettleCore(st, u) + if st.status.Unknown? then [ReconciledBody(st, u)] else []
  }

  /** The answer to a settlement whose key is already in the stream. */
  function AnswerSettled(prior: seq<Event>, st: State, c: Command): Decision
    requires c.Settle?
  {
    var key := SettlementKeyFor(c);
    var u := BuildUsage(st, c.usage, key);
    var marker := FirstReconciled(prior, c.id, key);
    if FirstCommitted(prior).None? || u.None? then Refused
    else if FirstObserved(prior) != u || FirstCommitted(prior) != u then Refused
    else if c.reconcile then (if marker == Some(ReconciledBody(st, u.value)) then NoOp else Refused)
    else if marker.Some? then Refused
    else NoOp
  }

  function DecideSettle(configured: Option<Limit>, events: seq<Event>, states: seq<State>, c: Command): Decision
    requires c.Settle?
  {
    var i := IndexOf(states, c.id);
    var key := SettlementKeyFor(c);
    var same := Keyed(events, KeyOf(c));
    var settled := SettlementEvents(events, key);
    if c.reconcile && c.key.None? then Refused
    else if (exists e :: e in settled && About(e.body) != Some(c.id)) || i < 0 then Refused
    else if same != [] || settled != [] then AnswerSettled(if same != [] then same else settled, states[i], c)
    else if states[i].status.Committed? then
      (if !c.reconcile && states[i].usage.Some? && states[i].usage.value.key == key then NoOp else Refused)
    else if states[i].status.Released? || states[i].status.Unknown? != c.reconcile then Refused
    else
      var u := BuildUsage(states[i], c.usage, key);
      var limit := LimitFor(configured, events);
      if u.None? || limit.None? || !SettlementFits(limit.value, states, u.value, states[i]) then Refused
      else Append(Under(KeyOf(c), SettleBodies(states[i], u.value)))
  }

  function ReleaseBody(st: State, c: Command): Body
    requires c.Release?
  {
    BudgetReleased(c.id, st.reservation.estimate.amount, st.reservation.tokens, Released, Stated(c.reason))
  }

  function FirstReleased(events: seq<Event>, id: Option<nat>): Option<Body> {
    if events == [] then None
    else if events[0].body.BudgetReleased? && (id.None? || id == Some(events[0].body.id)) then Some(events[0].body)
    else FirstReleased(events[1..], id)
  }

  function DecideRelease(events: seq<Event>, states: seq<State>, c: Command): Decision
    requires c.Release?
  {
    var i := IndexOf(states, c.id);
    var same := Keyed(events, KeyOf(c));
    if i < 0 then Refused
    else if same != [] then (if FirstReleased(same, None) == Some(ReleaseBody(states[i], c)) then NoOp else Refused)
    else if states[i].status.Released? then
      var prior := FirstReleased(events, Some(c.id));
      if prior.Some? && prior != Some(ReleaseBody(states[i], c)) then Refused else NoOp
    else if states[i].status.Committed? then NoOp
    else if states[i].status.Unknown? then Refused
    else Append(Under(KeyOf(c), [ReleaseBody(states[i], c)]))
  }

  function DecideOn(configured: Option<Limit>, events: seq<Event>, states: seq<State>, c: Command): Decision {
    match c
    case Reserve(_, _, _, _, _, _) => DecideReserve(configured, events, states, c)
    case MarkUnknown(_, _) => DecideUnknown(events, states, c)
    case Settle(_, _, _, _) => DecideSettle(configured, events, states, c)
    case Release(_, _) => DecideRelease(events, states, c)
  }

  function Decide(configured: Option<Limit>, events: seq<Event>, c: Command): Decision {
    DecideOn(configured, events, Replayed(events), c)
  }

  /** The stream after one command, decided atomically under the store's write lock. */
  function After(configured: Option<Limit>, events: seq<Event>, c: Command): seq<Event> {
    match Decide(configured, events, c)
    case Append(batch) => events + batch
    case _ => events
  }

  // ----- Sums -----

  lemma {:induction false} BalanceMore(states: seq<State>, st: State, part: Part, q: Quantity)
    ensures Balance(states + [st], part, q) == Balance(states, part, q) + PartOf(st, part, q)
  {
    assert (states + [st])[..|states|] == states;
  }

  lemma {:induction false} BalanceChanged(states: seq<State>, i: nat, st: State, part: Part, q: Quantity)
    requires i < |states|
    ensures Balance(states[i := st], part, q) == Balance(states, part, q) - PartOf(states[i], part, q) + PartOf(st, part, q)
    ensures Balance(states, part, q) >= PartOf(states[i], part, q)
    decreases |states|
  {
    var n := |states| - 1;
    if i == n {
      assert states[i := st][..n] == states[..n];
    } else {
      assert states[i := st][..n] == states[..n][i := st];
      BalanceChanged(states[..n], i, st, part, q);
    }
  }

  /** Everything a reservation now counts against a cap. */
  function Load(st: State, q: Quantity): nat {
    PartOf(st, UsedPart, q) + PartOf(st, ReservedPart, q) + PartOf(st, UnknownPart, q)
  }

  function TotalLoad(states: seq<State>, q: Quantity): nat {
    Balance(states, UsedPart, q) + HeldNow(states, q)
  }

  lemma {:induction false} LoadMore(states: seq<State>, st: State, q: Quantity)
    ensures TotalLoad(states + [st], q) == TotalLoad(states, q) + Load(st, q)
  {
    BalanceMore(states, st, UsedPart, q);
    BalanceMore(states, st, ReservedPart, q);
    BalanceMore(states, st, UnknownPart, q);
  }

  lemma {:induction false} LoadChanged(states: seq<State>, i: nat, st: State, q: Quantity)
    requires i < |states|
    ensures TotalLoad(states[i := st], q) == TotalLoad(states, q) - Load(states[i], q) + Load(st, q)
    ensures HeldNow(states, q) >= PartOf(states[i], ReservedPart, q) + PartOf(states[i], UnknownPart, q)
  {
    BalanceChanged(states, i, st, UsedPart, q);
    BalanceChanged(states, i, st, ReservedPart, q);
    BalanceChanged(states, i, st, UnknownPart, q);
  }

  // ----- What every stream keeps -----

  /** A reservation's figures agree with its status. */
  predicate StateOk(st: State) {
    && Total(st.reservation.estimate.counts) <= st.reservation.tokens
    && match st.status
       case Committed =>
         && st.usage.Some? && st.cost == st.usage.value.cost && st.usedTokens == Total(st.usage.value.counts)
         && st.released == Max(0, st.reservation.estimate.amount - st.cost)
         && st.releasedTokens == Max(0, st.reservation.tokens - st.usedTokens)
       case Released =>
         && st.usage.None? && st.cost == st.usedTokens == 0
         && st.released == st.reservation.estimate.amount && st.releasedTokens == st.reservation.tokens
       case _ => st.usage.None? && st.cost == st.usedTokens == st.released == st.releasedTokens == 0
  }

  ghost predicate UniqueReservations(states: seq<State>) {
    forall i, j :: 0 <= i < j < |states| ==> states[i].reservation.id != states[j].reservation.id
  }

  ghost predicate StatesOk(states: seq<State>) {
    && (forall i :: 0 <= i < |states| ==> StateOk(states[i]))
    && UniqueReservations(states)
  }

  /** No figure passes its cap: used, reserved and unknown together stay within the envelope. */
  ghost predicate WithinCaps(states: seq<State>, l: Limit) {
    forall q :: Cap(l, q).Some? ==> TotalLoad(states, q) <= Cap(l, q).value
  }

  ghost predicate Envelope(states: seq<State>, limit: Option<Limit>) {
    if limit.None? then states == []
    else
      && WithinCaps(states, limit.value)
      && forall i :: 0 <= i < |states| ==>
           states[i].reservation.limit == limit.value && states[i].reservation.estimate.currency == limit.value.currency
  }

  ghost predicate Sound(events: seq<Event>) {
    StatesOk(Replayed(events)) && Envelope(Replayed(events), PersistedLimit(events))
  }

  lemma {:induction false} PersistedMore(a: seq<Event>, b: seq<Event>)
    ensures PersistedLimit(a + b) == if PersistedLimit(a).Some? then PersistedLimit(a) else PersistedLimit(b)
  {
    if a == [] {
      assert a + b == b;
    } else {
      assert (a + b)[1..] == a[1..] + b;
      PersistedMore(a[1..], b);
    }
  }

  lemma {:induction false} NoReservation(batch: seq<Event>)
    requires forall i :: 0 <= i < |batch| ==> !batch[i].body.BudgetReserved?
    ensures PersistedLimit(batch) == None
  {
    if batch != [] {
      NoReservation(batch[1..]);
    }
  }

  // ----- What each batch does to the replayed states -----

  lemma {:induction false} StepUnder(states: seq<State>, key: Key, bodies: seq<Body>)
    ensures StepAll(states, Under(key, bodies)) ==
            if bodies == [] then states else Step(StepAll(states, Under(key, bodies[..|bodies| - 1])), bodies[|bodies| - 1])
  {
    if bodies != [] {
      assert Under(key, bodies)[..|bodies| - 1] == Under(key, bodies[..|bodies| - 1]);
    }
  }

  lemma {:induction false} StepOne(states: seq<State>, key: Key, b: Body)
    ensures StepAll(states, Under(key, [b])) == Step(states, b)
  {
    StepUnder(states, key, [b]);
    StepUnder(states, key, []);
    assert [b][..0] == [];
  }

  lemma {:induction false} IndexUnique(states: seq<State>, i: nat)
    requires i < |states| && UniqueReservations(states)
    ensures IndexOf(states, states[i].reservation.id) == i
  {
    var j := IndexOf(states, states[i].reservation.id);
    assert j >= 0;
  }

  function Made(r: Reservation): State {
    State(r, Reserved, 0, 0, 0, 0, None)
  }

  lemma {:induction false} ReserveBatch(states: seq<State>, c: Command, r: Reservation)
    requires c.Reserve? && IndexOf(states, r.id) < 0
    ensures StepAll(states, Under(KeyOf(c), ReserveBodies(c, r))) == states + [Made(r)]
  {
    var bodies := ReserveBodies(c, r);
    var key := KeyOf(c);
    StepUnder(states, key, bodies);
    if |bodies| == 3 {
      assert bodies[..2][..1] == bodies[..1];
      assert bodies[..1][..0] == [];
      StepUnder(states, key, bodies[..2]);
      StepUnder(states, key, bodies[..1]);
      StepUnder(states, key, []);
    } else {
      assert bodies[..0] == [];
      StepUnder(states, key, []);
    }
  }

  /** A reservation once its usage is settled. */
  function Settled(st: State, u: Record): State {
    State(st.reservation, Committed, u.cost, Total(u.counts), st.released + Max(0, st.reservation.estimate.amount - u.cost),
          st.releasedTokens + Max(0, st.reservation.tokens - Total(u.counts)), Some(u))
  }

  lemma {:induction false} StepAt(states: seq<State>, i: nat, b: Body)
    requires UniqueReservations(states) && i < |states| && About(b) == Some(states[i].reservation.id) && !b.BudgetReserved?
    ensures Step(states, b) == states[i := Changed(states[i], b)]
    ensures UniqueReservations(states[i := Changed(states[i], b)])
    ensures Changed(states[i], b).reservation == states[i].reservation
  {
    IndexUnique(states, i);
  }

  lemma {:induction false} StepThree(states: seq<State>, key: Key, a: Body, b: Body, c: Body)
    ensures StepAll(states, Under(key, [a, b, c])) == Step(Step(Step(states, a), b), c)
  {
    StepUnder(states, key, [a, b, c]);
    assert [a, b, c][..2] == [a, b];
    StepUnder(states, key, [a, b]);
    assert [a, b][..1] == [a];
    StepOne(states, key, a);
  }

  lemma {:induction false} SettleSteps(states: seq<State>, i: nat, a: Body, b: Body, c: Body)
    requires UniqueReservations(states) && i < |states|
    requires About(a) == About(b) == About(c) == Some(states[i].reservation.id)
    requires !a.BudgetReserved? && !b.BudgetReserved? && !c.BudgetReserved?
    ensures Step(Step(Step(states, a), b), c) == states[i := Changed(Changed(Changed(states[i], a), b), c)]
  {
    StepAt(states, i, a);
    var s1 := states[i := Changed(states[i], a)];
    StepAt(s1, i, b);
    var s2 := s1[i := Changed(s1[i], b)];
    StepAt(s2, i, c);
    assert s2[i := Changed(s2[i], c)] == states[i := Changed(s2[i], c)];
  }

  lemma {:induction false} MarkerStep(states: seq<State>, key: Key, front: seq<Body>, marker: Body)
    requires marker.UsageReconciled?
    ensures StepAll(states, Under(key, front + [marker])) == StepAll(states, Under(key, front))
  {
    StepUnder(states, key, front + [marker]);
    assert (front + [marker])[..|front|] == front;
  }

  lemma {:induction false} CoreBatch(states: seq<State>, i: nat, u: Record, key: Key)
    requires UniqueReservations(states) && i < |states| && u.reservation == states[i].reservation.id && states[i].usage.None?
    ensures StepAll(states, Under(key, SettleCore(states[i], u))) == states[i := Settled(states[i], u)]
  {
    var st := states[i];
    var core := SettleCore(st, u);
    SettleSteps(states, i, core[0], core[1], core[2]);
    StepThree(states, key, core[0], core[1], core[2]);
    assert core == [core[0], core[1], core[2]];
  }

  lemma {:induction false} SettleBatch(states: seq<State>, i: nat, u: Record, key: Key)
    requires UniqueReservations(states) && i < |states| && u.reservation == states[i].reservation.id && states[i].usage.None?
    ensures StepAll(states, Under(key, SettleBodies(states[i], u))) == states[i := Settled(states[i], u)]
  {
    CoreBatch(states, i, u, key);
    MarkerStep(states, key, SettleCore(states[i], u), ReconciledBody(states[i], u));
    assert SettleCore(states[i], u) + [] == SettleCore(states[i], u);
  }

  // ----- Every command keeps the ledger sound -----

  lemma {:induction false} RoomFor(states: seq<State>, l: Limit, r: Reservation, q: Quantity)
    requires WithinCaps(states, l) && ReservationFits(l, states, r) && Cap(l, q).Some?
    ensures TotalLoad(states, q) + Held(r, q) <= Cap(l, q).value
  {
    assert TotalLoad(states, q) <= Cap(l, q).value;
    match q {
      case Money =>
      case AllTokens =>
      case _ =>
    }
  }

  lemma {:induction false} MadeStates(states: seq<State>, r: Reservation)
    requires StatesOk(states) && IndexOf(states, r.id) < 0 && Total(r.estimate.counts) <= r.tokens
    ensures StatesOk(states + [Made(r)])
  {
  }

  lemma {:induction false} MadeKeeps(states: seq<State>, l: Limit, r: Reservation)
    requires StatesOk(states) && WithinCaps(states, l) && ReservationFits(l, states, r)
    requires IndexOf(states, r.id) < 0 && Total(r.estimate.counts) <= r.tokens
    ensures StatesOk(states + [Made(r)]) && WithinCaps(states + [Made(r)], l)
  {
    MadeStates(states, r);
    forall q | Cap(l, q).Some?
      ensures TotalLoad(states + [Made(r)], q) <= Cap(l, q).value
    {
      LoadMore(states, Made(r), q);
      RoomFor(states, l, r, q);
      assert Load(Made(r), q) == Held(r, q);
    }
  }

  lemma {:induction false} ChangedKeeps(states: seq<State>, l: Limit, i: nat, st: State)
    requires StatesOk(states) && WithinCaps(states, l) && i < |states| && StateOk(st)
    requires st.reservation == states[i].reservation
    requires forall q :: Load(st, q) <= Load(states[i], q)
    ensures StatesOk(states[i := st]) && WithinCaps(states[i := st], l)
  {
    forall q | Cap(l, q).Some?
      ensures TotalLoad(states[i := st], q) <= Cap(l, q).value
    {
      LoadChanged(states, i, st, q);
    }
  }

  lemma {:induction false} SettledKeeps(states: seq<State>, l: Limit, i: nat, u: Record)
    requires StatesOk(states) && WithinCaps(states, l) && i < |states|
    requires states[i].status.Reserved? || states[i].status.Unknown?
    requires SettlementFits(l, states, u, states[i])
    ensures StatesOk(states[i := Settled(states[i], u)]) && WithinCaps(states[i := Settled(states[i], u)], l)
  {
    var st := Settled(states[i], u);
    forall q | Cap(l, q).Some?
      ensures TotalLoad(states[i := st], q) <= Cap(l, q).value
    {
      LoadChanged(states, i, st, q);
      assert Load(states[i], q) == Held(states[i].reservation, q);
      assert Load(st, q) == Spent(u, q);
    }
  }

  lemma {:induction false} ReplayedMore(events: seq<Event>, batch: seq<Event>)
    ensures Replayed(events + batch) == StepAll(Replayed(events), batch)
  {
    StepAllMore([], events, batch);
  }

  lemma {:induction false} UnderPlain(key: Key, bodies: seq<Body>)
    requires forall i :: 0 <= i < |bodies| ==> !bodies[i].BudgetReserved?
    ensures PersistedLimit(Under(key, bodies)) == None
  {
    NoReservation(Under(key, bodies));
  }

  lemma {:induction false} ReservePersists(c: Command, r: Reservation)
    requires c.Reserve?
    ensures PersistedLimit(Under(KeyOf(c), ReserveBodies(c, r))) == Some(r.limit.(currency := r.estimate.currency))
  {
    var batch := Under(KeyOf(c), ReserveBodies(c, r));
    if |batch| == 3 {
      assert PersistedLimit(batch) == PersistedLimit(batch[1..]) == PersistedLimit(batch[1..][1..]);
      assert batch[1..][1..][0].body == BudgetReserved(r, c.context);
    }
  }

  lemma {:induction false} ReserveKeeps(configured: Option<Limit>, events: seq<Event>, c: Command)
    requires Sound(events) && c.Reserve?
    ensures Sound(After(configured, events, c))
  {
    var states := Replayed(events);
    if Decide(configured, events, c).Append? {
      var l := LimitFor(configured, events).value;
      var r := ReservationOf(c, l);
      var batch := Under(KeyOf(c), ReserveBodies(c, r));
      ReplayedMore(events, batch);
      ReserveBatch(states, c, r);
      PersistedMore(events, batch);
      ReservePersists(c, r);
      assert WithinCaps(states, l) by {
        if PersistedLimit(events).None? {
          assert forall q :: TotalLoad(states, q) == 0;
        }
      }
      MadeKeeps(states, l, r);
    }
  }

  /** A batch that rewrites one reservation in place. */
  lemma {:induction false} RewriteKeeps(events: seq<Event>, batch: seq<Event>, i: nat, st: State)
    requires Sound(events) && i < |Replayed(events)| && PersistedLimit(batch) == None
    requires StepAll(Replayed(events), batch) == Replayed(events)[i := st] && st.reservation == Replayed(events)[i].reservation
    requires PersistedLimit(events).Some? ==>
               StatesOk(Replayed(events)[i := st]) && WithinCaps(Replayed(events)[i := st], PersistedLimit(events).value)
    ensures Sound(events + batch)
  {
    ReplayedMore(events, batch);
    PersistedMore(events, batch);
  }

  lemma {:induction false} HasLimit(configured: Option<Limit>, events: seq<Event>)
    requires Sound(events) && Replayed(events) != []
    ensures PersistedLimit(events).Some?
    ensures LimitFor(configured, events).Some? ==> LimitFor(configured, events) == PersistedLimit(events)
  {
  }

  lemma {:induction false} UnknownKeeps(configured: Option<Limit>, events: seq<Event>, c: Command)
    requires Sound(events) && c.MarkUnknown?
    ensures Sound(After(configured, events, c))
  {
    var states := Replayed(events);
    if Decide(configured, events, c).Append? {
      var i := IndexOf(states, c.id);
      var b := MarkedUnknown(c.id, c.reason);
      HasLimit(configured, events);
      StepOne(states, KeyOf(c), b);
      StepAt(states, i, b);
      UnderPlain(KeyOf(c), [b]);
      ChangedKeeps(states, PersistedLimit(events).value, i, Changed(states[i], b));
      RewriteKeeps(events, Under(KeyOf(c), [b]), i, Changed(states[i], b));
    }
  }

  lemma {:induction false} ReleaseKeeps(configured: Option<Limit>, events: seq<Event>, c: Command)
    requires Sound(events) && c.Release?
    ensures Sound(After(configured, events, c))
  {
    var states := Replayed(events);
    if Decide(configured, events, c).Append? {
      var i := IndexOf(states, c.id);
      var b := ReleaseBody(states[i], c);
      HasLimit(configured, events);
      StepOne(states, KeyOf(c), b);
      StepAt(states, i, b);
      UnderPlain(KeyOf(c), [b]);
      ChangedKeeps(states, PersistedLimit(events).value, i, Changed(states[i], b));
      RewriteKeeps(events, Under(KeyOf(c), [b]), i, Changed(states[i], b));
    }
  }

  lemma {:induction false} SettleKeeps(configured: Option<Limit>, events: seq<Event>, c: Command)
    requires Sound(events) && c.Settle?
    ensures Sound(After(configured, events, c))
  {
    var states := Replayed(events);
    if Decide(configured, events, c).Append? {
      var i := IndexOf(states, c.id);
      var u := BuildUsage(states[i], c.usage, SettlementKeyFor(c)).value;
      HasLimit(configured, events);
      SettleBatch(states, i, u, KeyOf(c));
      UnderPlain(KeyOf(c), SettleBodies(states[i], u));
      SettledKeeps(states, PersistedLimit(events).value, i, u);
      RewriteKeeps(events, Under(KeyOf(c), SettleBodies(states[i], u)), i, Settled(states[i], u));
    }
  }

  /** Whatever command is decided, the ledger stays sound: caps, figures and statuses agree. */
  lemma {:induction false} AfterKeeps(configured: Option<Limit>, events: seq<Event>, c: Command)
    requires Sound(events)
    ensures Sound(After(configured, events, c))
  {
    match c {
      case Reserve(_, _, _, _, _, _) => ReserveKeeps(configured, events, c);
      case MarkUnknown(_, _) => UnknownKeeps(configured, events, c);
      case Settle(_, _, _, _) => SettleKeeps(configured, events, c);
      case Release(_, _) => ReleaseKeeps(configured, events, c);
    }
  }

  /** A command of some process, with the envelope that process was configured with. */
  datatype Call = Call(configured: Option<Limit>, command: Command)

  function AfterAll(events: seq<Event>, calls: seq<Call>): seq<Event> {
    if calls == [] then events
    else
      var last := calls[|calls| - 1];
      After(last.configured, AfterAll(events, calls[..|calls| - 1]), last.command)
  }

  /** Over every run, what is used, reserved and unknown together stays within every cap. */
  lemma {:induction false} CapsHold(calls: seq<Call>, q: Quantity)
    ensures Sound(AfterAll([], calls))
    ensures var events := AfterAll([], calls); var l := PersistedLimit(events);
            l.Some? && Cap(l.value, q).Some? ==>
              Balance(Replayed(events), UsedPart, q) + Balance(Replayed(events), ReservedPart, q)
              + Balance(Replayed(events), UnknownPart, q) <= Cap(l.value, q).value
  {
    if calls != [] {
      var last := calls[|calls| - 1];
      CapsHold(calls[..|calls| - 1], q);
      AfterKeeps(last.configured, AfterAll([], calls[..|calls| - 1]), last.command);
    }
    var events := AfterAll([], calls);
    assert forall l :: PersistedLimit(events) == Some(l) && Cap(l, q).Some? ==> TotalLoad(Replayed(events), q) <= Cap(l, q).value;
  }

  // ----- Conservation -----

  /** What a settlement cost beyond its reservation. */
  function Overrun(st: State, q: Quantity): nat {
    if st.status.Committed? then Max(0, UsedBy(st, q) - Held(st.reservation, q)) else 0
  }

  function ReleasedBy(st: State, q: Quantity): nat {
    if q.Money? then st.released else st.releasedTokens
  }

  function SumHeld(states: seq<State>, q: Quantity): nat {
    if states == [] then 0 else SumHeld(states[..|states| - 1], q) + Held(states[|states| - 1].reservation, q)
  }

  function SumOverrun(states: seq<State>, q: Quantity): nat {
    if states == [] then 0 else SumOverrun(states[..|states| - 1], q) + Overrun(states[|states| - 1], q)
  }

  function SumReleased(states: seq<State>, q: Quantity): nat {
    if states == [] then 0 else SumReleased(states[..|states| - 1], q) + ReleasedBy(states[|states| - 1], q)
  }

  /** Nothing is lost: all that was ever reserved, plus overruns, is reserved, unknown, used or released. */
  lemma {:induction false} Conservation(states: seq<State>, q: Quantity)
    requires (q.Money? || q.AllTokens?) && forall i :: 0 <= i < |states| ==> StateOk(states[i])
    ensures SumHeld(states, q) + SumOverrun(states, q) ==
            Balance(states, ReservedPart, q) + Balance(states, UnknownPart, q) + Balance(states, UsedPart, q) + SumReleased(states, q)
  {
    if states != [] {
      Conservation(states[..|states| - 1], q);
    }
  }

  // ----- The reservation automaton -----

  predicate Moves(before: Status, after: Status) {
    || before == after
    || (before.Reserved? && !after.Reserved?)
    || (before.Unknown? && after.Committed?)
  }

  /** A later state of a reservation. */
  predicate LaterState(before: State, after: State) {
    && after.reservation == before.reservation && Moves(before.status, after.status)
    && (before.status.Committed? || before.status.Released? ==> after == before)
  }

  /** How an accepted command changes the replayed states. */
  ghost predicate StatesMove(before: seq<State>, after: seq<State>) {
    |before| <= |after| && forall i :: 0 <= i < |before| ==> LaterState(before[i], after[i])
  }

  lemma {:induction false} RewriteMoves(states: seq<State>, j: nat, st: State)
    requires j < |states| && LaterState(states[j], st)
    ensures StatesMove(states, states[j := st])
  {
  }

  lemma {:induction false} CommandMoves(configured: Option<Limit>, events: seq<Event>, c: Command)
    requires Sound(events) && !c.Reserve? && Decide(configured, events, c).Append?
    ensures StatesMove(Replayed(events), Replayed(After(configured, events, c)))
  {
    var states := Replayed(events);
    var j := IndexOf(states, c.id);
    AcceptedIsNew(configured, events, c);
    ReplayedMore(events, Under(KeyOf(c), Bodies(configured, events, c)));
    match c {
      case MarkUnknown(_, reason) =>
        StepOne(states, KeyOf(c), MarkedUnknown(c.id, reason));
        StepAt(states, j, MarkedUnknown(c.id, reason));
        RewriteMoves(states, j, Changed(states[j], MarkedUnknown(c.id, reason)));
      case Settle(_, usage, _, _) =>
        var u := BuildUsage(states[j], usage, SettlementKeyFor(c)).value;
        SettleBatch(states, j, u, KeyOf(c));
        RewriteMoves(states, j, Settled(states[j], u));
      case Release(_, _) =>
        StepOne(states, KeyOf(c), ReleaseBody(states[j], c));
        StepAt(states, j, ReleaseBody(states[j], c));
        RewriteMoves(states, j, Changed(states[j], ReleaseBody(states[j], c)));
    }
  }

  lemma {:induction false} ReserveMoves(configured: Option<Limit>, events: seq<Event>, c: Command)
    requires c.Reserve? && Decide(configured, events, c).Append?
    ensures StatesMove(Replayed(events), Replayed(After(configured, events, c)))
  {
    ReserveAccepted(configured, events, c);
    AcceptedIsNew(configured, events, c);
    ReplayedMore(events, Under(KeyOf(c), Bodies(configured, events, c)));
    ReserveBatch(Replayed(events), c, ReservationOf(c, LimitFor(configured, events).value));
  }

  /** A reservation is never dropped or rewritten, and its status only moves forward. */
  lemma {:induction false} StatusMoves(configured: Option<Limit>, events: seq<Event>, c: Command, i: nat)
    requires Sound(events) && i < |Replayed(events)|
    ensures i < |Replayed(After(configured, events, c))|
    ensures LaterState(Replayed(events)[i], Replayed(After(configured, events, c))[i])
  {
    if Decide(configured, events, c).Append? {
      if c.Reserve? {
        ReserveMoves(configured, events, c);
      } else {
        CommandMoves(configured, events, c);
      }
    }
  }

  // ----- Commands sent again -----

  lemma {:induction false} KeyedMore(a: seq<Event>, b: seq<Event>, key: Key)
    ensures Keyed(a + b, key) == Keyed(a, key) + Keyed(b, key)
    decreases |b|
  {
    if b == [] {
      assert a + b == a;
    } else {
      assert (a + b)[..|a + b| - 1] == a + b[..|b| - 1];
      KeyedMore(a, b[..|b| - 1], key);
    }
  }

  lemma {:induction false} KeyedUnder(under: Key, bodies: seq<Body>, key: Key)
    ensures Keyed(Under(under, bodies), key) == if under == key then Under(under, bodies) else []
  {
    var batch := Under(under, bodies);
    if bodies != [] {
      assert batch[..|batch| - 1] == Under(under, bodies[..|bodies| - 1]);
      KeyedUnder(under, bodies[..|bodies| - 1], key);
    }
  }

  /** What a command appends when it is accepted. */
  function Bodies(configured: Option<Limit>, events: seq<Event>, c: Command): seq<Body>
    requires Decide(configured, events, c).Append?
  {
    var states := Replayed(events);
    match c
    case Reserve(_, _, _, _, _, _) => ReserveBodies(c, ReservationOf(c, LimitFor(configured, events).value))
    case MarkUnknown(id, reason) => [MarkedUnknown(id, reason)]
    case Settle(id, usage, _, _) =>
      var st := states[IndexOf(states, id)];
      SettleBodies(st, BuildUsage(st, usage, SettlementKeyFor(c)).value)
    case Release(id, _) => [ReleaseBody(states[IndexOf(states, id)], c)]
  }

  lemma {:induction false} AcceptedIsNew(configured: Option<Limit>, events: seq<Event>, c: Command)
    requires Decide(configured, events, c).Append?
    ensures Keyed(events, KeyOf(c)) == []
    ensures After(configured, events, c) == events + Under(KeyOf(c), Bodies(configured, events, c))
    ensures Bodies(configured, events, c) != []
  {
  }

  /** Once events stand under a key, no command adds to them. */
  lemma {:induction false} KeyClosed(events: seq<Event>, calls: seq<Call>, key: Key)
    requires Keyed(events, key) != []
    ensures Keyed(AfterAll(events, calls), key) == Keyed(events, key)
  {
    if calls != [] {
      var front, last := calls[..|calls| - 1], calls[|calls| - 1];
      KeyClosed(events, front, key);
      var before := AfterAll(events, front);
      if Decide(last.configured, before, last.command).Append? {
        AcceptedIsNew(last.configured, before, last.command);
        KeyedMore(before, Under(KeyOf(last.command), Bodies(last.configured, before, last.command)), key);
        KeyedUnder(KeyOf(last.command), Bodies(last.configured, before, last.command), key);
      }
    }
  }

  /** An accepted command appends nothing when it is sent again, whatever happened in between. */
  lemma {:induction false} AcceptedOnce(configured: Option<Limit>, events: seq<Event>, c: Command, later: seq<Call>, again: Option<Limit>)
    requires Decide(configured, events, c).Append?
    ensures var stream := AfterAll(After(configured, events, c), later);
            && Keyed(stream, KeyOf(c)) == Under(KeyOf(c), Bodies(configured, events, c))
            && After(again, stream, c) == stream
  {
    AcceptedIsNew(configured, events, c);
    KeyedMore(events, Under(KeyOf(c), Bodies(configured, events, c)), KeyOf(c));
    KeyedUnder(KeyOf(c), Bodies(configured, events, c), KeyOf(c));
    KeyClosed(After(configured, events, c), later, KeyOf(c));
    var stream := AfterAll(After(configured, events, c), later);
    if Decide(again, stream, c).Append? {
      AcceptedIsNew(again, stream, c);
    }
  }

  /** A settlement key names one reservation. */
  ghost predicate Owned(events: seq<Event>) {
    forall i, j :: 0 <= i < |events| && 0 <= j < |events| && SettlementKeyOf(events[i].body).Some?
                   && SettlementKeyOf(events[i].body) == SettlementKeyOf(events[j].body)
                   ==> About(events[i].body) == About(events[j].body)
  }

  lemma {:induction false} SettlementEventsAre(events: seq<Event>, key: SettlementKey)
    ensures forall e :: e in SettlementEvents(events, key) <==> e in events && SettlementKeyOf(e.body) == Some(key)
  {
    if events != [] {
      SettlementEventsAre(events[..|events| - 1], key);
      assert events == events[..|events| - 1] + [events[|events| - 1]];
    }
  }

  lemma {:induction false} OwnedMore(events: seq<Event>, batch: seq<Event>, key: SettlementKey, id: nat)
    requires Owned(events) && forall i :: 0 <= i < |events| ==> SettlementKeyOf(events[i].body) != Some(key)
    requires forall i :: 0 <= i < |batch| && SettlementKeyOf(batch[i].body).Some? ==>
                           SettlementKeyOf(batch[i].body) == Some(key) && About(batch[i].body) == Some(id)
    ensures Owned(events + batch)
  {
  }

  lemma {:induction false} OwnedPlain(events: seq<Event>, batch: seq<Event>)
    requires Owned(events) && forall i :: 0 <= i < |batch| ==> SettlementKeyOf(batch[i].body).None?
    ensures Owned(events + batch)
  {
  }

  lemma {:induction false} SettleKeys(key: Key, st: State, u: Record)
    ensures forall i :: 0 <= i < |Under(key, SettleBodies(st, u))| && SettlementKeyOf(Under(key, SettleBodies(st, u))[i].body).Some? ==>
              && SettlementKeyOf(Under(key, SettleBodies(st, u))[i].body) == Some(u.key)
              && About(Under(key, SettleBodies(st, u))[i].body) == Some(u.reservation)
  {
  }

  lemma {:induction false} PlainKeys(configured: Option<Limit>, events: seq<Event>, c: Command)
    requires !c.Settle? && Decide(configured, events, c).Append?
    ensures forall i :: 0 <= i < |Bodies(configured, events, c)| ==> SettlementKeyOf(Bodies(configured, events, c)[i]).None?
  {
  }

  lemma {:induction false} SettleIsNew(configured: Option<Limit>, events: seq<Event>, c: Command)
    requires c.Settle? && Decide(configured, events, c).Append?
    ensures forall i :: 0 <= i < |events| ==> SettlementKeyOf(events[i].body) != Some(SettlementKeyFor(c))
  {
    SettlementEventsAre(events, SettlementKeyFor(c));
    assert SettlementEvents(events, SettlementKeyFor(c)) == [];
    assert forall i :: 0 <= i < |events| ==> events[i] in events;
  }

  lemma {:induction false} OwnedKept(configured: Option<Limit>, events: seq<Event>, c: Command)
    requires Owned(events)
    ensures Owned(After(configured, events, c))
  {
    if Decide(configured, events, c).Append? {
      AcceptedIsNew(configured, events, c);
      var bodies := Bodies(configured, events, c);
      if c.Settle? {
        SettleIsNew(configured, events, c);
        var st := Replayed(events)[IndexOf(Replayed(events), c.id)];
        SettleKeys(KeyOf(c), st, BuildUsage(st, c.usage, SettlementKeyFor(c)).value);
        OwnedMore(events, Under(KeyOf(c), bodies), SettlementKeyFor(c), c.id);
      } else {
        PlainKeys(configured, events, c);
        OwnedPlain(events, Under(KeyOf(c), bodies));
      }
    }
  }

  /** A reservation is still there, unchanged, after any later calls. */
  lemma {:induction false} StillThere(events: seq<Event>, calls: seq<Call>, i: nat)
    requires Sound(events) && Owned(events) && i < |Replayed(events)|
    ensures Sound(AfterAll(events, calls)) && Owned(AfterAll(events, calls))
    ensures i < |Replayed(AfterAll(events, calls))|
    ensures Replayed(AfterAll(events, calls))[i].reservation == Replayed(events)[i].reservation
    ensures IndexOf(Replayed(AfterAll(events, calls)), Replayed(events)[i].reservation.id) == i
    ensures PersistedLimit(AfterAll(events, calls)) == PersistedLimit(events)
  {
    if calls != [] {
      var front, last := calls[..|calls| - 1], calls[|calls| - 1];
      StillThere(events, front, i);
      var before := AfterAll(events, front);
      AfterKeeps(last.configured, before, last.command);
      OwnedKept(last.configured, before, last.command);
      StatusMoves(last.configured, before, last.command, i);
      if Decide(last.configured, before, last.command).Append? {
        AcceptedIsNew(last.configured, before, last.command);
        PersistedMore(before, Under(KeyOf(last.command), Bodies(last.configured, before, last.command)));
      }
    }
    IndexUnique(Replayed(AfterAll(events, calls)), i);
  }

  lemma {:induction false} FirstsOfReserve(c: Command, r: Reservation)
    requires c.Reserve?
    ensures FirstReserved(Under(KeyOf(c), ReserveBodies(c, r))) == Some(r)
  {
    var batch := Under(KeyOf(c), ReserveBodies(c, r));
    if |batch| == 3 {
      assert FirstReserved(batch) == FirstReserved(batch[1..]) == FirstReserved(batch[1..][1..]);
      assert batch[1..][1..][0].body == BudgetReserved(r, c.context);
    }
  }

  lemma {:induction false} FirstsOfSettle(key: Key, st: State, u: Record)
    ensures var batch := Under(key, SettleBodies(st, u));
            && FirstObserved(batch) == Some(u) && FirstCommitted(batch) == Some(u)
            && FirstReconciled(batch, u.reservation, u.key) == if st.status.Unknown? then Some(ReconciledBody(st, u)) else None
  {
    var batch := Under(key, SettleBodies(st, u));
    var b1, b2, b3 := batch[1..], batch[1..][1..], batch[1..][1..][1..];
    assert batch[0].body == UsageObserved(u) && b1[0].body == CostCommitted(u) && b2[0].body.BudgetReleased?;
    assert FirstCommitted(batch) == FirstCommitted(b1);
    assert FirstReconciled(batch, u.reservation, u.key) == FirstReconciled(b1, u.reservation, u.key)
        == FirstReconciled(b2, u.reservation, u.key) == FirstReconciled(b3, u.reservation, u.key);
    if st.status.Unknown? {
      assert b3[0].body == ReconciledBody(st, u);
    } else {
      assert b3 == [];
    }
  }

  lemma {:induction false} KeyedAre(events: seq<Event>, key: Key)
    ensures forall e :: e in Keyed(events, key) ==> e in events
  {
    if events != [] {
      KeyedAre(events[..|events| - 1], key);
      assert events == events[..|events| - 1] + [events[|events| - 1]];
    }
  }

  lemma {:induction false} ReserveAccepted(configured: Option<Limit>, events: seq<Event>, c: Command)
    requires c.Reserve? && Decide(configured, events, c).Append?
    ensures LimitFor(configured, events).Some? && LimitFor(configured, events).value.currency == c.estimate.currency
    ensures Bodies(configured, events, c) == ReserveBodies(c, ReservationOf(c, LimitFor(configured, events).value))
    ensures IndexOf(Replayed(events), c.id) < 0
    ensures (if c.tokenLimit.Some? then c.tokenLimit.value else c.estimate.tokenLimit) >= Total(c.estimate.counts)
    ensures c.approval.Some? ==> c.context.node.Some? && c.context.attempt.Some? && c.context.generation.Some?
  {
  }

  /** The envelope an accepted reservation was made under is the one on record ever after. */
  lemma {:induction false} EnvelopeStands(configured: Option<Limit>, events: seq<Event>, c: Command, later: seq<Call>)
    requires Sound(events) && Owned(events) && c.Reserve? && Decide(configured, events, c).Append?
    ensures LimitFor(configured, AfterAll(After(configured, events, c), later)) == LimitFor(configured, events)
  {
    ReserveAccepted(configured, events, c);
    var r := ReservationOf(c, LimitFor(configured, events).value);
    AcceptedIsNew(configured, events, c);
    AfterKeeps(configured, events, c);
    OwnedKept(configured, events, c);
    ReplayedMore(events, Under(KeyOf(c), ReserveBodies(c, r)));
    ReserveBatch(Replayed(events), c, r);
    StillThere(After(configured, events, c), later, |Replayed(events)|);
    PersistedMore(events, Under(KeyOf(c), ReserveBodies(c, r)));
    ReservePersists(c, r);
  }

  /** A reservation sent again is answered, not refused: its envelope is the one on record. */
  lemma {:induction false} ReserveAnswered(configured: Option<Limit>, events: seq<Event>, c: Command, later: seq<Call>)
    requires Sound(events) && Owned(events) && c.Reserve? && Decide(configured, events, c).Append?
    ensures Decide(configured, AfterAll(After(configured, events, c), later), c) == NoOp
  {
    ReserveAccepted(configured, events, c);
    AcceptedOnce(configured, events, c, later, configured);
    AcceptedIsNew(configured, events, c);
    EnvelopeStands(configured, events, c, later);
    var stream := AfterAll(After(configured, events, c), later);
    var r := ReservationOf(c, LimitFor(configured, events).value);
    FirstsOfReserve(c, r);
    assert Keyed(stream, KeyOf(c)) != [] by {
      assert |Bodies(configured, events, c)| == |Under(KeyOf(c), Bodies(configured, events, c))|;
    }
    assert Decide(configured, stream, c) == DecideReserve(configured, stream, Replayed(stream), c);
  }

  lemma {:induction false} SameAnswer(c: Command, st: State, now: State, u: Record)
    requires c.Settle? && BuildUsage(st, c.usage, SettlementKeyFor(c)) == Some(u) && now.reservation == st.reservation
    requires st.reservation.id == c.id && st.status.Unknown? == c.reconcile
    ensures AnswerSettled(Under(KeyOf(c), SettleBodies(st, u)), now, c) == NoOp
  {
    FirstsOfSettle(KeyOf(c), st, u);
  }

  /** Every event under an accepted settlement's key is about its reservation. */
  lemma {:induction false} OnlyAbout(stream: seq<Event>, c: Command, u: Record)
    requires c.Settle? && Owned(stream) && u.reservation == c.id && u.key == SettlementKeyFor(c)
    requires exists e :: e in stream && e.body == UsageObserved(u)
    ensures forall e :: e in SettlementEvents(stream, SettlementKeyFor(c)) ==> About(e.body) == Some(c.id)
  {
    SettlementEventsAre(stream, SettlementKeyFor(c));
    var first :| first in stream && first.body == UsageObserved(u);
    var i :| 0 <= i < |stream| && stream[i] == first;
    forall e | e in SettlementEvents(stream, SettlementKeyFor(c))
      ensures About(e.body) == Some(c.id)
    {
      var j :| 0 <= j < |stream| && stream[j] == e;
    }
  }

  /** What an accepted command leaves in every later stream. */
  lemma {:induction false} AcceptedStands(configured: Option<Limit>, events: seq<Event>, c: Command, later: seq<Call>)
    requires Sound(events) && Owned(events) && !c.Reserve? && Decide(configured, events, c).Append?
    ensures var stream := AfterAll(After(configured, events, c), later); var i := IndexOf(Replayed(events), c.id);
            && Keyed(stream, KeyOf(c)) == Under(KeyOf(c), Bodies(configured, events, c))
            && Sound(stream) && Owned(stream)
            && 0 <= i < |Replayed(events)| && i < |Replayed(stream)| && IndexOf(Replayed(stream), c.id) == i
            && Replayed(stream)[i].reservation == Replayed(events)[i].reservation
  {
    var i := IndexOf(Replayed(events), c.id);
    AcceptedOnce(configured, events, c, later, configured);
    AcceptedIsNew(configured, events, c);
    AfterKeeps(configured, events, c);
    OwnedKept(configured, events, c);
    StatusMoves(configured, events, c, i);
    StillThere(After(configured, events, c), later, i);
  }

  lemma {:induction false} SettleAcceptedFrom(configured: Option<Limit>, events: seq<Event>, c: Command)
    requires c.Settle? && Decide(configured, events, c).Append?
    ensures var i := IndexOf(Replayed(events), c.id);
            && i >= 0 && Replayed(events)[i].status.Unknown? == c.reconcile && (c.reconcile ==> c.key.Some?)
            && BuildUsage(Replayed(events)[i], c.usage, SettlementKeyFor(c)).Some?
  {
  }

  /** A settlement sent again is answered with the record it wrote. */
  lemma {:induction false} SettleAnswered(configured: Option<Limit>, events: seq<Event>, c: Command, later: seq<Call>)
    requires Sound(events) && Owned(events) && c.Settle? && Decide(configured, events, c).Append?
    ensures Decide(configured, AfterAll(After(configured, events, c), later), c) == NoOp
  {
    SettleAcceptedFrom(configured, events, c);
    AcceptedStands(configured, events, c, later);
    var stream := AfterAll(After(configured, events, c), later);
    var i := IndexOf(Replayed(events), c.id);
    var st := Replayed(events)[i];
    var u := BuildUsage(st, c.usage, SettlementKeyFor(c)).value;
    var batch := Under(KeyOf(c), SettleBodies(st, u));
    KeyedAre(stream, KeyOf(c));
    assert batch[0] in batch && batch[0].body == UsageObserved(u);
    OnlyAbout(stream, c, u);
    SameAnswer(c, st, Replayed(stream)[i], u);
  }

  /** A release sent again is answered with the release it wrote. */
  lemma {:induction false} ReleaseAnswered(configured: Option<Limit>, events: seq<Event>, c: Command, later: seq<Call>)
    requires Sound(events) && Owned(events) && c.Release? && Decide(configured, events, c).Append?
    ensures Decide(configured, AfterAll(After(configured, events, c), later), c) == NoOp
  {
    AcceptedStands(configured, events, c, later);
  }

  /** Marking unknown again is answered exactly while the reservation is still unknown. */
  lemma {:induction false} UnknownAnsweredIff(configured: Option<Limit>, events: seq<Event>, c: Command, later: seq<Call>)
    requires Sound(events) && Owned(events) && c.MarkUnknown? && Decide(configured, events, c).Append?
    ensures var stream := AfterAll(After(configured, events, c), later); var i := IndexOf(Replayed(events), c.id);
            && 0 <= i < |Replayed(stream)|
            && (Decide(configured, stream, c) == NoOp <==> Replayed(stream)[i].status.Unknown?)
  {
    AcceptedStands(configured, events, c, later);
  }

  // ----- A run in which marking unknown again is not answered -----

  /** A plain reservation of an estimate under its own token limit. */
  function Plainly(id: nat, e: Estimate): Command {
    Reserve(id, None, e, None, Context(None, None, None), None)
  }

  function FirstEvent(id: nat, e: Estimate, l: Limit): (event: Event)
    ensures event.body.BudgetReserved?
  {
    Event(KReserveId(id), BudgetReserved(Reservation(id, e, e.tokenLimit, l, None), Context(None, None, None)))
  }

  /** A first reservation that fits leaves just itself. */
  lemma {:induction false} ReservedAlone(id: nat, e: Estimate, l: Limit)
    requires Total(e.counts) <= e.tokenLimit && l.currency == e.currency
    requires ReservationFits(l, [], FirstEvent(id, e, l).body.reservation)
    ensures Decide(Some(l), [], Plainly(id, e)).Append?
    ensures After(Some(l), [], Plainly(id, e)) == [FirstEvent(id, e, l)]
    ensures Replayed([FirstEvent(id, e, l)]) == [Made(FirstEvent(id, e, l).body.reservation)]
    ensures Sound([FirstEvent(id, e, l)]) && Owned([FirstEvent(id, e, l)])
  {
    var c := Plainly(id, e);
    var r := FirstEvent(id, e, l).body.reservation;
    assert ReservationOf(c, l) == r && Keyed([], KeyOf(c)) == [];
    assert Decide(Some(l), [], c) == Append(Under(KReserveId(id), [BudgetReserved(r, c.context)]));
    assert Under(KReserveId(id), [BudgetReserved(r, c.context)]) == [FirstEvent(id, e, l)];
    ReplayedAlone(FirstEvent(id, e, l));
    assert forall q :: TotalLoad([], q) == 0;
    assert Sound([]) && Owned([]);
    AfterKeeps(Some(l), [], c);
    OwnedKept(Some(l), [], c);
  }

  lemma {:induction false} ReplayedAlone(event: Event)
    requires event.body.BudgetReserved?
    ensures Replayed([event]) == [Made(event.body.reservation)]
  {
    assert [event][..0] == [];
    assert Replayed([event]) == Step(StepAll([], []), event.body);
    assert IndexOf([], event.body.reservation.id) == -1;
  }

  /** Marking a reserved reservation unknown for the first time. */
  lemma {:induction false} Marks(configured: Option<Limit>, events: seq<Event>, c: Command)
    requires Sound(events) && c.MarkUnknown? && Keyed(events, KeyOf(c)) == []
    requires var i := IndexOf(Replayed(events), c.id); i >= 0 && Replayed(events)[i].status.Reserved?
    ensures Decide(configured, events, c).Append?
    ensures var i := IndexOf(Replayed(events), c.id);
            Replayed(After(configured, events, c)) == Replayed(events)[i := Replayed(events)[i].(status := Unknown)]
    ensures After(configured, events, c) == events + [Event(KeyOf(c), MarkedUnknown(c.id, c.reason))]
  {
    var states := Replayed(events);
    var b := MarkedUnknown(c.id, c.reason);
    StepOne(states, KeyOf(c), b);
    StepAt(states, IndexOf(states, c.id), b);
    ReplayedMore(events, Under(KeyOf(c), [b]));
    assert Under(KeyOf(c), [b]) == [Event(KeyOf(c), b)];
  }

  /** An accepted settlement leaves its reservation committed. */
  lemma {:induction false} SettleCommits(configured: Option<Limit>, events: seq<Event>, c: Command)
    requires Sound(events) && c.Settle? && Decide(configured, events, c).Append?
    ensures var i := IndexOf(Replayed(events), c.id); var after := Replayed(After(configured, events, c));
            0 <= i < |after| && after[i].status.Committed?
  {
    SettleAcceptedFrom(configured, events, c);
    var states := Replayed(events);
    var i := IndexOf(states, c.id);
    var u := BuildUsage(states[i], c.usage, SettlementKeyFor(c)).value;
    assert StateOk(states[i]);
    SettleBatch(states, i, u, KeyOf(c));
    ReplayedMore(events, Under(KeyOf(c), SettleBodies(states[i], u)));
  }

  /** Once an unknown reservation is reconciled, the command that marked it unknown is refused. */
  lemma {:induction false} ReconciledThenRefused(configured: Option<Limit>, events: seq<Event>, c: Command, reconcile: Command)
    requires Sound(events) && Owned(events) && c.MarkUnknown? && Decide(configured, events, c).Append?
    requires reconcile.Settle? && reconcile.id == c.id && Decide(configured, After(configured, events, c), reconcile).Append?
    ensures Decide(configured, After(configured, After(configured, events, c), reconcile), c) == Refused
  {
    var before := After(configured, events, c);
    var later := [Call(configured, reconcile)];
    assert later[..0] == [] && AfterAll(before, later) == After(configured, before, reconcile);
    AfterKeeps(configured, events, c);
    AcceptedStands(configured, events, c, []);
    AcceptedStands(configured, events, c, later);
    SettleCommits(configured, before, reconcile);
    assert Bodies(configured, events, c) == [MarkedUnknown(c.id, c.reason)];
    assert Under(KeyOf(c), [MarkedUnknown(c.id, c.reason)]) == [Event(KeyOf(c), MarkedUnknown(c.id, c.reason))];
  }

  /** Reserve, mark unknown, reconcile at nothing used, mark unknown again: neither answered nor appended. */
  lemma {:induction false} UnknownIsRefused(id: nat, e: Estimate, reason: nat, key: nat)
    requires Total(e.counts) <= e.tokenLimit
    ensures var l := Some(Limit(None, None, e.currency, None, None, None, None));
            var mark, reconcile := MarkUnknown(id, reason), Settle(id, Usage(Counts(0, 0, 0, 0), 0, 0, None, None), Some(key), true);
            var reserved := After(l, [], Plainly(id, e));
            var marked := After(l, reserved, mark);
            var reconciled := After(l, marked, reconcile);
            && Decide(l, [], Plainly(id, e)).Append? && Decide(l, reserved, mark).Append? && Decide(l, marked, reconcile).Append?
            && Decide(l, reconciled, mark) == Refused
  {
    var limit := Limit(None, None, e.currency, None, None, None, None);
    var l := Some(limit);
    var first := FirstEvent(id, e, limit);
    var mark, reconcile := MarkUnknown(id, reason), Settle(id, Usage(Counts(0, 0, 0, 0), 0, 0, None, None), Some(key), true);
    ReservedAlone(id, e, limit);
    var reserved := [first];
    assert reserved[..0] == [] && Keyed(reserved, KeyOf(mark)) == Keyed([], KeyOf(mark));
    assert Replayed(reserved)[..0] == [] && IndexOf(Replayed(reserved), id) == 0;
    Marks(l, reserved, mark);
    AfterKeeps(l, reserved, mark);
    ReconcileFits(l, reserved, mark, reconcile);
    ReconciledThenRefused(l, reserved, mark, reconcile);
  }

  /** With no cap configured, the first reconciliation of a marked reservation is appended. */
  lemma {:induction false} ReconcileFits(l: Option<Limit>, reserved: seq<Event>, mark: Command, c: Command)
    requires |reserved| == 1 && reserved[0].body.BudgetReserved? && mark.MarkUnknown? && c.Settle? && c.reconcile && c.key.Some?
    requires After(l, reserved, mark) == reserved + [Event(KeyOf(mark), MarkedUnknown(mark.id, mark.reason))]
    requires reserved[0].key.KReserveId? && c.id == mark.id == reserved[0].body.reservation.id && c.usage.currency.None?
    requires var limit := reserved[0].body.reservation.limit;
             l == Some(limit.(currency := reserved[0].body.reservation.estimate.currency)) && forall q :: Cap(l.value, q).None?
    requires Replayed(After(l, reserved, mark)) == [Made(reserved[0].body.reservation).(status := Unknown)]
    ensures Decide(l, After(l, reserved, mark), c).Append?
  {
    var stream := After(l, reserved, mark);
    assert stream[..1] == reserved && reserved[..0] == [];
    assert Keyed(stream, KeyOf(c)) == Keyed(reserved, KeyOf(c)) == Keyed([], KeyOf(c));
    var key := SettlementKeyFor(c);
    assert SettlementEvents(stream, key) == SettlementEvents(reserved, key) == SettlementEvents([], key);
    assert stream[0] == reserved[0] && PersistedLimit(stream) == l;
    assert Replayed(stream)[..0] == [] && IndexOf(Replayed(stream), c.id) == 0;
  }

  // ----- Settlements that stay within the estimate -----

  predicate AtMost(a: Counts, b: Counts) {
    a.input <= b.input && a.output <= b.output && a.reasoning <= b.reasoning && a.cached <= b.cached
  }

  lemma {:induction false} TimesMonotone(a: nat, b: nat, p: nat)
    requires a <= b
    ensures a * p <= b * p
  {
  }

  lemma {:induction false} PricedMonotone(a: Counts, b: Counts, prices: Counts)
    requires AtMost(a, b)
    ensures Priced(a, prices) <= Priced(b, prices)
  {
    TimesMonotone(a.input, b.input, prices.input);
    TimesMonotone(a.output, b.output, prices.output);
    TimesMonotone(a.reasoning, b.reasoning, prices.reasoning);
    TimesMonotone(a.cached, b.cached, prices.cached);
  }

  /** An open reservation whose settlement was not seen before. */
  predicate OpenFor(events: seq<Event>, c: Command)
    requires c.Settle?
  {
    var i := IndexOf(Replayed(events), c.id);
    && i >= 0 && Replayed(events)[i].status == (if c.reconcile then Unknown else Reserved)
    && (c.reconcile ==> c.key.Some?)
    && Keyed(events, KeyOf(c)) == [] && SettlementEvents(events, SettlementKeyFor(c)) == []
    && (c.usage.currency.Some? ==> c.usage.currency.value == Replayed(events)[i].reservation.estimate.currency)
  }

  /** What was used fits in what was reserved, quantity by quantity. */
  predicate WithinReservation(st: State, u: Record) {
    forall q :: Spent(u, q) <= Held(st.reservation, q)
  }

  /** A settlement within its own reservation always fits. */
  lemma {:induction false} WithinReservationFits(configured: Option<Limit>, events: seq<Event>, c: Command)
    requires Sound(events) && c.Settle? && OpenFor(events, c) && LimitFor(configured, events).Some?
    requires var st := Replayed(events)[IndexOf(Replayed(events), c.id)];
             WithinReservation(st, BuildUsage(st, c.usage, SettlementKeyFor(c)).value)
    ensures Decide(configured, events, c).Append?
  {
    var states := Replayed(events);
    var i := IndexOf(states, c.id);
    var u := BuildUsage(states[i], c.usage, SettlementKeyFor(c)).value;
    HasLimit(configured, events);
    var l := LimitFor(configured, events).value;
    forall q | Cap(l, q).Some?
      ensures Balance(states, UsedPart, q) + Max(0, HeldNow(states, q) - Held(states[i].reservation, q)) + Spent(u, q) <= Cap(l, q).value
    {
      LoadChanged(states, i, states[i], q);
      assert TotalLoad(states, q) <= Cap(l, q).value;
      assert HeldNow(states, q) >= Held(states[i].reservation, q);
      assert Spent(u, q) <= Held(states[i].reservation, q);
    }
  }

  /** Usage within an estimate the ledger made itself never exhausts the budget when it is settled. */
  lemma {:induction false} EstimateCovers(configured: Option<Limit>, events: seq<Event>, c: Command, tokenLimit: Option<nat>)
    requires Sound(events) && c.Settle? && OpenFor(events, c) && LimitFor(configured, events).Some? && c.usage.cost.None?
    requires var e := Replayed(events)[IndexOf(Replayed(events), c.id)].reservation.estimate;
             && MakeEstimate(e.counts, e.prices, e.providerFee, e.toolFee, e.currency, e.snapshots, tokenLimit) == Some(e)
             && AtMost(c.usage.counts, e.counts) && c.usage.providerFee <= e.providerFee && c.usage.toolFee <= e.toolFee
    ensures Decide(configured, events, c).Append?
  {
    var st := Replayed(events)[IndexOf(Replayed(events), c.id)];
    var e := st.reservation.estimate;
    PricedMonotone(c.usage.counts, e.counts, e.prices);
    assert StateOk(st);
    WithinReservationFits(configured, events, c);
  }

  // ----- The ledger -----

  /** One process's ledger over the shared budget stream of a Run. */
  class Ledger {
    const configured: Option<Limit>
    var events: seq<Event>

    constructor (configured: Option<Limit>)
      ensures this.configured == configured && events == [] && Sound(events) && Owned(events)
    {
      this.configured := configured;
      events := [];
    }

    /** Replays the stream, decides one command on it and appends its batch. */
    method Submit(c: Command) returns (d: Decision)
      requires Sound(events) && Owned(events)
      modifies this`events
      ensures d == Decide(configured, old(events), c)
      ensures events == After(configured, old(events), c)
      ensures Sound(events) && Owned(events)
    {
      AfterKeeps(configured, events, c);
      OwnedKept(configured, events, c);
      var states := Replay(events);
      d := DecideOn(configured, events, states, c);
      if d.Append? {
        events := events + d.batch;
      }
    }
  }
}

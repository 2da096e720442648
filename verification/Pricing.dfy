/** Cost estimates with two nested ceilings, and how a settlement at the same counts compares. */
module Pricing {
  import opened Common
  import B = Budget

  datatype Price = Price(input: nat, output: nat, currency: nat, estimator: nat, maxToolCost: nat, from: nat, until: nat)

  /** Target minor units per source minor unit, as an exact fraction. */
  datatype Rate = Rate(numerator: nat, denominator: nat)

  predicate ValidRate(r: Rate) {
    r.numerator > 0 && r.denominator > 0
  }

  /** Direct quotes into one base currency, valid for a time. */
  datatype FX = FX(base: nat, rates: map<nat, Rate>, from: nat, until: nat)

  predicate ValidFX(fx: FX) {
    fx.from < fx.until && fx.base !in fx.rates && forall c :: c in fx.rates ==> ValidRate(fx.rates[c])
  }

  datatype Model = Model(price: Option<Price>, localZeroCost: bool, enabled: bool, estimator: nat, from: nat, until: nat)

  datatype Unavailable = TokenizerExpired | PriceMissing | EstimatorMismatch | PriceExpired | FxExpired | FxBase | FxPair | ProviderDisabled

  function CeilDiv(n: nat, d: nat): nat
    requires d > 0
  {
    if n == 0 then 0 else (n + d - 1) / d
  }

  lemma {:induction false} CeilDivIs(n: nat, d: nat, v: nat)
    requires d > 0
    ensures v == CeilDiv(n, d) <==> n <= v * d < n + d
  {
    var c := CeilDiv(n, d);
    if n > 0 {
      assert n + d - 1 == c * d + (n + d - 1) % d;
    }
    assert n <= c * d < n + d;
    if n <= v * d < n + d {
      if v < c {
        B.TimesMonotone(v + 1, c, d);
      } else if v > c {
        B.TimesMonotone(c + 1, v, d);
      }
    }
  }

  /** The rate in force between two currencies; none is needed within one. */
  function RateFor(fx: FX, source: nat, target: nat, now: nat): Result<Rate, Unavailable> {
    if !(fx.from <= now < fx.until) then Err(FxExpired)
    else if target != fx.base then Err(FxBase)
    else if source == target then Ok(Rate(1, 1))
    else if source !in fx.rates then Err(FxPair)
    else Ok(fx.rates[source])
  }

  function ConvertMinor(fx: FX, amount: nat, source: nat, target: nat, now: nat): Result<nat, Unavailable>
    requires ValidFX(fx)
  {
    var rate := RateFor(fx, source, target, now);
    if rate.Err? then Err(rate.error)
    else if source == target then Ok(amount)
    else Ok(CeilDiv(amount * rate.value.numerator, rate.value.denominator))
  }

  /** Conversion is the exact quotient, rounded up. */
  lemma {:induction false} ConvertRoundsUp(fx: FX, amount: nat, source: nat, target: nat, now: nat, v: nat)
    requires ValidFX(fx)
    ensures ConvertMinor(fx, amount, source, target, now) == Ok(v) <==>
            var r := RateFor(fx, source, target, now);
            r.Ok? && amount * r.value.numerator <= v * r.value.denominator < amount * r.value.numerator + r.value.denominator
  {
    var r := RateFor(fx, source, target, now);
    if r.Ok? && source != target {
      CeilDivIs(amount * r.value.numerator, r.value.denominator, v);
    }
  }

  function Validate(m: Model, fx: FX, target: nat, now: nat): Option<Unavailable> {
    if fx.base != target then Some(FxBase)
    else if !m.enabled then Some(ProviderDisabled)
    else if !(m.from <= now < m.until) then Some(TokenizerExpired)
    else if m.price.None? then (if m.localZeroCost then None else Some(PriceMissing))
    else if m.price.value.estimator != m.estimator then Some(EstimatorMismatch)
    else if !(m.price.value.from <= now < m.price.value.until) then Some(PriceExpired)
    else
      var rate := RateFor(fx, m.price.value.currency, target, now);
      if rate.Err? then Some(rate.error) else None
  }

  /** The prices an estimate records: reasoning at the output rate and cached input at the input rate. */
  function PricesOf(m: Model): B.Counts {
    if m.price.None? then B.Counts(0, 0, 0, 0)
    else B.Counts(m.price.value.input, m.price.value.output, m.price.value.output, m.price.value.input)
  }

  function Weighted(m: Model, c: B.Counts): nat {
    var p := PricesOf(m);
    (c.input + c.cached) * p.input + (c.output + c.reasoning) * p.output
  }

  function ToolFee(m: Model, toolFee: nat): nat {
    if m.price.None? then toolFee else toolFee + m.price.value.maxToolCost
  }

  /** The cost in the currency of the price. */
  function SourceCost(m: Model, c: B.Counts, providerFee: nat, toolFee: nat): nat {
    CeilDiv(Weighted(m, c), B.Million) + providerFee + ToolFee(m, toolFee)
  }

  function SourceCurrency(m: Model, target: nat): nat {
    if m.price.None? then target else m.price.value.currency
  }

  function EstimateModelCost(m: Model, fx: FX, c: B.Counts, providerFee: nat, toolFee: nat, target: nat, now: nat, snapshots: nat)
    : Result<B.Estimate, Unavailable>
    requires ValidFX(fx)
  {
    var bad := Validate(m, fx, target, now);
    if bad.Some? then Err(bad.value)
    else
      var amount := ConvertMinor(fx, SourceCost(m, c, providerFee, toolFee), SourceCurrency(m, target), target, now);
      if amount.Err? then Err(amount.error)
      else Ok(B.Estimate(amount.value, target, B.Total(c), c, providerFee, ToolFee(m, toolFee), PricesOf(m), snapshots))
  }

  // ----- Bounds -----

  lemma {:induction false} Product(a: int, b: int, p: nat)
    ensures a <= b ==> a * p <= b * p
    ensures a < b && p > 0 ==> a * p < b * p
  {
  }

  lemma {:induction false} Distribute(a: nat, b: nat, p: nat)
    ensures (a + b) * p == a * p + b * p
  {
  }

  lemma {:induction false} Swap(a: int, b: int, c: int)
    ensures a * b * c == a * c * b
  {
  }

  /** Two nested ceilings, multiplied out: the inner over d, the outer over den. */
  lemma {:induction false} TwoCeilings(exact: nat, s: nat, d: nat, num: nat, den: nat, amount: nat)
    requires d > 0 && exact <= s * d < exact + d && s * num <= amount * den < s * num + den
    ensures exact * num <= amount * den * d < exact * num + num * d + den * d
  {
    Product(exact, s * d, num);
    Product(s * d, exact + d, num);
    Product(s * num, amount * den, d);
    Product(amount * den, s * num + den, d);
    Swap(s, d, num);
    Distribute(exact, d, num);
    Distribute(s * num, den, d);
    Swap(1, d, num);
  }

  /**
   The estimate is at least the exact cost, and less than the exact cost plus the rate plus one:
   with cost in millionths and the rate as a fraction, everything is multiplied out.
   */
  lemma {:induction false} EstimateBounds(m: Model, fx: FX, c: B.Counts, providerFee: nat, toolFee: nat, target: nat, now: nat, snapshots: nat)
    requires ValidFX(fx) && EstimateModelCost(m, fx, c, providerFee, toolFee, target, now, snapshots).Ok?
    ensures RateFor(fx, SourceCurrency(m, target), target, now).Ok?
    ensures var amount := EstimateModelCost(m, fx, c, providerFee, toolFee, target, now, snapshots).value.amount;
            var r := RateFor(fx, SourceCurrency(m, target), target, now).value;
            var exact := (Weighted(m, c) + (providerFee + ToolFee(m, toolFee)) * B.Million) * r.numerator;
            && amount * r.denominator * B.Million >= exact
            && amount * r.denominator * B.Million < exact + r.numerator * B.Million + r.denominator * B.Million
  {
    var amount := EstimateModelCost(m, fx, c, providerFee, toolFee, target, now, snapshots).value.amount;
    var s := SourceCost(m, c, providerFee, toolFee);
    ConvertRoundsUp(fx, s, SourceCurrency(m, target), target, now, amount);
    var r := RateFor(fx, SourceCurrency(m, target), target, now).value;
    var w := Weighted(m, c);
    var fees := providerFee + ToolFee(m, toolFee);
    CeilDivIs(w, B.Million, CeilDiv(w, B.Million));
    assert w + fees * B.Million <= s * B.Million < w + fees * B.Million + B.Million;
    TwoCeilings(w + fees * B.Million, s, B.Million, r.numerator, r.denominator, amount);
  }

  lemma {:induction false} CeilDivMonotone(a: nat, b: nat, d: nat)
    requires a <= b && d > 0
    ensures CeilDiv(a, d) <= CeilDiv(b, d)
  {
    CeilDivIs(a, d, CeilDiv(a, d));
    CeilDivIs(b, d, CeilDiv(b, d));
    if CeilDiv(a, d) > CeilDiv(b, d) {
      B.TimesMonotone(CeilDiv(b, d) + 1, CeilDiv(a, d), d);
    }
  }

  /** More tokens never cost less. */
  lemma {:induction false} EstimateMonotone(m: Model, fx: FX, a: B.Counts, b: B.Counts, providerFee: nat, toolFee: nat,
                                            target: nat, now: nat, snapshots: nat)
    requires ValidFX(fx) && B.AtMost(a, b) && EstimateModelCost(m, fx, a, providerFee, toolFee, target, now, snapshots).Ok?
    ensures EstimateModelCost(m, fx, b, providerFee, toolFee, target, now, snapshots).Ok?
    ensures EstimateModelCost(m, fx, a, providerFee, toolFee, target, now, snapshots).value.amount
         <= EstimateModelCost(m, fx, b, providerFee, toolFee, target, now, snapshots).value.amount
  {
    B.TimesMonotone(a.input + a.cached, b.input + b.cached, PricesOf(m).input);
    B.TimesMonotone(a.output + a.reasoning, b.output + b.reasoning, PricesOf(m).output);
    CeilDivMonotone(Weighted(m, a), Weighted(m, b), B.Million);
    var rate := RateFor(fx, SourceCurrency(m, target), target, now).value;
    var s, t := SourceCost(m, a, providerFee, toolFee), SourceCost(m, b, providerFee, toolFee);
    B.TimesMonotone(s, t, rate.numerator);
    CeilDivMonotone(s * rate.numerator, t * rate.numerator, rate.denominator);
  }

  // ----- Settling an estimate at its own counts -----

  /** A settlement prices usage at the recorded rates and skips the conversion. */
  lemma {:induction false} SettlesAtSource(m: Model, e: B.Estimate, c: B.Counts, providerFee: nat, toolFee: nat)
    requires e.counts == c && e.prices == PricesOf(m) && e.providerFee == providerFee && e.toolFee == ToolFee(m, toolFee)
    ensures B.CostAt(c, e.prices, e.providerFee, e.toolFee) == SourceCost(m, c, providerFee, toolFee)
  {
    Distribute(c.input, c.cached, e.prices.input);
    Distribute(c.output, c.reasoning, e.prices.output);
    assert B.Priced(c, e.prices) == Weighted(m, c);
  }

  lemma {:induction false} CoversSourceIff(s: nat, r: Rate, v: nat)
    requires ValidRate(r) && s * r.numerator <= v * r.denominator < s * r.numerator + r.denominator
    ensures s <= v <==> s * r.denominator < s * r.numerator + r.denominator
  {
    if s <= v {
      B.TimesMonotone(s, v, r.denominator);
    } else {
      B.TimesMonotone(v + 1, s, r.denominator);
    }
  }

  lemma {:induction false} OneBalance(st: B.State, part: B.Part)
    ensures B.Balance([st], part, B.Money) == B.PartOf(st, part, B.Money)
  {
    assert [] + [st] == [st];
    B.BalanceMore([], st, part, B.Money);
  }

  lemma {:induction false} OneHeld(r: B.Reservation)
    ensures B.Balance([B.Made(r)], B.UsedPart, B.Money) == 0
    ensures B.HeldNow([B.Made(r)], B.Money) == r.estimate.amount
  {
    var st := B.Made(r);
    OneBalance(st, B.UsedPart);
    OneBalance(st, B.ReservedPart);
    OneBalance(st, B.UnknownPart);
  }

  lemma {:induction false} MoneyFits(l: B.Limit, r: B.Reservation, u: B.Record)
    requires l.money == Some(r.estimate.amount) && forall q :: q != B.Money ==> B.Cap(l, q).None?
    ensures B.SettlementFits(l, [B.Made(r)], u, B.Made(r)) <==> u.cost <= r.estimate.amount
  {
    OneHeld(r);
    assert B.Cap(l, B.Money) == Some(r.estimate.amount) && B.Spent(u, B.Money) == u.cost;
    assert B.Held(B.Made(r).reservation, B.Money) == r.estimate.amount;
  }

  /** The command that settles an estimate at its own counts, and the tightest envelope for it. */
  function SettleOwn(id: nat, e: B.Estimate): B.Command {
    B.Settle(id, B.Usage(e.counts, e.providerFee, e.toolFee, None, None), None, false)
  }

  function Tightest(e: B.Estimate): B.Limit {
    B.Limit(Some(e.amount), None, e.currency, None, None, None, None)
  }

  lemma {:induction false} TightestFits(id: nat, e: B.Estimate)
    requires B.Total(e.counts) <= e.tokenLimit
    ensures B.ReservationFits(Tightest(e), [], B.FirstEvent(id, e, Tightest(e)).body.reservation)
  {
    assert B.Balance([], B.UsedPart, B.Money) == 0 && B.HeldNow([], B.Money) == 0;
    forall q | q != B.Money
      ensures B.Cap(Tightest(e), q).None?
    {
    }
  }

  /** In that ledger the settlement is appended exactly when its cost stays within the estimate. */
  lemma {:induction false} SettledAlone(id: nat, e: B.Estimate)
    requires B.Total(e.counts) <= e.tokenLimit
    ensures var l := Tightest(e); var events := B.After(Some(l), [], B.Plainly(id, e));
            B.Decide(Some(l), events, SettleOwn(id, e)).Append?
            <==> B.CostAt(e.counts, e.prices, e.providerFee, e.toolFee) <= e.amount
  {
    var l := Tightest(e);
    var events := B.After(Some(l), [], B.Plainly(id, e));
    var c := SettleOwn(id, e);
    TightestFits(id, e);
    B.ReservedAlone(id, e, l);
    assert events == [B.FirstEvent(id, e, l)] && events[..0] == [];
    var r := B.Reservation(id, e, e.tokenLimit, l, None);
    assert B.SettlementEvents(events, B.SettlementKeyFor(c)) == B.SettlementEvents([], B.SettlementKeyFor(c)) == [];
    assert B.Keyed(events, B.KeyOf(c)) == B.Keyed([], B.KeyOf(c)) == [];
    assert [B.Made(r)][..0] == [] && B.IndexOf(B.Replayed(events), id) == 0;
    assert B.PersistedLimit(events) == Some(l);
    MoneyFits(l, r, B.BuildUsage(B.Made(r), c.usage, B.SettlementKeyFor(c)).value);
  }

  /**
   Reserving an estimate under a money cap of its amount and settling its own counts is accepted
   exactly when the conversion did not shrink the cost by a whole unit.
   */
  lemma {:induction false} OwnUsageFitsIff(m: Model, fx: FX, c: B.Counts, providerFee: nat, toolFee: nat, target: nat, now: nat,
                                           snapshots: nat, id: nat)
    requires ValidFX(fx) && EstimateModelCost(m, fx, c, providerFee, toolFee, target, now, snapshots).Ok?
    ensures RateFor(fx, SourceCurrency(m, target), target, now).Ok?
    ensures var e := EstimateModelCost(m, fx, c, providerFee, toolFee, target, now, snapshots).value;
            var l := Some(Tightest(e));
            var s, r := SourceCost(m, c, providerFee, toolFee), RateFor(fx, SourceCurrency(m, target), target, now).value;
            B.Decide(l, B.After(l, [], B.Plainly(id, e)), SettleOwn(id, e)).Append?
            <==> s * r.denominator < s * r.numerator + r.denominator
  {
    var e := EstimateModelCost(m, fx, c, providerFee, toolFee, target, now, snapshots).value;
    var s := SourceCost(m, c, providerFee, toolFee);
    ConvertRoundsUp(fx, s, SourceCurrency(m, target), target, now, e.amount);
    var r := RateFor(fx, SourceCurrency(m, target), target, now).value;
    SettlesAtSource(m, e, c, providerFee, toolFee);
    CoversSourceIff(s, r, e.amount);
    SettledAlone(id, e);
  }

  /**
   The same condition suffices in every ledger, whatever else it holds and whatever its caps are:
   usage within the counts and fees of an estimate it reserved is then accepted.
   */
  lemma {:induction false} OwnUsageAccepted(m: Model, fx: FX, counts: B.Counts, providerFee: nat, toolFee: nat, target: nat, now: nat,
                                            snapshots: nat, configured: Option<B.Limit>, events: seq<B.Event>, c: B.Command)
    requires B.Sound(events) && c.Settle? && B.OpenFor(events, c) && B.LimitFor(configured, events).Some? && c.usage.cost.None?
    requires ValidFX(fx)
    requires var e := B.Replayed(events)[B.IndexOf(B.Replayed(events), c.id)].reservation.estimate;
             && EstimateModelCost(m, fx, counts, providerFee, toolFee, target, now, snapshots) == Ok(e)
             && B.AtMost(c.usage.counts, e.counts) && c.usage.providerFee <= e.providerFee && c.usage.toolFee <= e.toolFee
    requires var r := RateFor(fx, SourceCurrency(m, target), target, now);
             var s := SourceCost(m, counts, providerFee, toolFee);
             r.Ok? ==> s * r.value.denominator < s * r.value.numerator + r.value.denominator
    ensures B.Decide(configured, events, c).Append?
  {
    var st := B.Replayed(events)[B.IndexOf(B.Replayed(events), c.id)];
    var e := st.reservation.estimate;
    var s := SourceCost(m, counts, providerFee, toolFee);
    ConvertRoundsUp(fx, s, SourceCurrency(m, target), target, now, e.amount);
    var r := RateFor(fx, SourceCurrency(m, target), target, now).value;
    SettlesAtSource(m, e, counts, providerFee, toolFee);
    CoversSourceIff(s, r, e.amount);
    B.PricedMonotone(c.usage.counts, e.counts, e.prices);
    assert B.StateOk(st);
    B.WithinReservationFits(configured, events, c);
  }

  /** Rates of one half, and a model that charges nothing but a fee in the foreign currency. */
  predicate HalfRate(fx: FX) {
    fx.base == 0 && fx.rates == map[1 := Rate(1, 2)] && fx.from == 0 && fx.until == 10
  }

  predicate FeeOnly(m: Model) {
    && m.enabled && m.estimator == 0 && m.from == 0 && m.until == 10
    && m.price == Some(Price(0, 0, 1, 0, 0, 0, 10))
  }

  lemma {:induction false} FeeOnlyCost(m: Model, c: B.Counts, fee: nat)
    requires FeeOnly(m)
    ensures SourceCost(m, c, fee, 0) == fee
  {
    var p := PricesOf(m);
    assert p.input == p.output == 0;
    assert (c.input + c.cached) * p.input == 0 && (c.output + c.reasoning) * p.output == 0;
  }

  /** At a rate of one half a source cost of two is estimated as one, and settling it is refused. */
  lemma {:induction false} HalfRateRefused(m: Model, fx: FX, c: B.Counts, id: nat, snapshots: nat)
    requires HalfRate(fx) && FeeOnly(m)
    ensures ValidFX(fx)
    ensures var estimated := EstimateModelCost(m, fx, c, 2, 0, 0, 5, snapshots);
            && estimated.Ok? && estimated.value.amount == 1
            && var e := estimated.value; var l := Some(Tightest(e)); var events := B.After(l, [], B.Plainly(id, e));
               |events| == 1 && !B.Decide(l, events, SettleOwn(id, e)).Append?
  {
    FeeOnlyCost(m, c, 2);
    assert RateFor(fx, 1, 0, 5) == Ok(Rate(1, 2));
    assert ConvertMinor(fx, 2, 1, 0, 5) == Ok(1);
    OwnUsageFitsIff(m, fx, c, 2, 0, 0, 5, snapshots, id);
    var e := EstimateModelCost(m, fx, c, 2, 0, 0, 5, snapshots).value;
    TightestFits(id, e);
    B.ReservedAlone(id, e, Tightest(e));
  }
}

/** Tightening policy envelopes: one meet of all layers, in any order and any grouping. */
module ConfigEnvelope {
  import opened Common

  datatype LimitName = CostMinor | TotalTokens | Agents | Depth | Concurrency | ParallelCandidates

  datatype AllowedName = Models | Providers | Capabilities

  datatype DeniedName = DeniedModels | DeniedProviders

  datatype FlagName = IndependentReview | Approval

  datatype Tier = Economy | Standard | High

  function TierOrder(t: Tier): nat {
    match t
    case Economy => 0
    case Standard => 1
    case High => 2
  }

  /** The constraints of one authority layer; whatever is absent is not constrained. */
  datatype Envelope = Envelope(
    currency: Option<nat>,
    limits: map<LimitName, nat>,
    allowed: map<AllowedName, set<nat>>,
    denied: map<DeniedName, set<nat>>,
    minTier: Option<Tier>,
    flags: map<FlagName, bool>)

  const LimitNames: set<LimitName> := {CostMinor, TotalTokens, Agents, Depth, Concurrency, ParallelCandidates}
  const AllowedNames: set<AllowedName> := {Models, Providers, Capabilities}
  const DeniedNames: set<DeniedName> := {DeniedModels, DeniedProviders}
  const FlagNames: set<FlagName> := {IndependentReview, Approval}

  // ----- One field over all layers -----

  function Minimum(layers: seq<Envelope>, n: LimitName): Option<nat> {
    if layers == [] then None
    else
      var rest, last := Minimum(layers[..|layers| - 1], n), layers[|layers| - 1];
      if n !in last.limits then rest
      else if rest.Some? && rest.value < last.limits[n] then rest else Some(last.limits[n])
  }

  function Intersection(layers: seq<Envelope>, n: AllowedName): Option<set<nat>> {
    if layers == [] then None
    else
      var rest, last := Intersection(layers[..|layers| - 1], n), layers[|layers| - 1];
      if n !in last.allowed then rest
      else if rest.Some? then Some(rest.value * last.allowed[n]) else Some(last.allowed[n])
  }

  function Union(layers: seq<Envelope>, n: DeniedName): Option<set<nat>> {
    if layers == [] then None
    else
      var rest, last := Union(layers[..|layers| - 1], n), layers[|layers| - 1];
      if n !in last.denied then rest
      else if rest.Some? then Some(rest.value + last.denied[n]) else Some(last.denied[n])
  }

  function HighestTier(layers: seq<Envelope>): Option<Tier> {
    if layers == [] then None
    else
      var rest, last := HighestTier(layers[..|layers| - 1]), layers[|layers| - 1];
      if last.minTier.None? then rest
      else if rest.Some? && TierOrder(rest.value) > TierOrder(last.minTier.value) then rest else last.minTier
  }

  function AnyTrue(layers: seq<Envelope>, n: FlagName): Option<bool> {
    if layers == [] then None
    else
      var rest, last := AnyTrue(layers[..|layers| - 1], n), layers[|layers| - 1];
      if n !in last.flags then rest
      else if rest.Some? then Some(rest.value || last.flags[n]) else Some(last.flags[n])
  }

  function Currencies(layers: seq<Envelope>): set<nat> {
    set l | l in layers && l.currency.Some? :: l.currency.value
  }

  predicate OneCurrency(layers: seq<Envelope>) {
    forall a, b :: a in Currencies(layers) && b in Currencies(layers) ==> a == b
  }

  /** Combines all layers; different currencies cannot be compared and are refused. */
  function Tighten(layers: seq<Envelope>): Option<Envelope> {
    if !OneCurrency(layers) then None
    else Some(Envelope(
      TheCurrency(layers),
      LimitsOf(layers),
      AllowedOf(layers),
      DeniedOf(layers),
      HighestTier(layers),
      FlagsOf(layers)))
  }

  function LimitsOf(layers: seq<Envelope>): map<LimitName, nat> {
    map n | n in LimitNames && Minimum(layers, n).Some? :: Minimum(layers, n).value
  }

  function AllowedOf(layers: seq<Envelope>): map<AllowedName, set<nat>> {
    map n | n in AllowedNames && Intersection(layers, n).Some? :: Intersection(layers, n).value
  }

  function DeniedOf(layers: seq<Envelope>): map<DeniedName, set<nat>> {
    map n | n in DeniedNames && Union(layers, n).Some? :: Union(layers, n).value
  }

  function FlagsOf(layers: seq<Envelope>): map<FlagName, bool> {
    map n | n in FlagNames && AnyTrue(layers, n).Some? :: AnyTrue(layers, n).value
  }

  function TheCurrency(layers: seq<Envelope>): Option<nat> {
    if layers == [] then None
    else if layers[0].currency.Some? then layers[0].currency
    else TheCurrency(layers[1..])
  }

  // ----- What each field says of the layers -----

  lemma {:induction false} MinimumIs(layers: seq<Envelope>, n: LimitName)
    ensures Minimum(layers, n).Some? <==> exists l :: l in layers && n in l.limits
    ensures Minimum(layers, n).Some? ==> exists l :: l in layers && n in l.limits && l.limits[n] == Minimum(layers, n).value
    ensures forall l :: l in layers && n in l.limits ==> Minimum(layers, n).Some? && Minimum(layers, n).value <= l.limits[n]
  {
    if layers != [] {
      MinimumIs(layers[..|layers| - 1], n);
      assert layers == layers[..|layers| - 1] + [layers[|layers| - 1]];
    }
  }

  lemma {:induction false} IntersectionIs(layers: seq<Envelope>, n: AllowedName)
    ensures Intersection(layers, n).Some? <==> exists l :: l in layers && n in l.allowed
    ensures Intersection(layers, n).Some? ==>
              forall x :: x in Intersection(layers, n).value <==> forall l :: l in layers && n in l.allowed ==> x in l.allowed[n]
  {
    if layers != [] {
      IntersectionIs(layers[..|layers| - 1], n);
      assert layers == layers[..|layers| - 1] + [layers[|layers| - 1]];
    }
  }

  lemma {:induction false} UnionIs(layers: seq<Envelope>, n: DeniedName)
    ensures Union(layers, n).Some? <==> exists l :: l in layers && n in l.denied
    ensures Union(layers, n).Some? ==>
              forall x :: x in Union(layers, n).value <==> exists l :: l in layers && n in l.denied && x in l.denied[n]
  {
    if layers != [] {
      UnionIs(layers[..|layers| - 1], n);
      assert layers == layers[..|layers| - 1] + [layers[|layers| - 1]];
    }
  }

  lemma {:induction false} HighestTierIs(layers: seq<Envelope>)
    ensures HighestTier(layers).Some? <==> exists l :: l in layers && l.minTier.Some?
    ensures HighestTier(layers).Some? ==> exists l :: l in layers && l.minTier == HighestTier(layers)
    ensures forall l :: l in layers && l.minTier.Some? ==>
              HighestTier(layers).Some? && TierOrder(l.minTier.value) <= TierOrder(HighestTier(layers).value)
  {
    if layers != [] {
      HighestTierIs(layers[..|layers| - 1]);
      assert layers == layers[..|layers| - 1] + [layers[|layers| - 1]];
    }
  }

  lemma {:induction false} AnyTrueIs(layers: seq<Envelope>, n: FlagName)
    ensures AnyTrue(layers, n).Some? <==> exists l :: l in layers && n in l.flags
    ensures AnyTrue(layers, n) == Some(true) <==> exists l :: l in layers && n in l.flags && l.flags[n]
  {
    if layers != [] {
      AnyTrueIs(layers[..|layers| - 1], n);
      assert layers == layers[..|layers| - 1] + [layers[|layers| - 1]];
    }
  }

  lemma {:induction false} TheCurrencyIs(layers: seq<Envelope>)
    ensures TheCurrency(layers).Some? <==> Currencies(layers) != {}
    ensures TheCurrency(layers).Some? ==> TheCurrency(layers).value in Currencies(layers)
  {
    if layers != [] {
      TheCurrencyIs(layers[1..]);
      assert layers == [layers[0]] + layers[1..];
      if layers[0].currency.None? {
        assert forall l :: l in layers && l.currency.Some? ==> l in layers[1..];
        assert Currencies(layers) == Currencies(layers[1..]);
      } else {
        assert layers[0] in layers && layers[0].currency.value in Currencies(layers);
      }
    }
  }

  // ----- The meet admits what every layer admits -----

  /** What one model call asks for. */
  datatype Call = Call(currency: nat, amounts: map<LimitName, nat>, model: nat, provider: nat, capabilities: set<nat>,
                       tier: Tier, reviewed: bool, approved: bool)

  predicate WithinLimit(e: Envelope, c: Call, n: LimitName)
    requires n in c.amounts
  {
    n in e.limits ==> c.amounts[n] <= e.limits[n]
  }

  predicate Admits(e: Envelope, c: Call)
    requires c.amounts.Keys == LimitNames
  {
    && (e.currency.Some? ==> e.currency.value == c.currency)
    && (forall n :: n in LimitNames ==> WithinLimit(e, c, n))
    && (Models in e.allowed ==> c.model in e.allowed[Models])
    && (Providers in e.allowed ==> c.provider in e.allowed[Providers])
    && (Capabilities in e.allowed ==> c.capabilities <= e.allowed[Capabilities])
    && (DeniedModels in e.denied ==> c.model !in e.denied[DeniedModels])
    && (DeniedProviders in e.denied ==> c.provider !in e.denied[DeniedProviders])
    && (e.minTier.Some? ==> TierOrder(e.minTier.value) <= TierOrder(c.tier))
    && (IndependentReview in e.flags && e.flags[IndependentReview] ==> c.reviewed)
    && (Approval in e.flags && e.flags[Approval] ==> c.approved)
  }

  ghost predicate AllAdmit(layers: seq<Envelope>, c: Call)
    requires c.amounts.Keys == LimitNames
  {
    forall l :: l in layers ==> Admits(l, c)
  }

  lemma {:induction false} LimitsMeet(layers: seq<Envelope>, e: Envelope, c: Call, n: LimitName)
    requires Tighten(layers) == Some(e) && n in c.amounts && n in LimitNames
    ensures WithinLimit(e, c, n) <==> forall l :: l in layers ==> WithinLimit(l, c, n)
  {
    MinimumIs(layers, n);
  }

  lemma {:induction false} AllowedMeet(layers: seq<Envelope>, e: Envelope, n: AllowedName, x: nat)
    requires Tighten(layers) == Some(e) && n in AllowedNames
    ensures (n in e.allowed ==> x in e.allowed[n]) <==> forall l :: l in layers && n in l.allowed ==> x in l.allowed[n]
  {
    IntersectionIs(layers, n);
  }

  lemma {:induction false} DeniedMeet(layers: seq<Envelope>, e: Envelope, n: DeniedName, x: nat)
    requires Tighten(layers) == Some(e) && n in DeniedNames
    ensures (n in e.denied ==> x !in e.denied[n]) <==> forall l :: l in layers && n in l.denied ==> x !in l.denied[n]
  {
    UnionIs(layers, n);
  }

  lemma {:induction false} FlagMeet(layers: seq<Envelope>, e: Envelope, n: FlagName)
    requires Tighten(layers) == Some(e) && n in FlagNames
    ensures (n in e.flags && e.flags[n]) <==> exists l :: l in layers && n in l.flags && l.flags[n]
  {
    AnyTrueIs(layers, n);
  }

  lemma {:induction false} CurrencyMeet(layers: seq<Envelope>, e: Envelope, currency: nat)
    requires Tighten(layers) == Some(e)
    ensures (e.currency.Some? ==> e.currency.value == currency) <==>
            forall l :: l in layers && l.currency.Some? ==> l.currency.value == currency
  {
    TheCurrencyIs(layers);
    assert forall l :: l in layers && l.currency.Some? ==> l.currency.value in Currencies(layers);
  }

  lemma {:induction false} TierMeet(layers: seq<Envelope>, e: Envelope, t: Tier)
    requires Tighten(layers) == Some(e)
    ensures (e.minTier.Some? ==> TierOrder(e.minTier.value) <= TierOrder(t)) <==>
            forall l :: l in layers && l.minTier.Some? ==> TierOrder(l.minTier.value) <= TierOrder(t)
  {
    HighestTierIs(layers);
  }

  /** The combined envelope admits a call exactly when every layer does. */
  lemma {:induction false} TightenIsMeet(layers: seq<Envelope>, e: Envelope, c: Call)
    requires Tighten(layers) == Some(e) && c.amounts.Keys == LimitNames
    ensures Admits(e, c) <==> AllAdmit(layers, c)
  {
    forall n | n in LimitNames
      ensures WithinLimit(e, c, n) <==> forall l :: l in layers ==> WithinLimit(l, c, n)
    {
      LimitsMeet(layers, e, c, n);
    }
    AllowedMeet(layers, e, Models, c.model);
    AllowedMeet(layers, e, Providers, c.provider);
    forall x | x in c.capabilities
      ensures (Capabilities in e.allowed ==> x in e.allowed[Capabilities]) <==>
              forall l :: l in layers && Capabilities in l.allowed ==> x in l.allowed[Capabilities]
    {
      AllowedMeet(layers, e, Capabilities, x);
    }
    DeniedMeet(layers, e, DeniedModels, c.model);
    DeniedMeet(layers, e, DeniedProviders, c.provider);
    FlagMeet(layers, e, IndependentReview);
    FlagMeet(layers, e, Approval);
    CurrencyMeet(layers, e, c.currency);
    TierMeet(layers, e, c.tier);
  }

  /** Layers are refused only when no call could satisfy all of them. */
  lemma {:induction false} RefusedMeansUnsatisfiable(layers: seq<Envelope>, c: Call)
    requires Tighten(layers).None? && c.amounts.Keys == LimitNames
    ensures !AllAdmit(layers, c)
  {
    var a, b :| a in Currencies(layers) && b in Currencies(layers) && a != b;
    var l :| l in layers && l.currency == Some(a);
    var m :| m in layers && m.currency == Some(b);
  }

  // ----- Order and grouping do not matter -----

  lemma {:induction false} SameMinimum(a: seq<Envelope>, b: seq<Envelope>, n: LimitName)
    requires forall l :: l in a <==> l in b
    ensures Minimum(a, n) == Minimum(b, n)
  {
    MinimumIs(a, n);
    MinimumIs(b, n);
  }

  lemma {:induction false} SameIntersection(a: seq<Envelope>, b: seq<Envelope>, n: AllowedName)
    requires forall l :: l in a <==> l in b
    ensures Intersection(a, n) == Intersection(b, n)
  {
    IntersectionIs(a, n);
    IntersectionIs(b, n);
    if Intersection(a, n).Some? {
      assert Intersection(a, n).value == Intersection(b, n).value;
    }
  }

  lemma {:induction false} SameUnion(a: seq<Envelope>, b: seq<Envelope>, n: DeniedName)
    requires forall l :: l in a <==> l in b
    ensures Union(a, n) == Union(b, n)
  {
    UnionIs(a, n);
    UnionIs(b, n);
    if Union(a, n).Some? {
      assert Union(a, n).value == Union(b, n).value;
    }
  }

  lemma {:induction false} SameTierAndFlags(a: seq<Envelope>, b: seq<Envelope>, n: FlagName)
    requires forall l :: l in a <==> l in b
    ensures HighestTier(a) == HighestTier(b) && AnyTrue(a, n) == AnyTrue(b, n)
  {
    HighestTierIs(a);
    HighestTierIs(b);
    AnyTrueIs(a, n);
    AnyTrueIs(b, n);
    assert AnyTrue(a, n).Some? == AnyTrue(b, n).Some?;
    if AnyTrue(a, n).Some? {
      var x, y := AnyTrue(a, n).value, AnyTrue(b, n).value;
      assert x ==> AnyTrue(a, n) == Some(true);
      assert y ==> AnyTrue(b, n) == Some(true);
      assert x == y;
    }
  }

  lemma {:induction false} SameCurrency(a: seq<Envelope>, b: seq<Envelope>)
    requires Currencies(a) == Currencies(b)
    ensures OneCurrency(a) <==> OneCurrency(b)
    ensures OneCurrency(a) ==> TheCurrency(a) == TheCurrency(b)
  {
    TheCurrencyIs(a);
    TheCurrencyIs(b);
  }

  /** Every field agrees, so the envelopes do. */
  ghost predicate SameFields(a: seq<Envelope>, b: seq<Envelope>) {
    && Currencies(a) == Currencies(b)
    && (forall n :: Minimum(a, n) == Minimum(b, n)) && (forall n :: Intersection(a, n) == Intersection(b, n))
    && (forall n :: Union(a, n) == Union(b, n)) && (forall n :: AnyTrue(a, n) == AnyTrue(b, n))
    && HighestTier(a) == HighestTier(b)
  }

  lemma {:induction false} SameLimits(a: seq<Envelope>, b: seq<Envelope>)
    requires (forall n :: Minimum(a, n) == Minimum(b, n)) && (forall n :: AnyTrue(a, n) == AnyTrue(b, n))
    ensures LimitsOf(a) == LimitsOf(b) && FlagsOf(a) == FlagsOf(b)
  {
  }

  lemma {:induction false} SameSets(a: seq<Envelope>, b: seq<Envelope>)
    requires (forall n :: Intersection(a, n) == Intersection(b, n)) && (forall n :: Union(a, n) == Union(b, n))
    ensures AllowedOf(a) == AllowedOf(b) && DeniedOf(a) == DeniedOf(b)
  {
  }

  lemma {:induction false} SameEnvelope(a: seq<Envelope>, b: seq<Envelope>)
    requires SameFields(a, b)
    ensures Tighten(a) == Tighten(b)
  {
    SameCurrency(a, b);
    SameLimits(a, b);
    SameSets(a, b);
  }

  /** Any list of the same layers combines to the same envelope. */
  lemma {:induction false} TightenAnyOrder(a: seq<Envelope>, b: seq<Envelope>)
    requires forall l :: l in a <==> l in b
    ensures Tighten(a) == Tighten(b)
  {
    forall n
      ensures Minimum(a, n) == Minimum(b, n)
    {
      SameMinimum(a, b, n);
    }
    forall n
      ensures Intersection(a, n) == Intersection(b, n)
    {
      SameIntersection(a, b, n);
    }
    forall n
      ensures Union(a, n) == Union(b, n)
    {
      SameUnion(a, b, n);
    }
    forall n
      ensures AnyTrue(a, n) == AnyTrue(b, n)
    {
      SameTierAndFlags(a, b, n);
    }
    SameTierAndFlags(a, b, Approval);
    assert Currencies(a) == Currencies(b);
    SameEnvelope(a, b);
  }

  lemma {:induction false} LimitListed(n: LimitName)
    ensures n in LimitNames
  {
    match n {
      case CostMinor =>
      case TotalTokens =>
      case Agents =>
      case Depth =>
      case Concurrency =>
      case ParallelCandidates =>
    }
  }

  lemma {:induction false} SetsListed(a: AllowedName, d: DeniedName, f: FlagName)
    ensures a in AllowedNames && d in DeniedNames && f in FlagNames
  {
    match a {
      case Models =>
      case Providers =>
      case Capabilities =>
    }
    match d {
      case DeniedModels =>
      case DeniedProviders =>
    }
    match f {
      case IndependentReview =>
      case Approval =>
    }
  }

  /** What one combined layer says of each field. */
  lemma {:induction false} OneLayer(layers: seq<Envelope>, e: Envelope)
    requires Tighten(layers) == Some(e)
    ensures forall n :: Minimum([e], n) == Minimum(layers, n)
    ensures forall n :: Intersection([e], n) == Intersection(layers, n)
    ensures forall n :: Union([e], n) == Union(layers, n)
    ensures forall n :: AnyTrue([e], n) == AnyTrue(layers, n)
    ensures HighestTier([e]) == HighestTier(layers) && Currencies([e]) == Currencies(layers)
  {
    assert [e][..0] == [];
    forall n
      ensures Minimum([e], n) == Minimum(layers, n)
    {
      LimitListed(n);
    }
    forall n
      ensures Intersection([e], n) == Intersection(layers, n)
    {
      SetsListed(n, DeniedModels, Approval);
    }
    forall n
      ensures Union([e], n) == Union(layers, n)
    {
      SetsListed(Models, n, Approval);
    }
    forall n
      ensures AnyTrue([e], n) == AnyTrue(layers, n)
    {
      SetsListed(Models, DeniedModels, n);
    }
    TheCurrencyIs(layers);
    assert forall l :: l in [e] <==> l == e;
  }

  /** Tightening layer by layer is tightening all layers at once. */
  lemma {:induction false} TightenStepwise(layers: seq<Envelope>, e: Envelope, next: Envelope)
    requires Tighten(layers) == Some(e)
    ensures Tighten([e, next]) == Tighten(layers + [next])
  {
    OneLayer(layers, e);
    var all, two := layers + [next], [e, next];
    assert all[..|all| - 1] == layers && two[..1] == [e] && all[|all| - 1] == two[1] == next;
    assert Currencies(all) == Currencies(two) by {
      assert forall l :: l in all <==> l in layers || l == next;
      assert forall l :: l in two <==> l in [e] || l == next;
      forall x
        ensures x in Currencies(all) <==> x in Currencies(layers) || next.currency == Some(x)
        ensures x in Currencies(two) <==> x in Currencies([e]) || next.currency == Some(x)
      {
      }
    }
    forall n
      ensures Minimum(all, n) == Minimum(two, n)
    {
      assert Minimum(all[..|all| - 1], n) == Minimum(two[..1], n);
    }
    forall n
      ensures Intersection(all, n) == Intersection(two, n)
    {
      assert Intersection(all[..|all| - 1], n) == Intersection(two[..1], n);
    }
    forall n
      ensures Union(all, n) == Union(two, n)
    {
      assert Union(all[..|all| - 1], n) == Union(two[..1], n);
    }
    forall n
      ensures AnyTrue(all, n) == AnyTrue(two, n)
    {
      assert AnyTrue(all[..|all| - 1], n) == AnyTrue(two[..1], n);
    }
    assert HighestTier(all[..|all| - 1]) == HighestTier(two[..1]);
    assert HighestTier(all) == HighestTier(two);
    SameEnvelope(all, two);
  }
}

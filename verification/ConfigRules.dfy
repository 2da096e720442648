/** Merging rule lists of configuration layers, when two selectors overlap, and source pointers. */
module ConfigRules {
  import opened Common

  datatype Rule = Rule(id: nat, body: nat)

  /** An entry of an overriding layer: a whole rule, or a tombstone for one. */
  datatype Override = Replace(rule: Rule) | Tombstone(id: nat)

  function IdOf(o: Override): nat {
    if o.Replace? then o.rule.id else o.id
  }

  predicate UniqueIds(rules: seq<Rule>) {
    forall i, j :: 0 <= i < j < |rules| ==> rules[i].id != rules[j].id
  }

  /** The rule of an identifier, if the list has one. */
  function Find(rules: seq<Rule>, id: nat): Option<Rule> {
    if rules == [] then None
    else if rules[|rules| - 1].id == id then Some(rules[|rules| - 1])
    else Find(rules[..|rules| - 1], id)
  }

  lemma {:induction false} FindIs(rules: seq<Rule>, id: nat)
    ensures Find(rules, id).None? <==> forall i :: 0 <= i < |rules| ==> rules[i].id != id
    ensures Find(rules, id).Some? ==> Find(rules, id).value in rules && Find(rules, id).value.id == id
    ensures UniqueIds(rules) ==> forall i :: 0 <= i < |rules| && rules[i].id == id ==> Find(rules, id) == Some(rules[i])
  {
    if rules != [] {
      var front := rules[..|rules| - 1];
      FindIs(front, id);
      assert rules == front + [rules[|rules| - 1]];
      forall i | 0 <= i < |rules|
        ensures UniqueIds(rules) && rules[i].id == id ==> Find(rules, id) == Some(rules[i])
      {
        assert i < |front| ==> front[i] == rules[i];
      }
    }
  }

  /** Where each identifier stands. */
  ghost predicate Indexes(rules: seq<Rule>, indexes: map<nat, nat>) {
    && (forall id :: id in indexes ==> indexes[id] < |rules| && rules[indexes[id]].id == id)
    && (forall i :: 0 <= i < |rules| ==> rules[i].id in indexes)
  }

  method IndexAll(rules: seq<Rule>) returns (indexes: map<nat, nat>)
    ensures Indexes(rules, indexes)
  {
    indexes := map[];
    for i := 0 to |rules|
      invariant forall id :: id in indexes ==> indexes[id] < i && rules[indexes[id]].id == id
      invariant forall j :: 0 <= j < i ==> rules[j].id in indexes
    {
      indexes := indexes[rules[i].id := i];
    }
  }

  // ----- Selector rules -----

  /** What one layer says last of an identifier: a rule, a tombstone, or nothing. */
  function LastWriter(overrides: seq<Override>, id: nat): Option<Override> {
    if overrides == [] then None
    else if IdOf(overrides[|overrides| - 1]) == id then Some(overrides[|overrides| - 1])
    else LastWriter(overrides[..|overrides| - 1], id)
  }

  /** What is left of an identifier after a layer. */
  function Survivor(base: seq<Rule>, overrides: seq<Override>, id: nat): Option<Rule> {
    match LastWriter(overrides, id)
    case None => Find(base, id)
    case Some(Tombstone(_)) => None
    case Some(Replace(rule)) => Some(rule)
  }

  lemma {:induction false} FindRemoved(rules: seq<Rule>, k: nat, id: nat)
    requires UniqueIds(rules) && k < |rules|
    ensures UniqueIds(rules[..k] + rules[k + 1..])
    ensures Find(rules[..k] + rules[k + 1..], id) == if id == rules[k].id then None else Find(rules, id)
  {
    var less := rules[..k] + rules[k + 1..];
    assert forall i :: 0 <= i < |less| ==> less[i] == rules[if i < k then i else i + 1];
    FindIs(less, id);
    FindIs(rules, id);
    if id != rules[k].id && Find(rules, id).Some? {
      var i :| 0 <= i < |rules| && rules[i] == Find(rules, id).value;
      assert less[if i < k then i else i - 1] == rules[i];
    }
  }

  lemma {:induction false} FindReplaced(rules: seq<Rule>, k: nat, rule: Rule, id: nat)
    requires UniqueIds(rules) && k < |rules| && rules[k].id == rule.id
    ensures UniqueIds(rules[k := rule])
    ensures Find(rules[k := rule], id) == if id == rule.id then Some(rule) else Find(rules, id)
  {
    var t := rules[k := rule];
    FindIs(t, id);
    FindIs(rules, id);
    if id == rule.id {
      assert t[k].id == id;
    } else if Find(rules, id).Some? {
      var i :| 0 <= i < |rules| && rules[i] == Find(rules, id).value;
      assert t[i] == rules[i];
    }
  }

  lemma {:induction false} FindAppended(rules: seq<Rule>, rule: Rule, id: nat)
    requires UniqueIds(rules) && Find(rules, rule.id).None?
    ensures UniqueIds(rules + [rule])
    ensures Find(rules + [rule], id) == if id == rule.id then Some(rule) else Find(rules, id)
  {
    FindIs(rules, rule.id);
    assert (rules + [rule])[..|rules|] == rules;
  }

  /** Where a rule stands, or -1. */
  function PlaceOf(rules: seq<Rule>, id: nat): (k: int)
    ensures -1 <= k < |rules| && (k >= 0 ==> rules[k].id == id)
    ensures k < 0 <==> Find(rules, id).None?
  {
    if rules == [] then -1
    else if rules[|rules| - 1].id == id then |rules| - 1
    else PlaceOf(rules[..|rules| - 1], id)
  }

  /** One entry of a layer: a tombstone removes, a known identifier is replaced in place, a new one is appended. */
  function MergeOne(rules: seq<Rule>, o: Override): seq<Rule> {
    var k := PlaceOf(rules, IdOf(o));
    if o.Tombstone? then (if k < 0 then rules else rules[..k] + rules[k + 1..])
    else if k < 0 then rules + [o.rule]
    else rules[k := o.rule]
  }

  function Merged(base: seq<Rule>, overrides: seq<Override>): seq<Rule> {
    if overrides == [] then base
    else MergeOne(Merged(base, overrides[..|overrides| - 1]), overrides[|overrides| - 1])
  }

  lemma {:induction false} MergeOneFinds(rules: seq<Rule>, o: Override, id: nat)
    requires UniqueIds(rules)
    ensures UniqueIds(MergeOne(rules, o))
    ensures Find(MergeOne(rules, o), id) == if id != IdOf(o) then Find(rules, id) else if o.Tombstone? then None else Some(o.rule)
  {
    var k := PlaceOf(rules, IdOf(o));
    if k < 0 {
      if o.Replace? {
        FindAppended(rules, o.rule, id);
      }
    } else if o.Tombstone? {
      FindRemoved(rules, k, id);
    } else {
      FindReplaced(rules, k, o.rule, id);
    }
  }

  /** After a layer, identifiers are unique and each has its last writer's rule, or none after a tombstone. */
  lemma {:induction false} LastWriterWins(base: seq<Rule>, overrides: seq<Override>, id: nat)
    requires UniqueIds(base)
    ensures UniqueIds(Merged(base, overrides)) && Find(Merged(base, overrides), id) == Survivor(base, overrides, id)
  {
    if overrides != [] {
      var front, last := overrides[..|overrides| - 1], overrides[|overrides| - 1];
      var before := Merged(base, front);
      LastWriterWins(base, front, id);
      MergeOneFinds(before, last, id);
      assert Merged(base, overrides) == MergeOne(before, last);
      assert LastWriter(overrides, id) == if IdOf(last) == id then Some(last) else LastWriter(front, id);
    }
  }

  /** Merging layer after layer. */
  function MergedAll(base: seq<Rule>, layers: seq<seq<Override>>): seq<Rule> {
    if layers == [] then base else Merged(MergedAll(base, layers[..|layers| - 1]), layers[|layers| - 1])
  }

  /** What the last layer that mentions an identifier says last of it. */
  function LastLayer(layers: seq<seq<Override>>, id: nat): Option<Override> {
    if layers == [] then None
    else
      var last := LastWriter(layers[|layers| - 1], id);
      if last.Some? then last else LastLayer(layers[..|layers| - 1], id)
  }

  function Concatenated(layers: seq<seq<Override>>): seq<Override> {
    if layers == [] then [] else Concatenated(layers[..|layers| - 1]) + layers[|layers| - 1]
  }

  /** Merging two layers one after the other is merging their entries as one layer. */
  lemma {:induction false} MergedMore(base: seq<Rule>, a: seq<Override>, b: seq<Override>)
    ensures Merged(Merged(base, a), b) == Merged(base, a + b)
    decreases |b|
  {
    if b == [] {
      assert a + b == a;
    } else {
      assert (a + b)[..|a + b| - 1] == a + b[..|b| - 1];
      MergedMore(base, a, b[..|b| - 1]);
    }
  }

  lemma {:induction false} LastWriterMore(a: seq<Override>, b: seq<Override>, id: nat)
    ensures LastWriter(a + b, id) == if LastWriter(b, id).Some? then LastWriter(b, id) else LastWriter(a, id)
    decreases |b|
  {
    if b == [] {
      assert a + b == a;
    } else {
      assert (a + b)[..|a + b| - 1] == a + b[..|b| - 1];
      LastWriterMore(a, b[..|b| - 1], id);
    }
  }

  /**
   Over all layers: identifiers are unique, and each has the rule the last layer that mentions it
   wrote last, none after a tombstone, or its first rule where no layer mentions it. Where the
   layers are cut does not matter.
   */
  lemma {:induction false} LastLayerWins(base: seq<Rule>, layers: seq<seq<Override>>, id: nat)
    requires UniqueIds(base)
    ensures MergedAll(base, layers) == Merged(base, Concatenated(layers)) && UniqueIds(MergedAll(base, layers))
    ensures Find(MergedAll(base, layers), id) ==
            match LastLayer(layers, id) {
              case None => Find(base, id)
              case Some(Tombstone(_)) => None
              case Some(Replace(rule)) => Some(rule)
            }
  {
    LayersAreOne(base, layers, id);
    LastWriterWins(base, Concatenated(layers), id);
  }

  lemma {:induction false} LayersAreOne(base: seq<Rule>, layers: seq<seq<Override>>, id: nat)
    ensures MergedAll(base, layers) == Merged(base, Concatenated(layers))
    ensures LastLayer(layers, id) == LastWriter(Concatenated(layers), id)
  {
    if layers != [] {
      var front, last := layers[..|layers| - 1], layers[|layers| - 1];
      LayersAreOne(base, front, id);
      MergedMore(base, Concatenated(front), last);
      LastWriterMore(Concatenated(front), last, id);
    }
  }

  /** Merges the selector rules of a layer, with an index that is rebuilt after a removal. */
  method MergeSelectorRules(base: seq<Rule>, overrides: seq<Override>) returns (result: seq<Rule>)
    requires UniqueIds(base)
    ensures result == Merged(base, overrides)
  {
    result := base;
    var indexes: map<nat, nat> := IndexAll(base);
    for i := 0 to |overrides|
      invariant result == Merged(base, overrides[..i]) && UniqueIds(result) && Indexes(result, indexes)
    {
      assert overrides[..i + 1][..i] == overrides[..i];
      result, indexes := MergeSelector(result, indexes, overrides[i]);
    }
    assert overrides[..|overrides|] == overrides;
  }

  lemma {:induction false} PlaceIndexed(rules: seq<Rule>, indexes: map<nat, nat>, id: nat)
    requires UniqueIds(rules) && Indexes(rules, indexes)
    ensures PlaceOf(rules, id) == if id in indexes then indexes[id] else -1
  {
    FindIs(rules, id);
  }

  lemma {:induction false} IndexAppended(rules: seq<Rule>, indexes: map<nat, nat>, rule: Rule)
    requires Indexes(rules, indexes) && rule.id !in indexes
    ensures Indexes(rules + [rule], indexes[rule.id := |rules|])
  {
  }

  lemma {:induction false} IndexReplaced(rules: seq<Rule>, indexes: map<nat, nat>, rule: Rule)
    requires Indexes(rules, indexes) && rule.id in indexes
    ensures Indexes(rules[indexes[rule.id] := rule], indexes)
  {
  }

  method MergeSelector(rules: seq<Rule>, known: map<nat, nat>, o: Override) returns (result: seq<Rule>, indexes: map<nat, nat>)
    requires UniqueIds(rules) && Indexes(rules, known)
    ensures result == MergeOne(rules, o) && UniqueIds(result) && Indexes(result, indexes)
  {
    result, indexes := rules, known;
    var id := IdOf(o);
    PlaceIndexed(rules, known, id);
    MergeOneFinds(rules, o, id);
    if o.Tombstone? {
      if id in indexes {
        var k := indexes[id];
        result := rules[..k] + rules[k + 1..];
        indexes := IndexAll(result);
      }
    } else if id in indexes {
      IndexReplaced(rules, known, o.rule);
      result := rules[indexes[id] := o.rule];
    } else {
      IndexAppended(rules, known, o.rule);
      indexes := indexes[id := |rules|];
      result := rules + [o.rule];
    }
  }

  // ----- Guard rules -----

  /** Two layers never give one guard two bodies. */
  predicate GuardsAgree(base: seq<Rule>, overrides: seq<Rule>) {
    forall a, b :: a in base + overrides && b in overrides && a.id == b.id ==> a == b
  }

  /** A rule list with the new rules of a layer after it, in their order. */
  function WithNew(base: seq<Rule>, overrides: seq<Rule>): seq<Rule> {
    if overrides == [] then base
    else
      var front, last := WithNew(base, overrides[..|overrides| - 1]), overrides[|overrides| - 1];
      if PlaceOf(front, last.id) < 0 then front + [last] else front
  }

  lemma {:induction false} WithNewKeeps(base: seq<Rule>, overrides: seq<Rule>)
    requires UniqueIds(base)
    ensures base <= WithNew(base, overrides) && UniqueIds(WithNew(base, overrides))
    ensures forall x :: x in WithNew(base, overrides) ==> x in base || x in overrides
  {
    if overrides != [] {
      var front, last := overrides[..|overrides| - 1], overrides[|overrides| - 1];
      WithNewKeeps(base, front);
      assert overrides == front + [last];
      if PlaceOf(WithNew(base, front), last.id) < 0 {
        FindAppended(WithNew(base, front), last, last.id);
      }
    }
  }

  lemma {:induction false} TogetherMeansAgree(base: seq<Rule>, overrides: seq<Rule>, result: seq<Rule>)
    requires UniqueIds(result) && (forall x :: x in base || x in overrides ==> x in result)
    ensures GuardsAgree(base, overrides)
  {
    forall a, b | a in base + overrides && b in overrides && a.id == b.id
      ensures a == b
    {
      FindIs(result, a.id);
      var i :| 0 <= i < |result| && result[i] == a;
      var j :| 0 <= j < |result| && result[j] == b;
    }
  }

  /** Adds one guard, unless it is there; a different one of the same identifier is refused. */
  method AddGuard(rules: seq<Rule>, known: map<nat, nat>, rule: Rule) returns (ok: bool, result: seq<Rule>, indexes: map<nat, nat>)
    requires UniqueIds(rules) && Indexes(rules, known)
    ensures !ok <==> exists other :: other in rules && other.id == rule.id && other != rule
    ensures result == if PlaceOf(rules, rule.id) < 0 then rules + [rule] else rules
    ensures Indexes(result, indexes) && (ok ==> rule in result)
  {
    result, indexes := rules, known;
    PlaceIndexed(rules, known, rule.id);
    FindIs(rules, rule.id);
    if rule.id !in known {
      IndexAppended(rules, known, rule);
      indexes := known[rule.id := |rules|];
      result := rules + [rule];
      assert result[|rules|] == rule;
      return true, result, indexes;
    }
    assert rules[known[rule.id]] in rules;
    ok := rules[known[rule.id]] == rule;
  }

  /**
   Merges the guard rules of a layer: what is there stays as an unchanged prefix, new rules are
   added in order, and a layer that would change one is refused.
   */
  method MergeGuardRules(base: seq<Rule>, overrides: seq<Rule>) returns (r: Option<seq<Rule>>)
    requires UniqueIds(base)
    ensures r.Some? <==> GuardsAgree(base, overrides)
    ensures r.Some? ==> r.value == WithNew(base, overrides) && base <= r.value && UniqueIds(r.value)
    ensures r.Some? ==> forall x :: x in r.value <==> x in base || x in overrides
  {
    var result := base;
    var indexes: map<nat, nat> := IndexAll(base);
    for k := 0 to |overrides|
      invariant result == WithNew(base, overrides[..k]) && Indexes(result, indexes)
      invariant forall b :: b in overrides[..k] ==> b in result
    {
      var rule := overrides[k];
      WithNewKeeps(base, overrides[..k]);
      assert overrides[..k + 1] == overrides[..k] + [rule] && overrides[..k + 1][..k] == overrides[..k];
      ghost var before := result;
      var ok;
      ok, result, indexes := AddGuard(result, indexes, rule);
      if !ok {
        ghost var other :| other in before && other.id == rule.id && other != rule;
        assert other in base + overrides && rule in overrides;
        return None;
      }
    }
    assert overrides[..|overrides|] == overrides;
    WithNewKeeps(base, overrides);
    TogetherMeansAgree(base, overrides, result);
    return Some(result);
  }

  // ----- When two selectors can both apply -----

  datatype ClassName = Role | TaskClass | Complexity | Risk | FailureCategory | RecoveryAction | HealthState

  datatype RangeName = ContextTokens | OutputTokens | RetryLevel

  datatype Range = Range(low: nat, high: nat)

  /** A condition: accepted values, required capabilities, and ranges; whatever is absent accepts all. */
  datatype When = When(values: map<ClassName, set<nat>>, capabilities: set<nat>, ranges: map<RangeName, Range>)

  predicate ValidWhen(w: When) {
    (forall n :: n in w.values ==> w.values[n] != {}) && (forall n :: n in w.ranges ==> w.ranges[n].low <= w.ranges[n].high)
  }

  /** What a request is matched by. */
  datatype Context = Context(value: ClassName -> nat, capabilities: set<nat>, number: RangeName -> nat)

  predicate Matches(w: When, c: Context) {
    && (forall n :: n in w.values ==> c.value(n) in w.values[n])
    && w.capabilities <= c.capabilities
    && (forall n :: n in w.ranges ==> w.ranges[n].low <= c.number(n) <= w.ranges[n].high)
  }

  function Max(a: nat, b: nat): nat {
    if a < b then b else a
  }

  function Min(a: nat, b: nat): nat {
    if a < b then a else b
  }

  /** The test the preset validation makes; required capabilities never keep two rules apart. */
  predicate Overlap(left: When, right: When) {
    && (forall n :: n in left.values && n in right.values ==> left.values[n] * right.values[n] != {})
    && (forall n :: n in left.ranges && n in right.ranges ==>
          Max(left.ranges[n].low, right.ranges[n].low) <= Min(left.ranges[n].high, right.ranges[n].high))
  }

  /** A value both conditions accept, if there is one. */
  ghost function CommonValue(left: When, right: When, n: ClassName): nat {
    var both :=
      if n in left.values && n in right.values then left.values[n] * right.values[n]
      else if n in left.values then left.values[n]
      else if n in right.values then right.values[n] else {0};
    if x :| x in both then x else 0
  }

  function CommonNumber(left: When, right: When, n: RangeName): nat {
    if n in left.ranges && n in right.ranges then Max(left.ranges[n].low, right.ranges[n].low)
    else if n in left.ranges then left.ranges[n].low
    else if n in right.ranges then right.ranges[n].low else 0
  }

  /** Two valid conditions overlap exactly when some request satisfies both. */
  lemma {:induction false} OverlapIff(left: When, right: When)
    requires ValidWhen(left) && ValidWhen(right)
    ensures Overlap(left, right) <==> exists c :: Matches(left, c) && Matches(right, c)
  {
    if Overlap(left, right) {
      var c := Context(n => CommonValue(left, right, n), left.capabilities + right.capabilities, n => CommonNumber(left, right, n));
      assert Matches(left, c) && Matches(right, c);
    }
    if c :| Matches(left, c) && Matches(right, c) {
      forall n | n in left.values && n in right.values
        ensures left.values[n] * right.values[n] != {}
      {
        assert c.value(n) in left.values[n] * right.values[n];
      }
    }
  }

  // ----- Source pointers -----

  function EscapeChar(c: char): string {
    if c == '~' then "~0" else if c == '/' then "~1" else [c]
  }

  function Escape(part: string): string {
    if part == [] then [] else EscapeChar(part[0]) + Escape(part[1..])
  }

  function Segments(path: seq<string>): string {
    if path == [] then [] else ['/'] + Escape(path[0]) + Segments(path[1..])
  }

  /** A pointer in the sense of section 3 of RFC 6901, except that the empty path is a lone slash. */
  function Pointer(path: seq<string>): string {
    if path == [] then "/" else Segments(path)
  }

  predicate NoSlash(s: string) {
    forall i :: 0 <= i < |s| ==> s[i] != '/'
  }

  predicate EmptyOrSlash(s: string) {
    s == [] || s[0] == '/'
  }

  lemma {:induction false} EscapeHasNoSlash(part: string)
    ensures NoSlash(Escape(part))
  {
    if part != [] {
      EscapeHasNoSlash(part[1..]);
    }
  }

  lemma {:induction false} EscapeInjective(a: string, b: string)
    requires Escape(a) == Escape(b)
    ensures a == b
  {
    if a != [] && b != [] {
      var x, y := EscapeChar(a[0]), EscapeChar(b[0]);
      assert Escape(a)[0] == x[0] && Escape(b)[0] == y[0];
      assert |x| == 2 ==> Escape(a)[1] == x[1];
      assert |y| == 2 ==> Escape(b)[1] == y[1];
      assert a[0] == b[0];
      assert Escape(a)[|x|..] == Escape(a[1..]) && Escape(b)[|x|..] == Escape(b[1..]);
      EscapeInjective(a[1..], b[1..]);
      assert a == [a[0]] + a[1..] && b == [b[0]] + b[1..];
    }
  }

  lemma {:induction false} SegmentEnds(x: string, u: string, y: string, v: string)
    requires x + u == y + v && NoSlash(x) && NoSlash(y) && EmptyOrSlash(u) && EmptyOrSlash(v)
    ensures x == y && u == v
  {
    assert |x| + |u| == |y| + |v|;
    assert u != [] ==> (y + v)[|x|] == '/';
    assert v != [] ==> (x + u)[|y|] == '/';
    assert |x| == |y|;
    assert x == (x + u)[..|x|] && y == (y + v)[..|x|];
    assert u == (x + u)[|x|..] && v == (y + v)[|x|..];
  }

  lemma {:induction false} SegmentsStart(path: seq<string>)
    ensures EmptyOrSlash(Segments(path)) && (path != [] ==> Segments(path) != [])
  {
  }

  /** Whether a key belongs to a subtree, as the code tests it on strings. */
  predicate InSubtree(key: string, root: string) {
    key == root || root + "/" <= key
  }

  lemma {:induction false} SegmentsPrefix(p: seq<string>, q: seq<string>)
    requires q <= p
    ensures InSubtree(Segments(p), Segments(q))
  {
    if q == [] {
      SegmentsStart(p);
    } else {
      assert q[0] == p[0] && q[1..] <= p[1..];
      SegmentsPrefix(p[1..], q[1..]);
      var head := ['/'] + Escape(p[0]);
      assert Segments(p) == head + Segments(p[1..]) && Segments(q) == head + Segments(q[1..]);
      if Segments(q[1..]) + "/" <= Segments(p[1..]) {
        assert Segments(q) + "/" == head + (Segments(q[1..]) + "/");
      }
    }
  }

  /** A pointer in a subtree starts with the same part, and goes on inside the subtree. */
  lemma {:induction false} HeadsMatch(a: string, u: string, b: string, v: string)
    requires NoSlash(a) && NoSlash(b) && EmptyOrSlash(u) && EmptyOrSlash(v)
    requires InSubtree(['/'] + b + v, ['/'] + a + u)
    ensures a == b && InSubtree(v, u)
  {
    var key, root := ['/'] + b + v, ['/'] + a + u;
    if key == root {
      assert key[1..] == b + v && root[1..] == a + u;
      SegmentEnds(a, u, b, v);
    } else {
      var w := key[|root| + 1..];
      assert key == root + "/" + w;
      assert key[1..] == b + v && (root + "/" + w)[1..] == a + (u + "/" + w);
      SegmentEnds(a, u + "/" + w, b, v);
      assert u + "/" <= v;
    }
  }

  lemma {:induction false} SubtreeIsPrefix(p: seq<string>, q: seq<string>)
    requires InSubtree(Segments(p), Segments(q))
    ensures q <= p
  {
    SegmentsStart(q);
    if q != [] {
      assert p != [];
      EscapeHasNoSlash(q[0]);
      EscapeHasNoSlash(p[0]);
      SegmentsStart(p[1..]);
      SegmentsStart(q[1..]);
      HeadsMatch(Escape(q[0]), Segments(q[1..]), Escape(p[0]), Segments(p[1..]));
      EscapeInjective(q[0], p[0]);
      SubtreeIsPrefix(p[1..], q[1..]);
      assert q == [q[0]] + q[1..] && p == [p[0]] + p[1..];
    }
  }

  /** The string test on pointers is the prefix test on paths; in particular pointers are injective. */
  lemma {:induction false} SubtreeIff(p: seq<string>, q: seq<string>)
    requires p != [] && q != []
    ensures InSubtree(Pointer(p), Pointer(q)) <==> q <= p
  {
    if q <= p {
      SegmentsPrefix(p, q);
    }
    if InSubtree(Pointer(p), Pointer(q)) {
      SubtreeIsPrefix(p, q);
    }
  }

  /** Forgets the sources of a subtree, key by key. */
  method DropSourceSubtree(sources: map<string, seq<nat>>, path: seq<string>) returns (left: map<string, seq<nat>>)
    ensures left == map k | k in sources && !InSubtree(k, Pointer(path)) :: sources[k]
  {
    left := sources;
    var rest := sources.Keys;
    while rest != {}
      invariant rest <= sources.Keys
      invariant left == map k | k in sources && (k in rest || !InSubtree(k, Pointer(path))) :: sources[k]
    {
      var k :| k in rest;
      if InSubtree(k, Pointer(path)) {
        left := left - {k};
      }
      rest := rest - {k};
    }
  }

  /** Dropping a subtree keeps exactly the sources of the paths outside it. */
  lemma {:induction false} DropKeepsOutside(sources: map<string, seq<nat>>, path: seq<string>, p: seq<string>)
    requires p != [] && path != [] && Pointer(p) in sources
    ensures var left := map k | k in sources && !InSubtree(k, Pointer(path)) :: sources[k];
            Pointer(p) in left <==> !(path <= p)
  {
    SubtreeIff(p, path);
  }
}

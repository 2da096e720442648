/** Append-only graph validation by a memoised depth-first walk. */
module Graph {
  import opened Common

  type Id = nat

  type Positive = n: nat | n >= 1 witness 1

  /** The frozen snapshot a planned node was contracted against. */
  datatype Contract = Contract(run: nat, config: nat, registry: nat, policy: nat)

  datatype NodeSpec = NodeSpec(id: Id, dependsOn: seq<Id>, maxAttempts: Positive, contract: Option<Contract>, details: nat)

  type Nodes = map<Id, NodeSpec>

  datatype GraphFailure = Empty | Duplicate | TooMany | Missing | SelfDependency | Cyclic | TooDeep | UnknownNode

  // ----- Chains of dependencies -----

  ghost predicate Chain(g: Nodes, s: seq<Id>) {
    && |s| > 0
    && (forall i :: 0 <= i < |s| ==> s[i] in g)
    && (forall i :: 0 < i < |s| ==> s[i] in g[s[i - 1]].dependsOn)
  }

  ghost predicate DependencyClosed(g: Nodes) {
    forall n, d :: n in g && d in g[n].dependsOn ==> d in g
  }

  ghost predicate Acyclic(g: Nodes) {
    forall s :: Chain(g, s) && |s| > 1 ==> s[0] != s[|s| - 1]
  }

  /** No chain has more than this many edges. */
  ghost predicate Shallow(g: Nodes, depth: nat) {
    forall s :: Chain(g, s) ==> |s| <= depth + 1
  }

  /** The longest chain that starts at the node has this many edges. */
  ghost predicate HasDepth(g: Nodes, n: Id, depth: nat) {
    && (exists s :: Chain(g, s) && s[0] == n && |s| == depth + 1)
    && (forall s :: Chain(g, s) && s[0] == n ==> |s| <= depth + 1)
  }

  lemma {:induction false} Prepend(g: Nodes, n: Id, s: seq<Id>)
    requires Chain(g, s) && n in g && s[0] in g[n].dependsOn
    ensures Chain(g, [n] + s)
  {
    var c := [n] + s;
    forall i | 0 < i < |c|
      ensures c[i] in g[c[i - 1]].dependsOn
    {
      assert c[i] == s[i - 1];
      assert i > 1 ==> c[i - 1] == s[i - 2];
    }
  }

  lemma {:induction false} Extend(g: Nodes, s: seq<Id>, n: Id)
    requires s != [] ==> Chain(g, s) && n in g[s[|s| - 1]].dependsOn
    requires n in g
    ensures Chain(g, s + [n])
  {
    var c := s + [n];
    forall i | 0 < i < |c|
      ensures c[i] in g[c[i - 1]].dependsOn
    {
      if i < |s| {
        assert s[i] in g[s[i - 1]].dependsOn;
      }
    }
  }

  /** Each known depth is one more than the deepest dependency, all of which are known. */
  ghost predicate Consistent(g: Nodes, depths: map<Id, nat>) {
    forall n :: n in depths ==> Justified(g, depths, n)
  }

  ghost predicate Justified(g: Nodes, depths: map<Id, nat>, n: Id)
    requires n in depths
  {
    && n in g
    && (forall d :: d in g[n].dependsOn ==> d in depths && depths[d] < depths[n])
    && (depths[n] > 0 ==> exists d :: d in g[n].dependsOn && d in depths && depths[d] + 1 == depths[n])
  }

  /** A depth one above the deepest of the first dependencies. */
  ghost predicate JustAbove(depths: map<Id, nat>, parents: seq<Id>, k: nat, depth: nat)
    requires k <= |parents|
  {
    && (forall j :: 0 <= j < k ==> parents[j] in depths && depths[parents[j]] < depth)
    && (depth > 0 ==> exists j :: 0 <= j < k && depths[parents[j]] + 1 == depth)
  }

  /** Learning more depths keeps it, and one more dependency may raise it. */
  lemma {:induction false} StillAbove(before: map<Id, nat>, depths: map<Id, nat>, parents: seq<Id>, k: nat, depth: nat)
    requires k < |parents| && JustAbove(before, parents, k, depth) && parents[k] in depths
    requires forall n :: n in before ==> n in depths && depths[n] == before[n]
    ensures JustAbove(depths, parents, k + 1, if depths[parents[k]] + 1 > depth then depths[parents[k]] + 1 else depth)
  {
    if depth > 0 {
      var j :| 0 <= j < k && before[parents[j]] + 1 == depth;
      assert depths[parents[j]] + 1 == depth;
    }
  }

  lemma {:induction false} Learn(g: Nodes, depths: map<Id, nat>, n: Id, depth: nat)
    requires Consistent(g, depths) && n in g && n !in depths
    requires JustAbove(depths, g[n].dependsOn, |g[n].dependsOn|, depth)
    ensures Consistent(g, depths[n := depth])
  {
    var learnt := depths[n := depth];
    forall d | d in g[n].dependsOn
      ensures d in depths && depths[d] < depth
    {
      var j :| 0 <= j < |g[n].dependsOn| && g[n].dependsOn[j] == d;
      assert g[n].dependsOn[j] in depths;
    }
    forall m | m in learnt
      ensures Justified(g, learnt, m)
    {
      if m != n {
        assert Justified(g, depths, m);
      } else if depth > 0 {
        var j :| 0 <= j < |g[n].dependsOn| && depths[g[n].dependsOn[j]] + 1 == depth;
        assert g[n].dependsOn[j] in g[n].dependsOn;
      }
    }
  }

  lemma {:induction false} Descends(g: Nodes, depths: map<Id, nat>, s: seq<Id>, i: nat)
    requires Consistent(g, depths) && Chain(g, s) && s[0] in depths && i < |s|
    ensures s[i] in depths && depths[s[i]] + i <= depths[s[0]]
  {
    if i > 0 {
      Descends(g, depths, s, i - 1);
      assert Justified(g, depths, s[i - 1]);
    }
  }

  lemma {:induction false} DepthReached(g: Nodes, depths: map<Id, nat>, n: Id) returns (s: seq<Id>)
    requires Consistent(g, depths) && n in depths
    ensures Chain(g, s) && s[0] == n && |s| == depths[n] + 1
    decreases depths[n]
  {
    assert Justified(g, depths, n);
    s := [n];
    if depths[n] > 0 {
      var d :| d in g[n].dependsOn && d in depths && depths[d] + 1 == depths[n];
      var rest := DepthReached(g, depths, d);
      Prepend(g, n, rest);
      s := [n] + rest;
    }
  }

  /** What the memo records is the length of the longest chain. */
  lemma {:induction false} MemoIsLongest(g: Nodes, depths: map<Id, nat>, n: Id)
    requires Consistent(g, depths) && n in depths
    ensures HasDepth(g, n, depths[n])
  {
    var _ := DepthReached(g, depths, n);
    forall s | Chain(g, s) && s[0] == n
      ensures |s| <= depths[n] + 1
    {
      Descends(g, depths, s, |s| - 1);
    }
  }

  lemma {:induction false} FullMemo(g: Nodes, depths: map<Id, nat>, limit: nat)
    requires Consistent(g, depths) && depths.Keys == g.Keys
    requires forall n :: n in depths ==> depths[n] <= limit
    ensures DependencyClosed(g) && Acyclic(g) && Shallow(g, limit)
  {
    forall n, d | n in g && d in g[n].dependsOn
      ensures d in g
    {
      assert Justified(g, depths, n);
    }
    forall s | Chain(g, s)
      ensures |s| <= limit + 1 && (|s| > 1 ==> s[0] != s[|s| - 1])
    {
      Descends(g, depths, s, |s| - 1);
    }
  }

  /** Appending nodes never changes the depth of an existing one. */
  lemma {:induction false} AppendKeepsDepths(g: Nodes, more: Nodes, n: Id, depth: nat)
    requires DependencyClosed(g) && n in g && g.Keys !! more.Keys
    ensures HasDepth(g, n, depth) <==> HasDepth(g + more, n, depth)
  {
    var all := g + more;
    forall s: seq<Id> | s != [] && s[0] == n
      ensures Chain(g, s) <==> Chain(all, s)
    {
      if Chain(all, s) {
        for i := 0 to |s|
          invariant forall j :: 0 <= j < i ==> s[j] in g
        {
          assert i > 0 ==> s[i] in all[s[i - 1]].dependsOn;
        }
      }
    }
    if HasDepth(g, n, depth) {
      var s :| Chain(g, s) && s[0] == n && |s| == depth + 1;
      assert Chain(all, s);
    }
    if HasDepth(all, n, depth) {
      var s :| Chain(all, s) && s[0] == n && |s| == depth + 1;
      assert Chain(g, s);
    }
  }

  /** Among any nodes of a shallow graph, one depends on none of them. */
  lemma {:induction false} Minimal(g: Nodes, limit: nat, among: set<Id>, s: seq<Id>) returns (n: Id)
    requires Shallow(g, limit) && among <= g.Keys
    requires Chain(g, s) && s[|s| - 1] in among
    ensures n in among && forall d :: d in g[n].dependsOn ==> d !in among
    decreases limit + 1 - |s|
  {
    n := s[|s| - 1];
    if d :| d in g[n].dependsOn && d in among {
      var longer := s + [d];
      Extend(g, s, d);
      n := Minimal(g, limit, among, longer);
    }
  }

  // ----- Appending -----

  function Dict(specs: seq<NodeSpec>): Nodes {
    if specs == [] then map[] else Dict(specs[..|specs| - 1])[specs[|specs| - 1].id := specs[|specs| - 1]]
  }

  predicate UniqueIds(specs: seq<NodeSpec>) {
    forall i, j :: 0 <= i < j < |specs| ==> specs[i].id != specs[j].id
  }

  predicate Canonical(specs: seq<NodeSpec>) {
    forall i, j :: 0 <= i < j < |specs| ==> specs[i].id <= specs[j].id
  }

  lemma {:induction false} DictKeys(specs: seq<NodeSpec>, n: Id)
    ensures n in Dict(specs) <==> exists i :: 0 <= i < |specs| && specs[i].id == n
  {
    if specs != [] {
      var front, last := specs[..|specs| - 1], specs[|specs| - 1];
      DictKeys(front, n);
      if n in Dict(front) {
        var i :| 0 <= i < |front| && front[i].id == n;
        assert specs[i].id == n;
      }
      if i :| 0 <= i < |specs| && specs[i].id == n {
        assert i < |front| ==> front[i].id == n;
      }
    }
  }

  lemma {:induction false} DictEntry(specs: seq<NodeSpec>, n: Id)
    requires n in Dict(specs)
    ensures Dict(specs)[n].id == n && Dict(specs)[n] in specs
  {
    var front, last := specs[..|specs| - 1], specs[|specs| - 1];
    if n != last.id {
      DictEntry(front, n);
      assert specs == front + [last];
    }
  }

  lemma {:induction false} DictHas(specs: seq<NodeSpec>)
    ensures forall n :: n in Dict(specs) <==> exists i :: 0 <= i < |specs| && specs[i].id == n
    ensures forall n :: n in Dict(specs) ==> Dict(specs)[n].id == n && Dict(specs)[n] in specs
    ensures UniqueIds(specs) ==> forall i :: 0 <= i < |specs| ==> Dict(specs)[specs[i].id] == specs[i]
  {
    forall n
      ensures n in Dict(specs) <==> exists i :: 0 <= i < |specs| && specs[i].id == n
      ensures n in Dict(specs) ==> Dict(specs)[n].id == n && Dict(specs)[n] in specs
    {
      DictKeys(specs, n);
      if n in Dict(specs) {
        DictEntry(specs, n);
      }
    }
    if UniqueIds(specs) {
      forall i | 0 <= i < |specs|
        ensures Dict(specs)[specs[i].id] == specs[i]
      {
        var j :| 0 <= j < |specs| && specs[j] == Dict(specs)[specs[i].id];
        assert i == j;
      }
    }
  }

  /** A graph within its frozen limits. */
  ghost predicate Envelope(g: Nodes, maxNodes: int, maxDepth: nat) {
    |g| <= maxNodes && DependencyClosed(g) && Acyclic(g) && Shallow(g, maxDepth)
  }

  /** The graph append the frozen envelope allows. */
  ghost predicate Allowed(current: Nodes, additions: seq<NodeSpec>, maxNodes: int, maxDepth: nat) {
    && additions != [] && UniqueIds(additions) && current.Keys !! Dict(additions).Keys
    && Envelope(current + Dict(additions), maxNodes, maxDepth)
  }

  function InsertSpec(x: NodeSpec, specs: seq<NodeSpec>): seq<NodeSpec> {
    if specs == [] || x.id <= specs[0].id then [x] + specs else [specs[0]] + InsertSpec(x, specs[1..])
  }

  function SortedSpecs(specs: seq<NodeSpec>): seq<NodeSpec> {
    if specs == [] then [] else InsertSpec(specs[0], SortedSpecs(specs[1..]))
  }

  lemma {:induction false} InsertSpecMembers(x: NodeSpec, specs: seq<NodeSpec>)
    ensures forall y :: y in InsertSpec(x, specs) <==> y == x || y in specs
    ensures multiset(InsertSpec(x, specs)) == multiset(specs) + multiset{x}
  {
    if specs != [] {
      InsertSpecMembers(x, specs[1..]);
      assert specs == [specs[0]] + specs[1..];
    }
  }

  lemma {:induction false} InsertSpecKeeps(x: NodeSpec, specs: seq<NodeSpec>)
    requires Canonical(specs)
    ensures Canonical(InsertSpec(x, specs))
  {
    if specs != [] && x.id > specs[0].id {
      var rest := InsertSpec(x, specs[1..]);
      InsertSpecKeeps(x, specs[1..]);
      InsertSpecMembers(x, specs[1..]);
      forall i | 0 <= i < |rest|
        ensures specs[0].id <= rest[i].id
      {
        assert rest[i] in rest;
      }
    }
  }

  /** The order a validated append is returned in: by identifier, nothing lost. */
  lemma {:induction false} SortedSpecsCanonical(specs: seq<NodeSpec>)
    ensures Canonical(SortedSpecs(specs)) && multiset(SortedSpecs(specs)) == multiset(specs)
  {
    if specs != [] {
      SortedSpecsCanonical(specs[1..]);
      InsertSpecKeeps(specs[0], SortedSpecs(specs[1..]));
      InsertSpecMembers(specs[0], SortedSpecs(specs[1..]));
      assert specs == [specs[0]] + specs[1..];
    }
  }

  /** Sorting what is already in order changes nothing, so a canonical append comes back as it is. */
  lemma {:induction false} CanonicalIsSorted(specs: seq<NodeSpec>)
    ensures Canonical(specs) ==> SortedSpecs(specs) == specs
  {
    if specs != [] {
      CanonicalIsSorted(specs[1..]);
      if Canonical(specs) {
        assert specs == [specs[0]] + specs[1..];
        assert specs[1..] != [] ==> specs[0].id <= specs[1].id;
      }
    }
  }

  /** The state of one walk: the memo and the nodes on the current path. */
  class Walk {
    const nodes: Nodes
    const maxDepth: nat
    var depths: map<Id, nat>
    var visiting: set<Id>

    ghost predicate Valid()
      reads this
    {
      && Consistent(nodes, depths) && visiting !! depths.Keys
      && forall n :: n in depths ==> depths[n] <= maxDepth
    }

    /** Some chain starts at the first visited node and leads to this one. */
    ghost predicate LeadsTo(path: seq<Id>, n: Id)
      reads this
    {
      && visiting == (set k | k in path)
      && (path == [] || (Chain(nodes, path) && n in nodes[path[|path| - 1]].dependsOn))
    }

    ghost predicate Extends(known: map<Id, nat>)
      reads this
    {
      forall n :: n in known ==> n in depths && depths[n] == known[n]
    }

    constructor (nodes: Nodes, maxDepth: nat)
      ensures this.nodes == nodes && this.maxDepth == maxDepth
      ensures depths == map[] && visiting == {} && Valid()
    {
      this.nodes, this.maxDepth := nodes, maxDepth;
      depths, visiting := map[], {};
    }

    lemma {:induction false} CycleFound(path: seq<Id>, n: Id)
      requires LeadsTo(path, n) && n in visiting
      ensures !Acyclic(nodes)
    {
      var i :| 0 <= i < |path| && path[i] == n;
      var cycle := path[i..] + [n];
      forall j | 0 < j < |cycle|
        ensures cycle[j] in nodes[cycle[j - 1]].dependsOn
      {
        if j < |path| - i {
          assert cycle[j] == path[i + j] && cycle[j - 1] == path[i + j - 1];
        }
      }
      assert Chain(nodes, cycle);
    }

    /** The depth of a node, or what is wrong with the graph; the nodes on the path bound the recursion. */
    method Visit(n: Id, ghost path: seq<Id>) returns (r: Result<nat, GraphFailure>)
      requires Valid() && LeadsTo(path, n) && (path == [] ==> n in nodes)
      modifies this
      ensures r.Ok? ==> Valid() && visiting == old(visiting) && Extends(old(depths))
      ensures r.Ok? ==> n in depths && depths[n] == r.value
      ensures r.Err? ==> FailureIsReal(r.error)
      decreases nodes.Keys - visiting, 0
    {
      if n in visiting {
        CycleFound(path, n);
        return Err(Cyclic);
      }
      if n in depths {
        return Ok(depths[n]);
      }
      visiting := visiting + {n};
      if n !in nodes {
        return Err(UnknownNode);
      }
      Extend(nodes, path, n);
      r := OneMoreThanDeepest(n, path + [n]);
      if r.Err? {
        return;
      }
      visiting := visiting - {n};
      Learn(nodes, depths, n, r.value);
      if r.value > maxDepth {
        var _ := DepthReached(nodes, depths[n := r.value], n);
        return Err(TooDeep);
      }
      depths := depths[n := r.value];
    }

    ghost predicate FailureIsReal(failure: GraphFailure)
      reads this
    {
      match failure
      case Cyclic => !Acyclic(nodes)
      case TooDeep => !Shallow(nodes, maxDepth)
      case UnknownNode => !DependencyClosed(nodes)
      case _ => false
    }

    method OneMoreThanDeepest(n: Id, ghost path: seq<Id>) returns (r: Result<nat, GraphFailure>)
      requires Valid() && Chain(nodes, path) && path[|path| - 1] == n && visiting == (set k | k in path)
      modifies this
      ensures r.Ok? ==> Valid() && visiting == old(visiting) && Extends(old(depths))
      ensures r.Ok? ==> JustAbove(depths, nodes[n].dependsOn, |nodes[n].dependsOn|, r.value)
      ensures r.Err? ==> FailureIsReal(r.error)
      decreases nodes.Keys - visiting, 1
    {
      var depth: nat := 0;
      var parents := nodes[n].dependsOn;
      for k := 0 to |parents|
        invariant Valid() && visiting == old(visiting) && Extends(old(depths))
        invariant JustAbove(depths, parents, k, depth)
      {
        ghost var before := depths;
        r := Visit(parents[k], path);
        if r.Err? {
          return;
        }
        StillAbove(before, depths, parents, k, depth);
        depth := if r.value + 1 > depth then r.value + 1 else depth;
      }
      return Ok(depth);
    }
  }

  lemma {:induction false} Least(ids: set<Id>) returns (n: Id)
    requires ids != {}
    ensures n in ids && forall m :: m in ids ==> n <= m
  {
    var some :| some in ids;
    var rest := ids - {some};
    assert ids == rest + {some};
    n := some;
    if rest != {} {
      var least := Least(rest);
      n := if least < some then least else some;
    }
  }

  method CheckReferences(nodes: Nodes, additions: seq<NodeSpec>) returns (failure: Option<GraphFailure>)
    requires forall i :: 0 <= i < |additions| ==> additions[i].id in nodes && nodes[additions[i].id] == additions[i]
    ensures failure.None? ==> forall i, d :: 0 <= i < |additions| && d in additions[i].dependsOn ==> d in nodes
    ensures failure.Some? ==> !(DependencyClosed(nodes) && Acyclic(nodes))
    ensures failure.Some? ==> failure.value in {Missing, SelfDependency}
  {
    for k := 0 to |additions|
      invariant forall i, d :: 0 <= i < k && d in additions[i].dependsOn ==> d in nodes
    {
      var node := additions[k];
      if exists d :: d in node.dependsOn && d !in nodes {
        return Some(Missing);
      }
      if node.id in node.dependsOn {
        assert Chain(nodes, [node.id, node.id]);
        return Some(SelfDependency);
      }
    }
    return None;
  }

  /** Visits every node, in the order of identifiers; the memo ends up holding every longest path. */
  method WalkAll(nodes: Nodes, maxDepth: nat) returns (failure: Option<GraphFailure>, depths: map<Id, nat>)
    ensures failure.None? ==> depths.Keys == nodes.Keys && forall n :: n in nodes ==> HasDepth(nodes, n, depths[n])
    ensures failure.None? <==> DependencyClosed(nodes) && Acyclic(nodes) && Shallow(nodes, maxDepth)
    ensures failure == Some(Cyclic) ==> !Acyclic(nodes)
    ensures failure == Some(TooDeep) ==> !Shallow(nodes, maxDepth)
    ensures failure == Some(UnknownNode) ==> !DependencyClosed(nodes)
    ensures failure.Some? ==> failure.value in {Cyclic, TooDeep, UnknownNode}
  {
    var walk := new Walk(nodes, maxDepth);
    var rest := nodes.Keys;
    while rest != {}
      invariant walk.Valid() && walk.visiting == {} && rest <= nodes.Keys
      invariant nodes.Keys - rest <= walk.depths.Keys
    {
      ghost var least := Least(rest);
      var n :| n in rest && forall m :: m in rest ==> n <= m;
      assert walk.LeadsTo([], n);
      var visited := walk.Visit(n, []);
      if visited.Err? {
        return Some(visited.error), walk.depths;
      }
      rest := rest - {n};
    }
    assert walk.depths.Keys == nodes.Keys by {
      forall n | n in walk.depths
        ensures n in nodes
      {
        assert Justified(nodes, walk.depths, n);
      }
    }
    depths := walk.depths;
    FullMemo(nodes, depths, maxDepth);
    forall n | n in nodes
      ensures HasDepth(nodes, n, depths[n])
    {
      MemoIsLongest(nodes, depths, n);
    }
    failure := None;
  }

  /**
   Validates an append to a graph. It is accepted exactly when it is not empty, repeats no
   identifier, stays within the node limit, and the whole graph is closed under dependencies,
   acyclic and no deeper than its limit.
   */
  method ValidateGraphAppend(current: seq<NodeSpec>, additions: seq<NodeSpec>, maxNodes: int, maxDepth: nat)
    returns (r: Result<seq<NodeSpec>, GraphFailure>)
    ensures r.Ok? <==> Allowed(Dict(current), additions, maxNodes, maxDepth)
    ensures r.Ok? ==> r.value == SortedSpecs(additions)
    ensures r == Err(Cyclic) ==> !Acyclic(Dict(current) + Dict(additions))
    ensures r == Err(TooDeep) ==> !Shallow(Dict(current) + Dict(additions), maxDepth)
    ensures r == Err(UnknownNode) ==> !DependencyClosed(Dict(current))
  {
    if additions == [] {
      return Err(Empty);
    }
    var known, adding := Dict(current), Dict(additions);
    if !UniqueIds(additions) || !(known.Keys !! adding.Keys) {
      return Err(Duplicate);
    }
    Filed(known, additions);
    var nodes := known + adding;
    if |nodes| > maxNodes {
      return Err(TooMany);
    }
    var failure := CheckReferences(nodes, additions);
    if failure.Some? {
      return Err(failure.value);
    }
    var walked, _ := WalkAll(nodes, maxDepth);
    if walked.Some? {
      UnclosedFromCurrent(known, additions);
      return Err(walked.value);
    }
    return Ok(SortedSpecs(additions));
  }

  lemma {:induction false} Filed(known: Nodes, additions: seq<NodeSpec>)
    requires UniqueIds(additions)
    ensures forall i :: 0 <= i < |additions| ==>
                          additions[i].id in known + Dict(additions) && (known + Dict(additions))[additions[i].id] == additions[i]
  {
    DictHas(additions);
  }

  /** With every dependency of the additions known, an open graph was open before the append. */
  lemma {:induction false} UnclosedFromCurrent(known: Nodes, additions: seq<NodeSpec>)
    requires forall i, d :: 0 <= i < |additions| && d in additions[i].dependsOn ==> d in known + Dict(additions)
    ensures DependencyClosed(known) ==> DependencyClosed(known + Dict(additions))
  {
    DictHas(additions);
    var all := known + Dict(additions);
    if DependencyClosed(known) {
      forall n, d | n in all && d in all[n].dependsOn
        ensures d in all
      {
        if n in Dict(additions) {
          assert all[n] in additions;
        }
      }
    }
  }
}

/** Runs of the lifecycle controller from their first command: a Run resumes only once. */
module LifecycleRuns {
  import opened Common
  import opened Graph
  import opened Lifecycle
  import opened LifecycleController

  lemma {:induction false} IssuedMore(f: Frozen, events: seq<Event>, c: Command, version: nat, key: Key)
    ensures Issued(events + [EventOf(f, c, version)], key) <==> Issued(events, key) || KeyOf(c) == key
  {
    var e := EventOf(f, c, version);
    assert (events + [e])[|events|] == e;
    if Issued(events, key) {
      var i :| 0 <= i < |events| && events[i].key == key;
      assert (events + [e])[i].key == key;
    }
  }

  lemma {:induction false} PauseResult(f: Frozen, s: RunState, a: nat)
    requires s.status.Running?
    ensures Applied(f.run, Some(s), EventOf(f, Pause(a), s.version + 1)) == Some(s.(status := RunStatus.Paused, version := s.version + 1))
  {
  }

  lemma {:induction false} ResumeResult(f: Frozen, s: RunState)
    requires s.status.Paused? && Settled(s.(status := RunStatus.Running)).status.Running?
    ensures Applied(f.run, Some(s), EventOf(f, Resume, s.version + 1)) == Some(s.(status := RunStatus.Running, version := s.version + 1))
  {
  }

  /** Pausing a running Run for a new reason. */
  lemma {:induction false} Pauses(f: Frozen, events: seq<Event>, a: nat)
    requires f.nodeLimit >= 1 && Sound(f, events) && events != [] && Fold(f.run, events).value.status.Running?
    requires !Issued(events, KPause(a))
    ensures var after := events + [EventOf(f, Pause(a), |events| + 1)];
            && After(f, events, Pause(a)) == after && Sound(f, after)
            && Fold(f.run, after) == Some(Fold(f.run, events).value.(status := RunStatus.Paused, version := |events| + 1))
            && Settled(Fold(f.run, after).value.(status := RunStatus.Running)).status.Running?
  {
    var s := Fold(f.run, events).value;
    assert Guard(f, s, Pause(a)) && Decides(f, events, Pause(a));
    AfterSound(f, events, Pause(a));
    FoldMore(f.run, events, EventOf(f, Pause(a), |events| + 1));
    PauseResult(f, s, a);
    SettledAlike(s, |events| + 1);
  }

  /** Resuming a paused Run for the first time. */
  lemma {:induction false} Resumes(f: Frozen, events: seq<Event>)
    requires f.nodeLimit >= 1 && Sound(f, events) && events != [] && Fold(f.run, events).value.status.Paused?
    requires !Issued(events, KResume) && Settled(Fold(f.run, events).value.(status := RunStatus.Running)).status.Running?
    ensures var after := events + [EventOf(f, Resume, |events| + 1)];
            && After(f, events, Resume) == after && Sound(f, after)
            && Fold(f.run, after) == Some(Fold(f.run, events).value.(status := RunStatus.Running, version := |events| + 1))
  {
    var s := Fold(f.run, events).value;
    assert Guard(f, s, Resume) && Decides(f, events, Resume);
    AfterSound(f, events, Resume);
    FoldMore(f.run, events, EventOf(f, Resume, |events| + 1));
    ResumeResult(f, s);
  }

  lemma {:induction false} SettledAlike(s: RunState, version: nat)
    requires s.status.Running? && Settled(s).status.Running?
    ensures var t := s.(status := RunStatus.Paused, version := version); Settled(t.(status := RunStatus.Running)).status.Running?
  {
  }

  /** Paused, resumed and paused for another reason, a running Run stays paused: the second resume appends nothing. */
  lemma {:induction false} SecondResumeIsLost(f: Frozen, events: seq<Event>, paused: seq<Event>, resumed: seq<Event>, again: seq<Event>, a: nat, b: nat)
    requires f.nodeLimit >= 1 && Sound(f, events) && events != [] && Fold(f.run, events).value.status.Running?
    requires paused == events + [EventOf(f, Pause(a), |events| + 1)] && resumed == paused + [EventOf(f, Resume, |paused| + 1)]
    requires again == resumed + [EventOf(f, Pause(b), |resumed| + 1)]
    requires !Issued(events, KPause(a)) && !Issued(paused, KResume) && !Issued(resumed, KPause(b)) && Issued(again, KResume)
    ensures After(f, events, Pause(a)) == paused && After(f, paused, Resume) == resumed
    ensures Fold(f.run, resumed).Some? && Fold(f.run, resumed).value.status.Running?
    ensures After(f, resumed, Pause(b)) == again && After(f, again, Resume) == again
    ensures Fold(f.run, again).Some? && Fold(f.run, again).value.status.Paused?
  {
    Pauses(f, events, a);
    Resumes(f, paused);
    Pauses(f, resumed, b);
  }

  lemma {:induction false} TurnedKeys(f: Frozen, events: seq<Event>, paused: seq<Event>, resumed: seq<Event>, again: seq<Event>, a: nat, b: nat)
    requires paused == events + [EventOf(f, Pause(a), |events| + 1)] && resumed == paused + [EventOf(f, Resume, |paused| + 1)]
    requires again == resumed + [EventOf(f, Pause(b), |resumed| + 1)]
    requires !Issued(events, KPause(b)) && !Issued(events, KResume) && a != b
    ensures !Issued(paused, KResume) && !Issued(resumed, KPause(b)) && Issued(again, KResume)
  {
    IssuedMore(f, events, Pause(a), |events| + 1, KResume);
    IssuedMore(f, events, Pause(a), |events| + 1, KPause(b));
    IssuedMore(f, paused, Resume, |paused| + 1, KPause(b));
    IssuedMore(f, paused, Resume, |paused| + 1, KResume);
    IssuedMore(f, resumed, Pause(b), |resumed| + 1, KResume);
  }

  lemma {:induction false} ChainStep(g: Nodes, s: seq<Id>, i: nat)
    requires Chain(g, s) && 0 < i < |s|
    ensures s[i - 1] in g && g[s[i - 1]].dependsOn != []
  {
    assert s[i] in g[s[i - 1]].dependsOn;
  }

  lemma {:induction false} OneNodeAllowed(x: NodeSpec, maxNodes: int, maxDepth: nat)
    requires x.dependsOn == [] && maxNodes >= 1
    ensures Allowed(map[], [x], maxNodes, maxDepth) && Dict([x]) == map[x.id := x]
  {
    assert [x][..0] == [];
    var g: Nodes := map[x.id := x];
    assert Dict([x]) == g && map[] + g == g && |g| == |g.Keys| == 1;
    forall s | Chain(g, s)
      ensures |s| <= 1
    {
      if |s| > 1 {
        ChainStep(g, s, 1);
        assert false;
      }
    }
  }

  function OneNode(x: NodeSpec): map<Id, Node> {
    map[x.id := Node(x, NodeStatus.Ready, [])]
  }

  lemma {:induction false} OneNodeAppended(f: Frozen, x: NodeSpec, key: nat, s: RunState)
    requires f.nodeLimit >= 1 && x.dependsOn == [] && x.contract.None?
    requires s.status.Created? && s.nodes == map[] && s.graphVersion == 0 && s.policy.None?
    requires s.maxNodes == f.nodeLimit && s.maxDepth == f.depthLimit
    ensures Guard(f, s, AppendNodes([x], 0, key, None))
    ensures Append(f.run, s, BodyOf(f, AppendNodes([x], 0, key, None))) == Some(s.(graphVersion := 1, nodes := OneNode(x)))
  {
    assert [x][1..] == [] && SortedSpecs([]) == [] && SortedSpecs([x]) == [x];
    assert Specs(s.nodes) == map[];
    OneNodeAllowed(x, f.nodeLimit, f.depthLimit);
    assert DependenciesSucceeded(s.nodes, x);
    assert Appended(s.nodes, Dict([x])) == OneNode(x);
  }

  lemma {:induction false} OneNodeStarts(f: Frozen, x: NodeSpec, s: RunState)
    requires s.status.Created? && s.nodes == OneNode(x)
    ensures Applied(f.run, Some(s), EventOf(f, Start, s.version + 1)) == Some(s.(status := RunStatus.Running, version := s.version + 1))
  {
    assert x.id in s.nodes && Progressing(s.nodes[x.id]) && !s.nodes[x.id].status.Succeeded?;
  }

  /** Appending the event of a decision that changes the state in a known way. */
  lemma {:induction false} Advances(f: Frozen, events: seq<Event>, c: Command, t: RunState)
    requires f.nodeLimit >= 1 && Sound(f, events) && events != [] && Decides(f, events, c) && !c.CompleteCancel?
    requires Applied(f.run, Fold(f.run, events), EventOf(f, c, |events| + 1)) == Some(t)
    ensures After(f, events, c) == events + [EventOf(f, c, |events| + 1)] && Sound(f, After(f, events, c))
    ensures Fold(f.run, After(f, events, c)) == Some(t)
  {
    AfterSound(f, events, c);
    FoldMore(f.run, events, EventOf(f, c, |events| + 1));
  }

  lemma {:induction false} FirstState(f: Frozen)
    requires f.nodeLimit >= 1
    ensures After(f, [], Initialize) == [EventOf(f, Initialize, 1)] && Sound(f, [EventOf(f, Initialize, 1)])
    ensures Fold(f.run, [EventOf(f, Initialize, 1)])
            == Some(RunState(RunStatus.Created, None, None, f.config, f.registry, f.workspace, None, f.nodeLimit, f.depthLimit, 0, 1, map[]))
  {
    FirstSound(f);
    assert [EventOf(f, Initialize, 1)][..0] == [];
  }

  lemma {:induction false} AppendsOneNode(f: Frozen, x: NodeSpec, key: nat, events: seq<Event>)
    requires f.nodeLimit >= 1 && x.dependsOn == [] && x.contract.None?
    requires Sound(f, events) && |events| == 1 && !Issued(events, KGraph(key))
    requires Fold(f.run, events) == Some(RunState(RunStatus.Created, None, None, f.config, f.registry, f.workspace, None, f.nodeLimit, f.depthLimit, 0, 1, map[]))
    ensures var add := AppendNodes([x], 0, key, None);
            && After(f, events, add) == events + [EventOf(f, add, 2)] && Sound(f, events + [EventOf(f, add, 2)])
            && Fold(f.run, events + [EventOf(f, add, 2)]) == Some(Fold(f.run, events).value.(graphVersion := 1, version := 2, nodes := OneNode(x)))
  {
    var add := AppendNodes([x], 0, key, None);
    var s := Fold(f.run, events).value;
    OneNodeAppended(f, x, key, s);
    Advances(f, events, add, s.(graphVersion := 1, version := 2, nodes := OneNode(x)));
  }

  lemma {:induction false} StartsOneNode(f: Frozen, x: NodeSpec, events: seq<Event>)
    requires f.nodeLimit >= 1 && Sound(f, events) && events != [] && !Issued(events, KStart)
    requires Fold(f.run, events).value.status.Created? && Fold(f.run, events).value.nodes == OneNode(x)
    ensures var after := events + [EventOf(f, Start, |events| + 1)];
            && After(f, events, Start) == after && Sound(f, after) && Fold(f.run, after).value.status.Running?
  {
    var s := Fold(f.run, events).value;
    OneNodeStarts(f, x, s);
    Advances(f, events, Start, s.(status := RunStatus.Running, version := s.version + 1));
  }

  /** A Run with a single node, initialised and started: such a stream is there for any limits. */
  lemma {:induction false} OneNodeRuns(f: Frozen, x: NodeSpec, key: nat)
    requires f.nodeLimit >= 1 && x.dependsOn == [] && x.contract.None?
    ensures var add := AppendNodes([x], 0, key, None);
            var first := [EventOf(f, Initialize, 1)]; var second := first + [EventOf(f, add, 2)];
            var third := second + [EventOf(f, Start, 3)];
            && After(f, [], Initialize) == first && After(f, first, add) == second && After(f, second, Start) == third
            && Sound(f, third) && Fold(f.run, third).value.status.Running?
  {
    var first := [EventOf(f, Initialize, 1)];
    FirstState(f);
    AppendsOneNode(f, x, key, first);
    StartsOneNode(f, x, first + [EventOf(f, AppendNodes([x], 0, key, None), 2)]);
  }

  lemma {:induction false} AfterAllMore(f: Frozen, events: seq<Event>, cs: seq<Command>, ds: seq<Command>)
    ensures AfterAll(f, events, cs + ds) == AfterAll(f, AfterAll(f, events, cs), ds)
    decreases |ds|
  {
    if ds == [] {
      assert cs + ds == cs;
    } else {
      assert (cs + ds)[..|cs + ds| - 1] == cs + ds[..|ds| - 1];
      AfterAllMore(f, events, cs, ds[..|ds| - 1]);
    }
  }

  lemma {:induction false} AfterOne(f: Frozen, events: seq<Event>, c: Command)
    ensures AfterAll(f, events, [c]) == After(f, events, c)
  {
    assert [c][..0] == [];
  }

  lemma {:induction false} AfterTwo(f: Frozen, events: seq<Event>, c: Command, d: Command)
    ensures AfterAll(f, events, [c, d]) == After(f, After(f, events, c), d)
  {
    assert [c, d] == [c] + [d];
    AfterAllMore(f, events, [c], [d]);
    AfterOne(f, events, c);
    AfterOne(f, After(f, events, c), d);
  }

  /** The start of a Run with a single node. */
  function Started(x: NodeSpec, key: nat): seq<Command> {
    [Initialize, AppendNodes([x], 0, key, None)] + [Start]
  }

  /** Pausing for one reason, resuming, pausing for another, resuming. */
  function Turned(a: nat, b: nat): seq<Command> {
    [Pause(a), Resume] + [Pause(b), Resume]
  }

  lemma {:induction false} StartedIs(f: Frozen, x: NodeSpec, key: nat, running: seq<Event>)
    requires f.nodeLimit >= 1 && x.dependsOn == [] && x.contract.None?
    requires running == [EventOf(f, Initialize, 1)] + [EventOf(f, AppendNodes([x], 0, key, None), 2)] + [EventOf(f, Start, 3)]
    ensures AfterAll(f, [], Started(x, key)) == running && Sound(f, running) && Fold(f.run, running).value.status.Running?
  {
    var add := AppendNodes([x], 0, key, None);
    OneNodeRuns(f, x, key);
    AfterAllMore(f, [], [Initialize, add], [Start]);
    AfterTwo(f, [], Initialize, add);
    AfterOne(f, [EventOf(f, Initialize, 1)] + [EventOf(f, add, 2)], Start);
  }

  lemma {:induction false} StartedKeys(f: Frozen, x: NodeSpec, key: nat, running: seq<Event>, k: Key)
    requires running == [EventOf(f, Initialize, 1)] + [EventOf(f, AppendNodes([x], 0, key, None), 2)] + [EventOf(f, Start, 3)]
    requires k.KPause? || k.KResume?
    ensures !Issued(running, k)
  {
  }

  lemma {:induction false} TurnedIs(f: Frozen, events: seq<Event>, a: nat, b: nat)
    ensures AfterAll(f, events, Turned(a, b)) == After(f, After(f, After(f, After(f, events, Pause(a)), Resume), Pause(b)), Resume)
  {
    AfterAllMore(f, events, [Pause(a), Resume], [Pause(b), Resume]);
    AfterTwo(f, events, Pause(a), Resume);
    AfterTwo(f, AfterAll(f, events, [Pause(a), Resume]), Pause(b), Resume);
  }

  /** From the first command on: initialise, append, start, pause, resume, pause for another reason, resume. */
  lemma {:induction false} StaysPaused(f: Frozen, x: NodeSpec, key: nat, a: nat, b: nat)
    requires f.nodeLimit >= 1 && x.dependsOn == [] && x.contract.None? && a != b
    ensures var stream := AfterAll(f, [], Started(x, key) + Turned(a, b));
            Fold(f.run, stream).Some? && Fold(f.run, stream).value.status.Paused?
  {
    var running := [EventOf(f, Initialize, 1)] + [EventOf(f, AppendNodes([x], 0, key, None), 2)] + [EventOf(f, Start, 3)];
    StartedIs(f, x, key, running);
    StartedKeys(f, x, key, running, KPause(a));
    StartedKeys(f, x, key, running, KPause(b));
    StartedKeys(f, x, key, running, KResume);
    var paused := running + [EventOf(f, Pause(a), |running| + 1)];
    var resumed := paused + [EventOf(f, Resume, |paused| + 1)];
    var again := resumed + [EventOf(f, Pause(b), |resumed| + 1)];
    TurnedKeys(f, running, paused, resumed, again, a, b);
    SecondResumeIsLost(f, running, paused, resumed, again, a, b);
    AfterAllMore(f, [], Started(x, key), Turned(a, b));
    TurnedIs(f, running, a, b);
  }
}

/** Symbolic links of an inventoried view, resolved without ever touching the host. */
module ViewLinks {
  import opened Common

  /** A path component's name: an ordinary one, one reserved at the root, or one no path may hold. */
  datatype Name = Ordinary(id: nat) | Reserved(id: nat) | Malformed(id: nat)

  type Path = seq<Name>

  datatype Component = Stay | Up | Down(name: Name)

  type Bytes = seq<bv8>

  datatype Item = File(mode: nat, data: Bytes) | Dir(mode: nat) | Link(target: seq<Component>)

  type Items = map<Path, Item>

  predicate PathOk(p: Path, maxDepth: nat) {
    && 0 < |p| <= maxDepth
    && !p[0].Reserved?
    && forall i :: 0 <= i < |p| ==> !p[i].Malformed?
  }

  datatype Trouble = Escapes | BadPath | TooManyLinks | NotADirectory

  /** Where a resolution ends, with the links and components it took. */
  datatype Outcome = Resolved(path: Path, links: nat, steps: nat) | Failed(trouble: Trouble)

  const MaxLinks: nat := 40

  // ----- The resolver as pathname resolution defines it -----

  /**
   Resolves components from a directory. A link is resolved as a path of its own, from the
   directory that holds it, before the components after it. Whatever is followed by more
   components must not be a file; missing entries are taken as they are written.
   */
  function Walk(items: Items, dir: Path, cs: seq<Component>, links: nat, more: bool, maxDepth: nat): (o: Outcome)
    requires links <= MaxLinks
    ensures o.Resolved? ==> links <= o.links <= MaxLinks
    decreases MaxLinks - links, |cs|
  {
    if cs == [] then Resolved(dir, links, 0)
    else
      var rest := cs[1..];
      match cs[0]
      case Stay => OneMore(Walk(items, dir, rest, links, more, maxDepth))
      case Up => if dir == [] then Failed(Escapes) else OneMore(Walk(items, dir[..|dir| - 1], rest, links, more, maxDepth))
      case Down(name) =>
        var current := dir + [name];
        if !PathOk(current, maxDepth) then Failed(BadPath)
        else if current in items && items[current].Link? then
          if links == MaxLinks then Failed(TooManyLinks)
          else
            var inner := Walk(items, dir, items[current].target, links + 1, more || rest != [], maxDepth);
            if inner.Failed? then inner
            else
              var outer := Walk(items, inner.path, rest, inner.links, more, maxDepth);
              if outer.Failed? then outer else outer.(steps := 1 + inner.steps + outer.steps)
        else if current in items && !items[current].Dir? && (more || rest != []) then Failed(NotADirectory)
        else OneMore(Walk(items, current, rest, links, more, maxDepth))
  }

  function OneMore(o: Outcome): Outcome {
    if o.Failed? then o else o.(steps := o.steps + 1)
  }

  // ----- The resolver over one queue of pending components -----

  /** The same resolution with the target of a link put in front of what is still pending. */
  function Drain(items: Items, resolved: Path, pending: seq<Component>, links: nat, maxDepth: nat): (o: Outcome)
    requires links <= MaxLinks
    decreases MaxLinks - links, |pending|
  {
    if pending == [] then Resolved(resolved, links, 0)
    else
      var rest := pending[1..];
      match pending[0]
      case Stay => OneMore(Drain(items, resolved, rest, links, maxDepth))
      case Up => if resolved == [] then Failed(Escapes) else OneMore(Drain(items, resolved[..|resolved| - 1], rest, links, maxDepth))
      case Down(name) =>
        var current := resolved + [name];
        if !PathOk(current, maxDepth) then Failed(BadPath)
        else if current in items && items[current].Link? then
          if links == MaxLinks then Failed(TooManyLinks)
          else OneMore(Drain(items, resolved, items[current].target + rest, links + 1, maxDepth))
        else if current in items && !items[current].Dir? && rest != [] then Failed(NotADirectory)
        else OneMore(Drain(items, current, rest, links, maxDepth))
  }

  function Plus(o: Outcome, steps: nat): Outcome {
    if o.Failed? then o else o.(steps := steps + o.steps)
  }

  ghost predicate Splits(items: Items, dir: Path, a: seq<Component>, b: seq<Component>, links: nat, maxDepth: nat)
    requires links <= MaxLinks
  {
    var w := Walk(items, dir, a, links, b != [], maxDepth);
    Drain(items, dir, a + b, links, maxDepth) == if w.Failed? then w else Plus(Drain(items, w.path, b, w.links, maxDepth), w.steps)
  }

  /** Draining a queue is walking its front part and then draining the rest from there. */
  lemma {:induction false} DrainIsWalk(items: Items, dir: Path, a: seq<Component>, b: seq<Component>, links: nat, maxDepth: nat)
    requires links <= MaxLinks
    ensures Splits(items, dir, a, b, links, maxDepth)
    decreases MaxLinks - links, |a|, 1
  {
    if a == [] {
      assert a + b == b;
    } else {
      var rest := a[1..];
      assert (a + b)[0] == a[0] && (a + b)[1..] == rest + b;
      if a[0].Stay? {
        DrainIsWalk(items, dir, rest, b, links, maxDepth);
      } else if a[0].Up? {
        if dir != [] {
          DrainIsWalk(items, dir[..|dir| - 1], rest, b, links, maxDepth);
        }
      } else {
        DrainDown(items, dir, a, b, links, maxDepth);
      }
    }
  }

  lemma {:induction false} DrainDown(items: Items, dir: Path, a: seq<Component>, b: seq<Component>, links: nat, maxDepth: nat)
    requires links <= MaxLinks && a != [] && a[0].Down?
    ensures Splits(items, dir, a, b, links, maxDepth)
    decreases MaxLinks - links, |a|, 0
  {
    var rest := a[1..];
    assert (a + b)[0] == a[0] && (a + b)[1..] == rest + b;
    var current := dir + [a[0].name];
    if PathOk(current, maxDepth) {
      if current in items && items[current].Link? {
        if links < MaxLinks {
          DrainLink(items, dir, items[current].target, rest, b, links + 1, maxDepth);
        }
      } else {
        DrainIsWalk(items, current, rest, b, links, maxDepth);
      }
    }
  }

  /** A link's target, then the components after it, then the rest of the queue. */
  lemma {:induction false} DrainLink(items: Items, dir: Path, target: seq<Component>, rest: seq<Component>, b: seq<Component>,
                                     links: nat, maxDepth: nat)
    requires links <= MaxLinks
    ensures var inner := Walk(items, dir, target, links, b != [] || rest != [], maxDepth);
            Drain(items, dir, target + (rest + b), links, maxDepth) ==
            if inner.Failed? then inner
            else
              var outer := Walk(items, inner.path, rest, inner.links, b != [], maxDepth);
              if outer.Failed? then outer
              else Plus(Drain(items, outer.path, b, outer.links, maxDepth), inner.steps + outer.steps)
    decreases MaxLinks - links, |target| + |rest|, 2
  {
    DrainIsWalk(items, dir, target, rest + b, links, maxDepth);
    var inner := Walk(items, dir, target, links, b != [] || rest != [], maxDepth);
    assert (rest + b != []) == (b != [] || rest != []);
    if inner.Resolved? {
      DrainIsWalk(items, inner.path, rest, b, inner.links, maxDepth);
    }
  }

  lemma {:induction false} DrainAll(items: Items, cs: seq<Component>, maxDepth: nat)
    ensures Drain(items, [], cs, 0, maxDepth) == Walk(items, [], cs, 0, false, maxDepth)
  {
    DrainIsWalk(items, [], cs, [], 0, maxDepth);
    assert cs + [] == cs;
  }

  function Components(p: Path): seq<Component> {
    if p == [] then [] else [Down(p[0])] + Components(p[1..])
  }

  /** One link resolves, as pathname resolution defines it, within the step bound. */
  predicate LinkOk(items: Items, p: Path, maxDepth: nat) {
    var o := Walk(items, [], Components(p), 0, false, maxDepth);
    o.Resolved? && o.steps <= 41 * (maxDepth + 1)
  }

  ghost predicate LinksOk(items: Items, maxDepth: nat) {
    forall p :: p in items && items[p].Link? ==> LinkOk(items, p, maxDepth)
  }

  /**
   A resolution that succeeds stays inside: it never climbed above the root, and it ends on the
   root itself or on a valid path that is not under a reserved name and is no link.
   */
  lemma {:induction false} WalkStaysInside(items: Items, dir: Path, cs: seq<Component>, links: nat, more: bool, maxDepth: nat)
    requires links <= MaxLinks && (dir == [] || (PathOk(dir, maxDepth) && !(dir in items && items[dir].Link?)))
    requires forall k :: 0 < k <= |dir| ==> !(dir[..k] in items && items[dir[..k]].Link?)
    ensures var o := Walk(items, dir, cs, links, more, maxDepth);
            o.Resolved? ==>
              && (o.path == [] || PathOk(o.path, maxDepth))
              && forall k :: 0 < k <= |o.path| ==> !(o.path[..k] in items && items[o.path[..k]].Link?)
    decreases MaxLinks - links, |cs|
  {
    if cs != [] {
      var rest := cs[1..];
      match cs[0] {
        case Stay => WalkStaysInside(items, dir, rest, links, more, maxDepth);
        case Up =>
          if dir != [] {
            var up := dir[..|dir| - 1];
            assert forall k :: 0 < k <= |up| ==> up[..k] == dir[..k];
            assert up != [] ==> up == dir[..|up|];
            WalkStaysInside(items, up, rest, links, more, maxDepth);
          }
        case Down(name) =>
          var current := dir + [name];
          if PathOk(current, maxDepth) {
            if current in items && items[current].Link? {
              if links < MaxLinks {
                WalkStaysInside(items, dir, items[current].target, links + 1, more || rest != [], maxDepth);
                var inner := Walk(items, dir, items[current].target, links + 1, more || rest != [], maxDepth);
                if inner.Resolved? {
                  assert inner.path != [] ==> inner.path[..|inner.path|] == inner.path;
                  WalkStaysInside(items, inner.path, rest, inner.links, more, maxDepth);
                }
              }
            } else {
              assert forall k :: 0 < k < |current| ==> current[..k] == dir[..k];
              assert current[..|current|] == current;
              WalkStaysInside(items, current, rest, links, more, maxDepth);
            }
          }
      }
    }
  }

  /** Resolves one link with a queue of pending components, under the step bound. */
  method ResolveLink(items: Items, p: Path, maxDepth: nat) returns (ok: bool)
    ensures ok <==> LinkOk(items, p, maxDepth)
  {
    DrainAll(items, Components(p), maxDepth);
    var pending: seq<Component>, resolved: Path, links: nat, steps: nat := Components(p), [], 0, 0;
    while pending != []
      invariant links <= MaxLinks && steps <= 41 * (maxDepth + 1)
      invariant Drain(items, [], Components(p), 0, maxDepth) == Plus(Drain(items, resolved, pending, links, maxDepth), steps)
      decreases 41 * (maxDepth + 1) - steps
    {
      steps := steps + 1;
      if steps > 41 * (maxDepth + 1) {
        return false;
      }
      var component := pending[0];
      pending := pending[1..];
      if component.Stay? {
        continue;
      }
      if component.Up? {
        if resolved == [] {
          return false;
        }
        resolved := resolved[..|resolved| - 1];
        continue;
      }
      var current := resolved + [component.name];
      if !PathOk(current, maxDepth) {
        return false;
      }
      if current in items && items[current].Link? {
        links := links + 1;
        if links > MaxLinks {
          return false;
        }
        pending := items[current].target + pending;
      } else {
        if current in items && !items[current].Dir? && pending != [] {
          return false;
        }
        resolved := current;
      }
    }
    return true;
  }

  /** Accepts an inventory exactly when every link in it resolves. */
  method ValidateLinks(items: Items, maxDepth: nat) returns (ok: bool)
    ensures ok <==> LinksOk(items, maxDepth)
  {
    var rest := items.Keys;
    while rest != {}
      invariant rest <= items.Keys
      invariant forall p :: p in items && p !in rest && items[p].Link? ==> LinkOk(items, p, maxDepth)
    {
      var p :| p in rest;
      if items[p].Link? {
        ok := ResolveLink(items, p, maxDepth);
        if !ok {
          return;
        }
      }
      rest := rest - {p};
    }
    return true;
  }
}

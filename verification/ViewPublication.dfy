/** From an exported view to the workspace: publishing a diff over its own baseline gives the view. */
module ViewPublication {
  import opened Common
  import opened ViewLinks
  import V = WorkspaceView
  import C = ViewCandidates
  import T = WorkspaceTree
  import R = PublishRecords
  import J = PublishJournal

  // ----- A view as a workspace tree -----

  function Numbered(prefix: string, id: nat): string {
    prefix + seq(id, _ => '1')
  }

  function NameOf(n: Name): T.Name {
    match n
    case Ordinary(id) => T.Named(Numbered("o", id))
    case Reserved(id) => T.Named(Numbered("r", id))
    case Malformed(id) => T.Named(Numbered("m", id))
  }

  function PathOf(p: Path): T.Path {
    seq(|p|, i requires 0 <= i < |p| => NameOf(p[i]))
  }

  function StateOf(i: Item): T.PathState {
    match i
    case File(mode, data) => T.FileState(mode, data)
    case Dir(mode) => T.DirState(mode)
    case Link(target) => T.LinkState(Characters(V.Text(target)))
  }

  function Characters(data: Bytes): string {
    seq(|data|, i requires 0 <= i < |data| => data[i] as char)
  }

  lemma {:induction false} NameTells(n: Name, m: Name)
    ensures NameOf(n) == NameOf(m) <==> n == m
  {
    assert NameOf(n).text[0] == (if n.Ordinary? then 'o' else if n.Reserved? then 'r' else 'm');
    assert NameOf(m).text[0] == (if m.Ordinary? then 'o' else if m.Reserved? then 'r' else 'm');
    assert |NameOf(n).text| == n.id + 1 && |NameOf(m).text| == m.id + 1;
  }

  lemma {:induction false} PathTells(p: Path, q: Path)
    ensures PathOf(p) == PathOf(q) <==> p == q
  {
    if PathOf(p) == PathOf(q) {
      assert |PathOf(p)| == |p| && |PathOf(q)| == |q|;
      forall i | 0 <= i < |p|
        ensures p[i] == q[i]
      {
        assert PathOf(p)[i] == PathOf(q)[i];
        NameTells(p[i], q[i]);
      }
    }
  }

  /** The workspace holds just the entries of the view. */
  ghost predicate Holds(t: T.Tree, items: Items) {
    && (forall p :: p in items ==> T.Get(t, PathOf(p)) == Some(T.NodeOf(StateOf(items[p]))))
    && (forall q :: q in t ==> Shown(items, q))
  }

  ghost predicate Shown(items: Items, q: T.Path) {
    exists p :: p in items && PathOf(p) == q
  }

  // ----- The diff as the publisher receives it -----

  function OpOf(op: V.Op): R.Operation {
    match op
    case Add => R.Operation.Add
    case Modify => R.Operation.Modify
    case Delete => R.Operation.Delete
  }

  function KindOf(kind: V.Kind): J.Kind {
    match kind
    case FileKind => J.FileKind
    case DirKind => J.DirKind
    case LinkKind => J.LinkKind
  }

  /** An entry refers to what is stored for it and to what it replaces. */
  predicate Placed(baseline: Items, payload: Items, e: V.Entry) {
    (e.op.Delete? || e.path in payload) && (e.op.Add? || e.path in baseline)
  }

  function EntryOf(baseline: Items, payload: Items, e: V.Entry): J.Entry
    requires Placed(baseline, payload, e)
  {
    J.Entry(PathOf(e.path), OpOf(e.op), KindOf(e.kind),
            if e.op.Delete? then None else Some(StateOf(V.WithMode(payload[e.path], e.mode))),
            if e.op.Add? then None else J.ContentOf(StateOf(baseline[e.path])))
  }

  /** The whole diff, in manifest order. */
  function Diff(baseline: Items, payload: Items, entries: seq<V.Entry>): (es: seq<J.Entry>)
    requires forall e :: e in entries ==> Placed(baseline, payload, e)
    ensures |es| == |entries| && forall i :: 0 <= i < |es| ==> es[i] == EntryOf(baseline, payload, entries[i])
  {
    seq(|entries|, i requires 0 <= i < |entries| => EntryOf(baseline, payload, entries[i]))
  }

  /** An exported diff with the candidate storage it needs. */
  ghost predicate Exported(baseline: Items, final: Items, entries: seq<V.Entry>, payload: Items) {
    && V.TreeOk(baseline) && V.TreeOk(final) && V.KindsKept(baseline, final)
    && V.IsExport(baseline, final, entries) && V.IsPayload(final, entries, payload)
  }

  lemma {:induction false} ExportedPlaced(baseline: Items, final: Items, entries: seq<V.Entry>, payload: Items, e: V.Entry)
    requires Exported(baseline, final, entries, payload) && e in entries
    ensures Placed(baseline, payload, e) && V.ExportEntry(baseline, final, e.path) == Some(e)
    ensures !e.op.Delete? ==> e.path in final && V.WithMode(payload[e.path], e.mode) == final[e.path]
    ensures e.op.Delete? ==> e.path !in final
    ensures !e.op.Add? ==> e.kind == V.KindOf(baseline[e.path])
    ensures !e.op.Delete? ==> e.kind == V.KindOf(final[e.path])
  {
    assert V.ExportEntry(baseline, final, e.path) == Some(e);
    if !e.op.Delete? {
      assert e.path in V.Written(entries);
      C.Restored(final[e.path]);
    }
  }

  lemma {:induction false} AllPlaced(baseline: Items, final: Items, entries: seq<V.Entry>, payload: Items)
    requires Exported(baseline, final, entries, payload)
    ensures forall e :: e in entries ==> Placed(baseline, payload, e)
  {
    forall e | e in entries
      ensures Placed(baseline, payload, e)
    {
      ExportedPlaced(baseline, final, entries, payload, e);
    }
  }

  // ----- Publishing over the baseline gives the view -----

  predicate HasEntry(entries: seq<V.Entry>, p: Path) {
    exists e :: e in entries && e.path == p
  }

  /** A path without an entry is in both views alike, or in neither. */
  lemma {:induction false} NoEntry(baseline: Items, final: Items, entries: seq<V.Entry>, p: Path)
    requires V.IsExport(baseline, final, entries) && !HasEntry(entries, p)
    ensures p in baseline <==> p in final
    ensures p in baseline ==> baseline[p] == final[p]
  {
    if p in baseline || p in final {
      assert V.ExportEntry(baseline, final, p).None?;
      V.UnchangedIff(baseline[p], final[p]);
    }
  }

  lemma {:induction false} EntryTakesEffect(baseline: Items, final: Items, entries: seq<V.Entry>, payload: Items, t0: T.Tree, t: T.Tree, e: V.Entry)
    requires Exported(baseline, final, entries, payload) && e in entries && (forall x :: x in entries ==> Placed(baseline, payload, x))
    requires J.PublishedTree(t0, Diff(baseline, payload, entries), t)
    ensures T.Get(t, PathOf(e.path)) == if e.path in final then Some(T.NodeOf(StateOf(final[e.path]))) else None
  {
    ExportedPlaced(baseline, final, entries, payload, e);
    var es := Diff(baseline, payload, entries);
    var i :| 0 <= i < |entries| && entries[i] == e;
    assert es[i] in es && es[i] == EntryOf(baseline, payload, e);
  }

  lemma {:induction false} OthersStay(baseline: Items, final: Items, entries: seq<V.Entry>, payload: Items, t0: T.Tree, t: T.Tree, q: T.Path)
    requires (forall x :: x in entries ==> Placed(baseline, payload, x))
    requires J.PublishedTree(t0, Diff(baseline, payload, entries), t)
    requires forall e :: e in entries ==> PathOf(e.path) != q
    ensures T.Get(t, q) == T.Get(t0, q)
  {
    var es := Diff(baseline, payload, entries);
    forall x | x in es
      ensures x.path != q
    {
      var i :| 0 <= i < |es| && es[i] == x;
      assert entries[i] in entries;
    }
  }

  /** What the workspace holds at a path of the view once the diff is in place. */
  lemma {:induction false} PublishedAt(baseline: Items, final: Items, entries: seq<V.Entry>, payload: Items, t0: T.Tree, t: T.Tree, p: Path)
    requires Exported(baseline, final, entries, payload) && (forall x :: x in entries ==> Placed(baseline, payload, x))
    requires Holds(t0, baseline) && J.PublishedTree(t0, Diff(baseline, payload, entries), t) && p in final
    ensures T.Get(t, PathOf(p)) == Some(T.NodeOf(StateOf(final[p])))
  {
    if HasEntry(entries, p) {
      var e :| e in entries && e.path == p;
      EntryTakesEffect(baseline, final, entries, payload, t0, t, e);
    } else {
      NoEntry(baseline, final, entries, p);
      forall e | e in entries
        ensures PathOf(e.path) != PathOf(p)
      {
        PathTells(e.path, p);
      }
      OthersStay(baseline, final, entries, payload, t0, t, PathOf(p));
    }
  }

  lemma {:induction false} NothingElse(baseline: Items, final: Items, entries: seq<V.Entry>, payload: Items, t0: T.Tree, t: T.Tree, q: T.Path)
    requires Exported(baseline, final, entries, payload) && (forall x :: x in entries ==> Placed(baseline, payload, x))
    requires Holds(t0, baseline) && J.PublishedTree(t0, Diff(baseline, payload, entries), t) && q in t
    ensures Shown(final, q)
  {
    if e :| e in entries && PathOf(e.path) == q {
      EntryTakesEffect(baseline, final, entries, payload, t0, t, e);
    } else {
      OthersStay(baseline, final, entries, payload, t0, t, q);
      assert T.Get(t0, q).Some? && Shown(baseline, q);
      var p :| p in baseline && PathOf(p) == q;
      NoEntry(baseline, final, entries, p);
    }
  }

  /** The diff of a view, put in place in a workspace that holds its baseline, leaves just the view. */
  lemma {:induction false} PublishedIsView(baseline: Items, final: Items, entries: seq<V.Entry>, payload: Items, t0: T.Tree, t: T.Tree)
    requires Exported(baseline, final, entries, payload) && (forall x :: x in entries ==> Placed(baseline, payload, x))
    requires Holds(t0, baseline) && J.PublishedTree(t0, Diff(baseline, payload, entries), t)
    ensures Holds(t, final)
  {
    forall p | p in final
      ensures T.Get(t, PathOf(p)) == Some(T.NodeOf(StateOf(final[p])))
    {
      PublishedAt(baseline, final, entries, payload, t0, t, p);
    }
    forall q | q in t
      ensures Shown(final, q)
    {
      NothingElse(baseline, final, entries, payload, t0, t, q);
    }
  }

  // ----- The publisher accepts every entry of such a diff -----

  lemma {:induction false} PrefixOf(p: Path, k: nat)
    requires k <= |p|
    ensures PathOf(p)[..k] == PathOf(p[..k])
  {
  }

  lemma {:induction false} HoldsIsClosed(items: Items, t: T.Tree)
    requires V.TreeOk(items) && Holds(t, items)
    ensures T.Closed(t)
  {
    forall q | q in t
      ensures |q| > 0 && (|q| > 1 ==> T.Parent(q) in t && t[T.Parent(q)].Dir?)
    {
      assert Shown(items, q);
      var p :| p in items && PathOf(p) == q;
      PrefixOf(p, |p| - 1);
      if |p| > 1 {
        assert V.IsDir(items, V.Parent(p));
        assert T.Get(t, PathOf(V.Parent(p))) == Some(T.NodeOf(StateOf(items[V.Parent(p)])));
      }
    }
  }

  /** What the baseline has above a path of the view is a directory. */
  lemma {:induction false} AboveIsDir(baseline: Items, final: Items, t0: T.Tree, p: Path, k: nat)
    requires V.TreeOk(final) && V.KindsKept(baseline, final) && Holds(t0, baseline) && p in final
    requires 0 < k < |p| && PathOf(p)[..k] in t0
    ensures t0[PathOf(p)[..k]].Dir?
  {
    PrefixOf(p, k);
    assert Shown(baseline, PathOf(p[..k]));
    var a :| a in baseline && PathOf(a) == PathOf(p[..k]);
    PathTells(a, p[..k]);
    V.AncestorsAreDirs(final, p[..k], p);
    assert T.Get(t0, PathOf(a)) == Some(T.NodeOf(StateOf(baseline[a])));
  }

  /** Nothing above a path of the view is in the way, although the baseline may not have all of it. */
  lemma {:induction false} NotInTheWay(baseline: Items, final: Items, t0: T.Tree, p: Path)
    requires V.TreeOk(final) && V.KindsKept(baseline, final) && Holds(t0, baseline) && p in final
    ensures !T.OpenParent(t0, PathOf(p)).Blocked?
  {
    if T.OpenParent(t0, PathOf(p)).Blocked? {
      var k := T.BlockedBy(t0, PathOf(p));
      AboveIsDir(baseline, final, t0, p, k);
      assert false;
    }
  }

  lemma {:induction false} SeenInBaseline(baseline: Items, t0: T.Tree, p: Path)
    requires V.TreeOk(baseline) && Holds(t0, baseline)
    ensures p in baseline ==> T.StateAt(t0, PathOf(p)) == T.Present(StateOf(baseline[p]))
    ensures p !in baseline ==> PathOf(p) !in t0
  {
    HoldsIsClosed(baseline, t0);
    if p in baseline {
      assert T.Get(t0, PathOf(p)) == Some(T.NodeOf(StateOf(baseline[p])));
      T.ClosedOpens(t0, PathOf(p));
    } else if PathOf(p) in t0 {
      assert Shown(baseline, PathOf(p));
      var a :| a in baseline && PathOf(a) == PathOf(p);
      PathTells(a, p);
    }
  }

  lemma {:induction false} KindKept(i: Item)
    ensures J.KindOf(StateOf(i)) == KindOf(V.KindOf(i))
  {
  }

  lemma {:induction false} EntryIsValid(baseline: Items, final: Items, entries: seq<V.Entry>, payload: Items, e: V.Entry)
    requires Exported(baseline, final, entries, payload) && e in entries && Placed(baseline, payload, e)
    ensures J.ValidEntry(EntryOf(baseline, payload, e))
  {
    ExportedPlaced(baseline, final, entries, payload, e);
    assert |PathOf(e.path)| == |e.path| > 0;
    if !e.op.Delete? {
      KindKept(final[e.path]);
    }
  }

  /** Over its own baseline, every entry of an exported diff finds what it was made against. */
  lemma {:induction false} EntryFits(baseline: Items, final: Items, entries: seq<V.Entry>, payload: Items, t0: T.Tree, e: V.Entry)
    requires Exported(baseline, final, entries, payload) && e in entries && Placed(baseline, payload, e) && Holds(t0, baseline)
    ensures J.FitsLive(t0, EntryOf(baseline, payload, e))
  {
    ExportedPlaced(baseline, final, entries, payload, e);
    EntryIsValid(baseline, final, entries, payload, e);
    SeenInBaseline(baseline, t0, e.path);
    if e.op.Add? {
      NotInTheWay(baseline, final, t0, e.path);
    } else {
      KindKept(baseline[e.path]);
    }
  }

  lemma {:induction false} DiffIsFresh(baseline: Items, payload: Items, entries: seq<V.Entry>, tx: nat)
    requires forall e :: e in entries ==> Placed(baseline, payload, e)
    ensures J.FreshEntries(tx, Diff(baseline, payload, entries))
  {
  }

  // ----- Over whole runs -----

  /**
   From the export to every later moment: a run begins a publication of an exported diff in a
   workspace that holds the baseline. If it succeeds the workspace holds just the view, and still
   does until another publication begins, whatever recoveries and acknowledgements come between;
   if it does not, the workspace holds the baseline again as soon as a recovery reports on it.
   */
  lemma {:induction false} ViewIsPublished(baseline: Items, final: Items, entries: seq<V.Entry>, payload: Items,
                                           calls: seq<J.Call>, answers: seq<J.Answer>, worlds: seq<J.World>, j: nat, k: nat)
    requires Exported(baseline, final, entries, payload) && forall e :: e in entries ==> Placed(baseline, payload, e)
    requires J.IsRun(calls, answers, worlds) && J.Truth(worlds[0]) && !J.HasPending(worlds[0].journal)
    requires j < k <= |calls| && J.LastBegun(calls, worlds, k) == j
    requires calls[j].es == Diff(baseline, payload, entries) && Holds(worlds[j].tree, baseline)
    ensures answers[j].status.Pass? ==> Holds(worlds[k].tree, final)
    ensures answers[j].status.Fail? && k < |calls| && answers[k].reports != map[] ==> Holds(worlds[k + 1].tree, baseline)
  {
    if answers[j].status.Pass? {
      J.CommittedStays(calls, answers, worlds, j, k);
      assert J.Performed(worlds[j], calls[j], answers[j], worlds[j + 1]);
      PublishedIsView(baseline, final, entries, payload, worlds[j].tree, worlds[j + 1].tree);
    } else if k < |calls| && answers[k].reports != map[] {
      var id :| id in answers[k].reports;
      J.ReportsAreTrue(calls, answers, worlds, k, id);
    }
  }
}

/**
 The workspace as a map from paths to nodes, with the file operations the publisher performs.
 Each operation is one durable step: it takes effect completely, or fails and changes nothing.
 */
module WorkspaceTree {
  import opened Common

  /** A path component. `Temporary` is the name ".mp" + transaction id + index of a publication. */
  datatype Name = Named(text: string) | Temporary(tx: nat, index: nat)

  type Path = seq<Name>
  type Bytes = seq<bv8>

  /** A regular file remembers the other name of its inode while it has two names. */
  datatype Node =
    | Dir(mode: nat)
    | File(mode: nat, data: Bytes, twin: Option<Path>)
    | Link(target: string)

  type Tree = map<Path, Node>

  const PRIVATE_DIR: nat := 448   // 0o700
  const PRIVATE_FILE: nat := 384  // 0o600

  function Get(t: Tree, p: Path): Option<Node> {
    if p in t then Some(t[p]) else None
  }

  function Parent(p: Path): Path
    requires |p| > 0
  {
    p[..|p| - 1]
  }

  predicate Below(p: Path, q: Path) {
    |q| < |p| && p[..|q|] == q
  }

  predicate ChildOf(p: Path, q: Path) {
    |p| == |q| + 1 && p[..|q|] == q
  }

  /** Every entry lies directly in a directory. */
  ghost predicate Closed(t: Tree) {
    forall p :: p in t ==> |p| > 0 && (|p| > 1 ==> Parent(p) in t && t[Parent(p)].Dir?)
  }

  // ----- Path inspection -----

  datatype ParentView = Opened | Missing | Blocked

  /** Walks the components above `p` without following links. */
  function OpenParent(t: Tree, p: Path): ParentView {
    if |p| <= 1 then Opened
    else
      var q := Parent(p);
      match OpenParent(t, q)
      case Missing => Missing
      case Blocked => Blocked
      case Opened =>
        if q !in t then Missing else if t[q].Dir? then Opened else Blocked
  }

  /** What the publisher records about a path; digests are injective, so contents stand for them. */
  datatype PathState =
    | DirState(mode: nat)
    | FileState(mode: nat, data: Bytes)
    | LinkState(target: string)

  datatype Seen = Absent | Present(state: PathState) | Unsafe

  function StateOf(n: Node): PathState {
    match n
    case Dir(m) => DirState(m)
    case File(m, d, _) => FileState(m, d)
    case Link(x) => LinkState(x)
  }

  function NodeOf(s: PathState): Node {
    match s
    case DirState(m) => Dir(m)
    case FileState(m, d) => File(m, d, None)
    case LinkState(x) => Link(x)
  }

  /** Inspects one path; a file with a second name or below a non-directory is refused. */
  function StateAt(t: Tree, p: Path): Seen {
    match OpenParent(t, p)
    case Missing => Absent
    case Blocked => Unsafe
    case Opened =>
      if p !in t then Absent
      else if t[p].File? && t[p].twin.Some? then Unsafe
      else Present(StateOf(t[p]))
  }

  // ----- Durable operations -----

  datatype FsOp =
    | Mkdir(p: Path, mode: nat)
    | Chmod(p: Path, mode: nat)
    | Rmdir(p: Path)
    | Unlink(p: Path)
    | Create(p: Path)
    | Append(p: Path, chunk: Bytes)
    | Symlink(p: Path, target: string)
    | HardLink(src: Path, dst: Path)
    | Rename(src: Path, dst: Path)

  predicate HasChild(t: Tree, p: Path) {
    exists c :: c in t && ChildOf(c, p)
  }

  /** Removes a name; a second name of the same file becomes its only name. */
  function Drop(t: Tree, p: Path): Tree {
    var rest := t - {p};
    if p in t && t[p].File? && t[p].twin.Some? && t[p].twin.value in rest && rest[t[p].twin.value].File?
    then rest[t[p].twin.value := rest[t[p].twin.value].(twin := None)]
    else rest
  }

  /** The tree after an operation, or None when the kernel refuses it. */
  function Exec(t: Tree, op: FsOp): Option<Tree> {
    match op
    case Mkdir(p, m) =>
      if OpenParent(t, p).Opened? && |p| > 0 && p !in t then Some(t[p := Dir(m)]) else None
    case Chmod(p, m) =>
      if p !in t || t[p].Link? then None
      else if t[p].Dir? then Some(t[p := Dir(m)])
      else if t[p].twin.None? then Some(t[p := t[p].(mode := m)])
      else None
    case Rmdir(p) =>
      if p in t && t[p].Dir? && !HasChild(t, p) then Some(t - {p}) else None
    case Unlink(p) =>
      if p in t && !t[p].Dir? then Some(Drop(t, p)) else None
    case Create(p) =>
      if OpenParent(t, p).Opened? && |p| > 0 && p !in t then Some(t[p := File(PRIVATE_FILE, [], None)]) else None
    case Append(p, c) =>
      if p in t && t[p].File? && t[p].twin.None? then Some(t[p := t[p].(data := t[p].data + c)]) else None
    case Symlink(p, x) =>
      if OpenParent(t, p).Opened? && |p| > 0 && p !in t then Some(t[p := Link(x)]) else None
    case HardLink(a, b) =>
      if a !in t || t[a].Dir? || b in t || |b| == 0 || !OpenParent(t, b).Opened? then None
      else if t[a].Link? then Some(t[b := t[a]])
      else if t[a].twin.None? then Some(t[a := t[a].(twin := Some(b))][b := t[a].(twin := Some(a))])
      else None
    case Rename(a, b) =>
      if a !in t || t[a].Dir? || |b| == 0 || !OpenParent(t, b).Opened? || (b in t && t[b].Dir?) then None
      else if t[a].File? && t[a].twin.Some? then None
      else Some((Drop(t, b) - {a})[b := t[a]])
  }

  // ----- Facts about closed trees -----

  lemma {:induction false} ClosedOpens(t: Tree, p: Path)
    requires Closed(t) && |p| > 0
    ensures OpenParent(t, p).Opened? <==> |p| == 1 || (Parent(p) in t && t[Parent(p)].Dir?)
  {
    if |p| > 1 {
      ClosedOpens(t, Parent(p));
      var q := Parent(p);
      if q in t && |q| > 1 {
        assert Parent(q) in t && t[Parent(q)].Dir?;
      }
    }
  }

  lemma {:induction false} DropShape(t: Tree, p: Path)
    ensures Drop(t, p).Keys == t.Keys - {p}
    ensures forall q :: q in Drop(t, p) ==> Drop(t, p)[q].Dir? == t[q].Dir?
  {
  }

  /** Putting an entry under a directory, or over a non-directory, keeps the tree closed. */
  lemma {:induction false} PutKeepsClosed(t: Tree, p: Path, n: Node)
    requires Closed(t) && |p| > 0 && OpenParent(t, p).Opened?
    requires p in t ==> t[p].Dir? == n.Dir?
    ensures Closed(t[p := n])
  {
    ClosedOpens(t, p);
  }

  lemma {:induction false} RemoveKeepsClosed(t: Tree, p: Path, u: Tree)
    requires Closed(t) && u.Keys == t.Keys - {p}
    requires forall q :: q in u ==> u[q].Dir? == t[q].Dir?
    requires p in t && t[p].Dir? ==> !HasChild(t, p)
    ensures Closed(u)
  {
    forall q | q in u && |q| > 1
      ensures Parent(q) in u && u[Parent(q)].Dir?
    {
      assert ChildOf(q, Parent(q));
    }
  }

  lemma {:induction false} RenameKeepsClosed(t: Tree, a: Path, b: Path)
    requires Closed(t) && Exec(t, Rename(a, b)).Some?
    ensures Closed(Exec(t, Rename(a, b)).value)
  {
    DropShape(t, b);
    RemoveKeepsClosed(t, b, Drop(t, b));
    RemoveKeepsClosed(Drop(t, b), a, Drop(t, b) - {a});
    ClosedOpens(t, b);
    assert |b| > 1 ==> Parent(b) in t && t[Parent(b)].Dir? && Parent(b) != b;
    var u := Drop(t, b) - {a};
    ClosedOpens(u, b);
    PutKeepsClosed(u, b, t[a]);
  }

  /** The operations keep the tree parent-closed, whatever they are applied to. */
  lemma {:induction false} ExecKeepsClosed(t: Tree, op: FsOp)
    requires Closed(t) && Exec(t, op).Some?
    ensures Closed(Exec(t, op).value)
  {
    match op {
      case Mkdir(p, m) => PutKeepsClosed(t, p, Dir(m));
      case Chmod(p, m) =>
      case Rmdir(p) => RemoveKeepsClosed(t, p, t - {p});
      case Unlink(p) => DropShape(t, p); RemoveKeepsClosed(t, p, Drop(t, p));
      case Create(p) => PutKeepsClosed(t, p, File(PRIVATE_FILE, [], None));
      case Append(p, c) =>
      case Symlink(p, x) => PutKeepsClosed(t, p, Link(x));
      case HardLink(a, b) =>
        PutKeepsClosed(t, b, t[a]);
      case Rename(a, b) => RenameKeepsClosed(t, a, b);
    }
  }

  /** A path below another in a closed tree forces every path between them to be a directory. */
  lemma {:induction false} ClosedAncestors(t: Tree, p: Path, k: nat)
    requires Closed(t) && p in t && 0 < k < |p|
    ensures p[..k] in t && t[p[..k]].Dir?
    decreases |p| - k
  {
    if k == |p| - 1 {
      assert p[..k] == Parent(p);
    } else {
      ClosedAncestors(t, p, k + 1);
      assert Parent(p[..k + 1]) == p[..k];
    }
  }

  /** The walk is blocked only by an entry above the path that is not a directory. */
  lemma {:induction false} BlockedBy(t: Tree, p: Path) returns (k: nat)
    requires OpenParent(t, p).Blocked?
    ensures 0 < k < |p| && p[..k] in t && !t[p[..k]].Dir?
  {
    var q := Parent(p);
    if OpenParent(t, q).Blocked? {
      k := BlockedBy(t, q);
      assert q[..k] == p[..k];
    } else {
      k := |p| - 1;
    }
  }

  /** Conversely, an entry above the path that is not a directory blocks it. */
  lemma {:induction false} NotBlockedAt(t: Tree, p: Path, k: nat)
    requires Closed(t) && !OpenParent(t, p).Blocked? && 0 < k < |p|
    ensures p[..k] in t ==> t[p[..k]].Dir?
  {
    if k < |p| - 1 {
      assert Parent(p)[..k] == p[..k];
      NotBlockedAt(t, Parent(p), k);
    } else if p[..k] in t {
      ClosedOpens(t, p[..k]);
      if k > 1 {
        assert Parent(p[..k]) in t;
      }
    }
  }
}

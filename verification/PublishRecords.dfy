/**
 The records of a publication, what a stopped publication or rollback leaves behind (`Midway`),
 and why every record of such a tree can be undone in reverse order.
 */
module PublishRecords {
  import opened Common
  import opened WorkspaceTree

  datatype Operation = Add | Modify | Delete

  datatype Record = Record(
    path: Path,
    op: Operation,
    before: Option<PathState>,
    children: Option<set<Name>>,
    after: Option<PathState>)

  /** Why a call stopped. `Stopped` covers a crash, a lost lease and revoked authority alike. */
  datatype Reason = Stopped | OsError | Conflict | RecoveryConflict | Invalid

  datatype Status = Pass | Fail(why: Reason) {
    predicate IsFailure() {
      Fail?
    }
    function PropagateFailure(): Status
      requires Fail?
    {
      this
    }
  }

  // ----- Records and their order -----

  predicate SameKind(a: PathState, b: PathState) {
    a.DirState? == b.DirState? && a.FileState? == b.FileState?
  }

  /** The state that gives a record its kind: the removed one for a deletion, else the new one. */
  function KindState(r: Record): Option<PathState> {
    if r.op.Delete? then r.before else r.after
  }

  predicate IsDirRecord(r: Record) {
    KindState(r).Some? && KindState(r).value.DirState?
  }

  function Rank(r: Record): int {
    if r.op.Delete? then (if IsDirRecord(r) then 3 else 2)
    else (if IsDirRecord(r) then 0 else 1)
  }

  function SignedDepth(r: Record): int {
    if r.op.Delete? then -|r.path| else |r.path|
  }

  /** New directories from the top, then new contents, then removals from the bottom. */
  predicate OrderedBefore(a: Record, b: Record) {
    Rank(a) < Rank(b) || (Rank(a) == Rank(b) && SignedDepth(a) <= SignedDepth(b))
  }

  predicate ValidRecord(r: Record) {
    && |r.path| > 0
    && (r.op.Delete? <==> r.after.None?)
    && (r.op.Add? <==> r.before.None?)
    && (r.before.Some? && r.after.Some? ==> SameKind(r.before.value, r.after.value))
    && (r.children.Some? <==> r.op.Delete? && r.before.Some? && r.before.value.DirState?)
  }

  predicate AncestorAllowed(ancestor: Record, r: Record) {
    && IsDirRecord(ancestor)
    && !(ancestor.op.Delete? && !r.op.Delete?)
    && !(ancestor.op.Add? && r.op.Delete?)
  }

  predicate PathsDiffer(rs: seq<Record>, i: int, j: int)
    requires 0 <= i < |rs| && 0 <= j < |rs|
  {
    rs[i].path != rs[j].path
  }

  predicate UniquePaths(rs: seq<Record>) {
    forall i, j {:trigger PathsDiffer(rs, i, j)} :: 0 <= i < j < |rs| ==> PathsDiffer(rs, i, j)
  }

  /** The journal validation of a prepared transaction. */
  predicate ValidPayload(rs: seq<Record>) {
    && (forall i :: 0 <= i < |rs| ==> ValidRecord(rs[i]))
    && UniquePaths(rs)
    && (forall i :: 0 < i < |rs| ==> OrderedBefore(rs[i - 1], rs[i]))
    && (forall i, j {:trigger Below(rs[i].path, rs[j].path)} :: 0 <= i < |rs| && 0 <= j < |rs| && Below(rs[i].path, rs[j].path) ==> AncestorAllowed(rs[j], rs[i]))
    && (forall i :: 0 <= i < |rs| && rs[i].children.Some? ==> rs[i].children.value == RecordedChildren(rs, rs[i].path))
  }

  function RecordedChildren(rs: seq<Record>, p: Path): set<Name> {
    set j | 0 <= j < |rs| && ChildOf(rs[j].path, p) :: rs[j].path[|p|]
  }

  lemma {:induction false} OrderedPairs(rs: seq<Record>, i: int, j: int)
    requires ValidPayload(rs) && 0 <= i < j < |rs|
    ensures OrderedBefore(rs[i], rs[j])
    decreases j - i
  {
    if i + 1 < j {
      OrderedPairs(rs, i, j - 1);
    }
  }

  // ----- Temporaries -----

  function TempOf(tx: nat, rs: seq<Record>, i: nat): Path
    requires i < |rs| && |rs[i].path| > 0
  {
    Parent(rs[i].path) + [Temporary(tx, i)]
  }

  /** No component of a recorded path is a name this transaction generates. */
  predicate Fresh(tx: nat, rs: seq<Record>) {
    forall i, k :: 0 <= i < |rs| && 0 <= k < |rs[i].path| ==> !(rs[i].path[k].Temporary? && rs[i].path[k].tx == tx)
  }

  predicate IsTemp(tx: nat, rs: seq<Record>, p: Path)
    requires ValidPayload(rs)
  {
    exists i :: 0 <= i < |rs| && p == TempOf(tx, rs, i)
  }

  predicate IsTarget(rs: seq<Record>, p: Path) {
    exists i :: 0 <= i < |rs| && p == rs[i].path
  }

  lemma {:induction false} TempsApart(tx: nat, rs: seq<Record>, i: nat, j: nat)
    requires ValidPayload(rs) && Fresh(tx, rs) && i < |rs| && j < |rs|
    ensures i != j ==> TempOf(tx, rs, i) != TempOf(tx, rs, j)
    ensures TempOf(tx, rs, i) != rs[j].path
    ensures !Below(rs[j].path, TempOf(tx, rs, i))
    ensures !ChildOf(rs[j].path, TempOf(tx, rs, i))
  {
    var a, b := TempOf(tx, rs, i), TempOf(tx, rs, j);
    assert a[|a| - 1] == Temporary(tx, i) && b[|b| - 1] == Temporary(tx, j);
    var p := rs[j].path;
    if |a| <= |p| {
      assert p[..|a|][|a| - 1] == p[|a| - 1];
    }
  }

  // ----- The tree while a publication is under way -----

  function NodeOpt(s: Option<PathState>): Option<Node> {
    if s.None? then None else Some(NodeOf(s.value))
  }

  /** A directory created with its private mode but not yet given its own. */
  predicate HalfMade(r: Record, n: Option<Node>) {
    n == Some(Dir(PRIVATE_DIR)) && IsDirRecord(r) && (r.op.Add? || r.op.Delete?)
  }

  /** A new file installed by a hard link whose temporary name still exists. */
  predicate HalfLinked(tx: nat, rs: seq<Record>, i: nat, t: Tree)
    requires ValidPayload(rs) && i < |rs|
  {
    var r, tmp := rs[i], TempOf(tx, rs, i);
    && r.op.Add? && r.after.value.FileState?
    && Get(t, r.path) == Some(NodeOf(r.after.value).(twin := Some(tmp)))
    && Get(t, tmp) == Some(NodeOf(r.after.value).(twin := Some(r.path)))
  }

  predicate TargetOk(tx: nat, rs: seq<Record>, i: nat, t: Tree)
    requires ValidPayload(rs) && i < |rs|
  {
    var n := Get(t, rs[i].path);
    n == NodeOpt(rs[i].before) || n == NodeOpt(rs[i].after) || HalfMade(rs[i], n) || HalfLinked(tx, rs, i, t)
  }

  /** The state a temporary is checked against before it is removed. */
  function Expected(r: Record): PathState
    requires ValidRecord(r)
  {
    if r.after.Some? then r.after.value else r.before.value
  }

  /** The recovery's test of a leftover temporary: its type, its permissions or its link target. */
  predicate SafeTemporary(r: Record, n: Node)
    requires ValidRecord(r)
  {
    var e := Expected(r);
    match n
    case Dir(_) => false
    case File(m, _, _) =>
      e.FileState? && (m == PRIVATE_FILE || m == e.mode || (r.before.Some? && m == r.before.value.mode))
    case Link(x) =>
      e.LinkState? && (x == e.target || (r.before.Some? && x == r.before.value.target))
  }

  predicate TempOk(tx: nat, rs: seq<Record>, i: nat, t: Tree)
    requires ValidPayload(rs) && i < |rs|
  {
    var tmp := TempOf(tx, rs, i);
    tmp in t ==>
      && SafeTemporary(rs[i], t[tmp])
      && (t[tmp].File? && t[tmp].twin.Some? ==> HalfLinked(tx, rs, i, t))
  }

  /** A record's preimage is what an inspection of its path finds. */
  predicate PreimageAt(t0: Tree, rs: seq<Record>, i: nat)
    requires i < |rs| && |rs[i].path| > 0
  {
    StateAt(t0, rs[i].path) == (if rs[i].before.None? then Absent else Present(rs[i].before.value))
  }

  /** The plan: validated records whose preimages are the tree the publication starts from. */
  ghost predicate Plan(tx: nat, rs: seq<Record>, t0: Tree) {
    && Closed(t0) && ValidPayload(rs) && Fresh(tx, rs)
    && (forall i {:trigger PreimageAt(t0, rs, i)} :: 0 <= i < |rs| ==> PreimageAt(t0, rs, i))
    && (forall i :: 0 <= i < |rs| ==> TempOf(tx, rs, i) !in t0)
    && (forall i, c :: 0 <= i < |rs| && rs[i].children.Some? && c in t0 && ChildOf(c, rs[i].path) ==>
          c[|c| - 1] in rs[i].children.value)
  }

  /** Some targets changed, some not, some half done; nothing else touched but temporaries. */
  ghost predicate Midway(tx: nat, rs: seq<Record>, t0: Tree, t: Tree)
    requires ValidPayload(rs)
  {
    && Closed(t)
    && (forall i :: 0 <= i < |rs| ==> TargetOk(tx, rs, i, t) && TempOk(tx, rs, i, t))
    && (forall p :: !IsTarget(rs, p) && !IsTemp(tx, rs, p) ==> Get(t, p) == Get(t0, p))
  }

  ghost predicate NoTemps(tx: nat, rs: seq<Record>, t: Tree)
    requires ValidPayload(rs)
  {
    forall i :: 0 <= i < |rs| ==> TempOf(tx, rs, i) !in t
  }

  // ----- The published tree -----

  function SetTarget(t: Tree, r: Record): Tree {
    if r.after.None? then t - {r.path} else t[r.path := NodeOf(r.after.value)]
  }

  /** The tree with the first `k` records applied. */
  function Applied(t0: Tree, rs: seq<Record>, k: nat): Tree
    requires k <= |rs|
  {
    if k == 0 then t0 else SetTarget(Applied(t0, rs, k - 1), rs[k - 1])
  }

  lemma {:induction false} AppliedAt(t0: Tree, rs: seq<Record>, k: nat)
    requires k <= |rs|
    requires UniquePaths(rs)
    ensures forall i :: 0 <= i < k ==> Get(Applied(t0, rs, k), rs[i].path) == NodeOpt(rs[i].after)
    ensures forall p :: (forall i :: 0 <= i < k ==> rs[i].path != p) ==> Get(Applied(t0, rs, k), p) == Get(t0, p)
  {
    if k > 0 {
      AppliedAt(t0, rs, k - 1);
      forall i | 0 <= i < k - 1
        ensures rs[i].path != rs[k - 1].path
      {
        assert PathsDiffer(rs, i, k - 1);
      }
    }
  }

  lemma {:induction false} SameTree(t: Tree, u: Tree)
    requires forall p :: Get(t, p) == Get(u, p)
    ensures t == u
  {
    forall p {:trigger p in t} {:trigger p in u}
      ensures p in t <==> p in u
    {
      assert Get(t, p) == Get(u, p);
    }
    forall p | p in t
      ensures t[p] == u[p]
    {
      assert Get(t, p) == Get(u, p);
    }
  }

  /** A recorded preimage is the entry itself. */
  lemma {:induction false} BeforeIs(tx: nat, rs: seq<Record>, t0: Tree, i: nat)
    requires Plan(tx, rs, t0) && i < |rs|
    ensures Get(t0, rs[i].path) == NodeOpt(rs[i].before)
  {
    var p := rs[i].path;
    assert PreimageAt(t0, rs, i);
    if p in t0 {
      if |p| > 1 {
        assert Parent(p) in t0 && t0[Parent(p)].Dir?;
      }
      ClosedOpens(t0, p);
    }
  }

  lemma {:induction false} NoTargetIsTemp(tx: nat, rs: seq<Record>, j: nat)
    requires ValidPayload(rs) && Fresh(tx, rs) && j < |rs|
    ensures forall k :: 0 <= k < |rs| ==> rs[k].path != TempOf(tx, rs, j)
  {
    forall k | 0 <= k < |rs|
      ensures rs[k].path != TempOf(tx, rs, j)
    {
      TempsApart(tx, rs, j, k);
    }
  }

  /** A record that is not in progress is wholly applied or wholly untouched. */
  lemma {:induction false} OtherRecord(tx: nat, rs: seq<Record>, t0: Tree, i: nat, j: nat, t: Tree)
    requires Plan(tx, rs, t0) && i < |rs| && j < |rs| && i != j
    requires forall p :: p != rs[i].path && p != TempOf(tx, rs, i) ==> Get(t, p) == Get(Applied(t0, rs, i), p)
    ensures TargetOk(tx, rs, j, t) && TempOk(tx, rs, j, t)
  {
    AppliedAt(t0, rs, i);
    TempsApart(tx, rs, i, j);
    TempsApart(tx, rs, j, i);
    NoTargetIsTemp(tx, rs, j);
    BeforeIs(tx, rs, t0, j);
    assert PathsDiffer(rs, if i < j then i else j, if i < j then j else i);
    if j >= i {
      forall k | 0 <= k < i
        ensures rs[k].path != rs[j].path
      {
        assert PathsDiffer(rs, k, j);
      }
    }
    assert Get(t, TempOf(tx, rs, j)) == Get(t0, TempOf(tx, rs, j)) == None;
  }

  /** Where only record `i` is in progress on top of the first `i` records, the tree is midway. */
  lemma {:induction false} InProgress(tx: nat, rs: seq<Record>, t0: Tree, i: nat, t: Tree)
    requires Plan(tx, rs, t0) && i < |rs| && Closed(t)
    requires forall p :: p != rs[i].path && p != TempOf(tx, rs, i) ==> Get(t, p) == Get(Applied(t0, rs, i), p)
    requires TargetOk(tx, rs, i, t) && TempOk(tx, rs, i, t)
    ensures Midway(tx, rs, t0, t)
  {
    forall j | 0 <= j < |rs|
      ensures TargetOk(tx, rs, j, t) && TempOk(tx, rs, j, t)
    {
      if j != i {
        OtherRecord(tx, rs, t0, i, j, t);
      }
    }
    AppliedAt(t0, rs, i);
  }

  /** With the first `i` records applied, record `i` is untouched and has no temporary. */
  lemma {:induction false} BaseFacts(tx: nat, rs: seq<Record>, t0: Tree, i: nat)
    requires Plan(tx, rs, t0) && i < |rs|
    ensures Get(Applied(t0, rs, i), rs[i].path) == NodeOpt(rs[i].before)
    ensures TempOf(tx, rs, i) !in Applied(t0, rs, i)
    ensures TempOf(tx, rs, i) != rs[i].path && !rs[i].after.Some? ==> rs[i].before.Some?
    ensures Applied(t0, rs, i + 1) == SetTarget(Applied(t0, rs, i), rs[i])
  {
    AppliedAt(t0, rs, i);
    BeforeIs(tx, rs, t0, i);
    NoTargetIsTemp(tx, rs, i);
    forall k | 0 <= k < i
      ensures rs[k].path != rs[i].path
    {
      assert PathsDiffer(rs, k, i);
    }
    assert Get(Applied(t0, rs, i), TempOf(tx, rs, i)) == Get(t0, TempOf(tx, rs, i));
    assert Get(Applied(t0, rs, i), rs[i].path) == Get(t0, rs[i].path);
  }

  /** A temporary beside an untouched target, whatever has been written into it so far. */
  lemma {:induction false} StagedIsMidway(tx: nat, rs: seq<Record>, t0: Tree, i: nat, n: Node)
    requires Plan(tx, rs, t0) && i < |rs|
    requires Closed(Applied(t0, rs, i)[TempOf(tx, rs, i) := n])
    requires SafeTemporary(rs[i], n) && (n.File? ==> n.twin.None?)
    ensures Midway(tx, rs, t0, Applied(t0, rs, i)[TempOf(tx, rs, i) := n])
  {
    BaseFacts(tx, rs, t0, i);
    TempsApart(tx, rs, i, i);
    InProgress(tx, rs, t0, i, Applied(t0, rs, i)[TempOf(tx, rs, i) := n]);
  }

  /** The tree with the new entry under both its temporary and its final name. */
  function Linked(base: Tree, tmp: Path, leaf: Path, s: PathState): Tree {
    match s
    case FileState(m, d) => base[tmp := File(m, d, Some(leaf))][leaf := File(m, d, Some(tmp))]
    case _ => base[tmp := NodeOf(s)][leaf := NodeOf(s)]
  }

  lemma {:induction false} LinkStep(base: Tree, tmp: Path, leaf: Path, s: PathState)
    requires !s.DirState? && tmp != leaf && tmp !in base && leaf !in base
    requires Exec(base[tmp := NodeOf(s)], HardLink(tmp, leaf)).Some?
    ensures Exec(base[tmp := NodeOf(s)], HardLink(tmp, leaf)) == Some(Linked(base, tmp, leaf, s))
    ensures Exec(Linked(base, tmp, leaf, s), Unlink(tmp)) == Some(base[leaf := NodeOf(s)])
  {
    var t := base[tmp := NodeOf(s)];
    if s.FileState? {
      assert t[tmp := File(s.mode, s.data, Some(leaf))] == base[tmp := File(s.mode, s.data, Some(leaf))];
    }
    assert Drop(Linked(base, tmp, leaf, s), tmp) == base[leaf := NodeOf(s)];
  }

  lemma {:induction false} LinkedIsMidway(tx: nat, rs: seq<Record>, t0: Tree, i: nat)
    requires Plan(tx, rs, t0) && i < |rs| && rs[i].op.Add? && !rs[i].after.value.DirState?
    requires Closed(Linked(Applied(t0, rs, i), TempOf(tx, rs, i), rs[i].path, rs[i].after.value))
    ensures Midway(tx, rs, t0, Linked(Applied(t0, rs, i), TempOf(tx, rs, i), rs[i].path, rs[i].after.value))
  {
    BaseFacts(tx, rs, t0, i);
    TempsApart(tx, rs, i, i);
    InProgress(tx, rs, t0, i, Linked(Applied(t0, rs, i), TempOf(tx, rs, i), rs[i].path, rs[i].after.value));
  }

  /** A new directory still at its private mode. */
  lemma {:induction false} HalfMadeIsMidway(tx: nat, rs: seq<Record>, t0: Tree, i: nat)
    requires Plan(tx, rs, t0) && i < |rs| && rs[i].op.Add? && rs[i].after.value.DirState?
    requires Closed(Applied(t0, rs, i)[rs[i].path := Dir(PRIVATE_DIR)])
    ensures Midway(tx, rs, t0, Applied(t0, rs, i)[rs[i].path := Dir(PRIVATE_DIR)])
  {
    BaseFacts(tx, rs, t0, i);
    TempsApart(tx, rs, i, i);
    InProgress(tx, rs, t0, i, Applied(t0, rs, i)[rs[i].path := Dir(PRIVATE_DIR)]);
  }

  lemma {:induction false} RenamedIsApplied(tx: nat, rs: seq<Record>, t0: Tree, i: nat, t: Tree)
    requires Plan(tx, rs, t0) && i < |rs| && rs[i].op.Modify? && !rs[i].after.value.DirState?
    requires t == Applied(t0, rs, i)[TempOf(tx, rs, i) := NodeOf(rs[i].after.value)]
    requires Exec(t, Rename(TempOf(tx, rs, i), rs[i].path)).Some?
    ensures Exec(t, Rename(TempOf(tx, rs, i), rs[i].path)) == Some(Applied(t0, rs, i + 1))
  {
    BaseFacts(tx, rs, t0, i);
    TempsApart(tx, rs, i, i);
    var u := Exec(t, Rename(TempOf(tx, rs, i), rs[i].path)).value;
    assert u == Applied(t0, rs, i + 1);
  }

  lemma {:induction false} AppliedIsMidway(tx: nat, rs: seq<Record>, t0: Tree, k: nat)
    requires Plan(tx, rs, t0) && 0 < k <= |rs| && Closed(Applied(t0, rs, k))
    ensures Midway(tx, rs, t0, Applied(t0, rs, k))
  {
    var i := k - 1;
    BaseFacts(tx, rs, t0, i);
    TempsApart(tx, rs, i, i);
    InProgress(tx, rs, t0, i, Applied(t0, rs, k));
  }

  lemma {:induction false} UntouchedIsMidway(tx: nat, rs: seq<Record>, t0: Tree)
    requires Plan(tx, rs, t0)
    ensures Midway(tx, rs, t0, t0)
  {
    forall i | 0 <= i < |rs|
      ensures TargetOk(tx, rs, i, t0) && TempOk(tx, rs, i, t0)
    {
      BeforeIs(tx, rs, t0, i);
    }
  }

  /** An opened parent directory stays open while entries other than directories come and go. */
  lemma {:induction false} SiblingOpened(tx: nat, rs: seq<Record>, i: nat, t: Tree)
    requires ValidPayload(rs) && i < |rs| && Closed(t)
    ensures OpenParent(t, TempOf(tx, rs, i)) == OpenParent(t, rs[i].path)
  {
    assert Parent(TempOf(tx, rs, i)) == Parent(rs[i].path);
  }

  // ----- Rolling back -----

  /** Changing only one target and its temporary, within what is allowed, keeps the tree midway. */
  lemma {:induction false} AdjustMidway(tx: nat, rs: seq<Record>, t0: Tree, t: Tree, i: nat, u: Tree)
    requires Plan(tx, rs, t0) && i < |rs| && Midway(tx, rs, t0, t) && Closed(u)
    requires forall p :: p != rs[i].path && p != TempOf(tx, rs, i) ==> Get(u, p) == Get(t, p)
    requires TargetOk(tx, rs, i, u) && TempOk(tx, rs, i, u)
    ensures Midway(tx, rs, t0, u)
    ensures forall j :: 0 <= j < |rs| && j != i ==>
              Get(u, rs[j].path) == Get(t, rs[j].path) && Get(u, TempOf(tx, rs, j)) == Get(t, TempOf(tx, rs, j))
  {
    forall j | 0 <= j < |rs| && j != i
      ensures Get(u, rs[j].path) == Get(t, rs[j].path)
      ensures Get(u, TempOf(tx, rs, j)) == Get(t, TempOf(tx, rs, j))
      ensures TargetOk(tx, rs, j, u) && TempOk(tx, rs, j, u)
    {
      TempsApart(tx, rs, i, j);
      TempsApart(tx, rs, j, i);
      assert PathsDiffer(rs, if i < j then i else j, if i < j then j else i);
      assert TargetOk(tx, rs, j, t) && TempOk(tx, rs, j, t);
    }
  }

  /** Dropping a temporary touches at most the file it shares its inode with. */
  lemma {:induction false} UnlinkShape(t: Tree, tmp: Path, leaf: Path)
    requires tmp in t && !t[tmp].Dir? && tmp != leaf
    requires t[tmp].File? && t[tmp].twin.Some? ==> t[tmp].twin == Some(leaf) && leaf in t && t[leaf].File?
    ensures var u := Drop(t, tmp);
            && Exec(t, Unlink(tmp)) == Some(u) && tmp !in u
            && (forall p :: p != tmp && p != leaf ==> Get(u, p) == Get(t, p))
            && Get(u, leaf) == if t[tmp].File? && t[tmp].twin.Some? then Some(t[leaf].(twin := None)) else Get(t, leaf)
  {
  }

  /** A leftover temporary can always be removed, and removing it leaves its target alone. */
  lemma {:induction false} TemporaryRemovable(tx: nat, rs: seq<Record>, t0: Tree, t: Tree, i: nat)
    requires Plan(tx, rs, t0) && i < |rs| && Midway(tx, rs, t0, t) && TempOf(tx, rs, i) in t
    ensures SafeTemporary(rs[i], t[TempOf(tx, rs, i)])
    ensures OpenParent(t, rs[i].path).Opened?
    ensures var u := Drop(t, TempOf(tx, rs, i));
            && Exec(t, Unlink(TempOf(tx, rs, i))) == Some(u) && TempOf(tx, rs, i) !in u
            && Midway(tx, rs, t0, u)
            && (forall j :: 0 <= j < |rs| && TempOf(tx, rs, j) !in t ==> TempOf(tx, rs, j) !in u)
  {
    var tmp := TempOf(tx, rs, i);
    assert TempOk(tx, rs, i, t) && TargetOk(tx, rs, i, t);
    TempsApart(tx, rs, i, i);
    ClosedOpens(t, tmp);
    SiblingOpened(tx, rs, i, t);
    UnlinkShape(t, tmp, rs[i].path);
    ExecKeepsClosed(t, Unlink(tmp));
    AdjustMidway(tx, rs, t0, t, i, Drop(t, tmp));
    forall j | 0 <= j < |rs| && TempOf(tx, rs, j) !in t
      ensures TempOf(tx, rs, j) !in Drop(t, tmp)
    {
      assert Get(t, TempOf(tx, rs, j)).None?;
    }
  }

  /** Below a missing directory there is no temporary to remove. */
  lemma {:induction false} MissingHasNoTemporary(tx: nat, rs: seq<Record>, t: Tree, i: nat)
    requires ValidPayload(rs) && i < |rs| && Closed(t) && OpenParent(t, rs[i].path).Missing?
    ensures TempOf(tx, rs, i) !in t
  {
    SiblingOpened(tx, rs, i, t);
    if TempOf(tx, rs, i) in t {
      ClosedOpens(t, TempOf(tx, rs, i));
    }
  }

  /** All temporaries are gone and the records from `i` on are back in their old state. */
  ghost predicate RolledFrom(tx: nat, rs: seq<Record>, t0: Tree, i: nat, t: Tree)
    requires ValidPayload(rs) && i <= |rs|
  {
    && Midway(tx, rs, t0, t) && NoTemps(tx, rs, t)
    && forall j :: i <= j < |rs| ==> Get(t, rs[j].path) == NodeOpt(rs[j].before)
  }

  lemma {:induction false} RolledBackIsBefore(tx: nat, rs: seq<Record>, t0: Tree, t: Tree)
    requires Plan(tx, rs, t0) && RolledFrom(tx, rs, t0, 0, t)
    ensures t == t0
  {
    forall p
      ensures Get(t, p) == Get(t0, p)
    {
      if IsTarget(rs, p) {
        var i :| 0 <= i < |rs| && p == rs[i].path;
        BeforeIs(tx, rs, t0, i);
      } else if IsTemp(tx, rs, p) {
        var i :| 0 <= i < |rs| && p == TempOf(tx, rs, i);
      }
    }
    SameTree(t, t0);
  }

  /** A prefix of a target is never a temporary, so it is another target or untouched. */
  lemma {:induction false} AncestorView(tx: nat, rs: seq<Record>, t0: Tree, t: Tree, i: nat, k: nat)
    requires Plan(tx, rs, t0) && Midway(tx, rs, t0, t) && i < |rs| && 0 < k < |rs[i].path|
    ensures var a := rs[i].path[..k];
            || (!IsTarget(rs, a) && Get(t, a) == Get(t0, a))
            || (exists j :: 0 <= j < |rs| && rs[j].path == a && AncestorAllowed(rs[j], rs[i])
                  && (Get(t, a).Some? ==> Get(t, a).value.Dir?))
  {
    var a := rs[i].path[..k];
    if IsTarget(rs, a) {
      var j :| 0 <= j < |rs| && a == rs[j].path;
      assert Below(rs[i].path, rs[j].path);
      assert TargetOk(tx, rs, j, t);
    } else if IsTemp(tx, rs, a) {
      var j :| 0 <= j < |rs| && a == TempOf(tx, rs, j);
      TempsApart(tx, rs, j, i);
      assert Below(rs[i].path, a);
    }
  }

  lemma {:induction false} TargetNotBlocked(tx: nat, rs: seq<Record>, t0: Tree, t: Tree, i: nat)
    requires Plan(tx, rs, t0) && Midway(tx, rs, t0, t) && i < |rs|
    ensures !OpenParent(t, rs[i].path).Blocked?
  {
    var p := rs[i].path;
    if OpenParent(t, p).Blocked? {
      var k := BlockedBy(t, p);
      AncestorView(tx, rs, t0, t, i, k);
      assert PreimageAt(t0, rs, i);
      NotBlockedAt(t0, p, k);
      assert false;
    }
  }

  /** With its temporary gone a target is inspected as absent, old, new or half made. */
  lemma {:induction false} TargetSeen(tx: nat, rs: seq<Record>, t0: Tree, t: Tree, i: nat)
    requires Plan(tx, rs, t0) && Midway(tx, rs, t0, t) && NoTemps(tx, rs, t) && i < |rs|
    ensures var n := Get(t, rs[i].path);
            && (n == NodeOpt(rs[i].before) || n == NodeOpt(rs[i].after) || HalfMade(rs[i], n))
            && StateAt(t, rs[i].path) == (if n.None? then Absent else Present(StateOf(n.value)))
            && (n.Some? ==> OpenParent(t, rs[i].path).Opened?)
  {
    TargetNotBlocked(tx, rs, t0, t, i);
    assert TargetOk(tx, rs, i, t) && TempOf(tx, rs, i) !in t;
    if rs[i].path in t {
      ClosedOpens(t, rs[i].path);
    }
  }

  /** A recorded parent of a removed entry is a directory again by the time the entry's turn comes. */
  lemma {:induction false} ParentTarget(tx: nat, rs: seq<Record>, t0: Tree, t: Tree, i: nat, j: nat)
    requires Plan(tx, rs, t0) && i < |rs| && j < |rs| && RolledFrom(tx, rs, t0, i + 1, t)
    requires rs[i].op.Delete? && Below(rs[i].path, rs[j].path)
    ensures Get(t, rs[j].path).Some? && Get(t, rs[j].path).value.Dir?
  {
    assert AncestorAllowed(rs[j], rs[i]) && TargetOk(tx, rs, j, t);
    if rs[j].op.Delete? && j < i {
      OrderedPairs(rs, j, i);
      assert false;
    }
  }

  /** Later records are restored first, so a directory to be re-created finds its parent. */
  lemma {:induction false} ParentRestored(tx: nat, rs: seq<Record>, t0: Tree, t: Tree, i: nat)
    requires Plan(tx, rs, t0) && i < |rs| && RolledFrom(tx, rs, t0, i + 1, t) && rs[i].op.Delete?
    ensures OpenParent(t, rs[i].path).Opened?
  {
    var p := rs[i].path;
    ClosedOpens(t, p);
    if |p| > 1 {
      BeforeIs(tx, rs, t0, i);
      var q := Parent(p);
      assert q in t0 && t0[q].Dir?;
      AncestorView(tx, rs, t0, t, i, |q|);
      if IsTarget(rs, q) {
        var j :| 0 <= j < |rs| && rs[j].path == q;
        ParentTarget(tx, rs, t0, t, i, j);
      }
    }
  }

  lemma {:induction false} KnownEntry(tx: nat, rs: seq<Record>, t0: Tree, t: Tree, c: Path)
    requires ValidPayload(rs) && Midway(tx, rs, t0, t) && NoTemps(tx, rs, t) && c in t
    ensures IsTarget(rs, c) || Get(t, c) == Get(t0, c)
  {
  }

  /** A recorded child of a new directory is an addition, and gone again by the time its parent's turn comes. */
  lemma {:induction false} ChildUndone(tx: nat, rs: seq<Record>, t0: Tree, t: Tree, i: nat, j: nat)
    requires Plan(tx, rs, t0) && i < |rs| && j < |rs| && RolledFrom(tx, rs, t0, i + 1, t)
    requires rs[i].op.Add? && Below(rs[j].path, rs[i].path) && NodeOpt(rs[j].before).None?
    ensures Get(t, rs[j].path).None?
  {
    assert AncestorAllowed(rs[i], rs[j]);
    if j < i {
      OrderedPairs(rs, j, i);
      assert false;
    }
  }

  /** Later records are restored first, so a new directory is empty when its turn comes. */
  lemma {:induction false} NewDirectoryEmpty(tx: nat, rs: seq<Record>, t0: Tree, t: Tree, i: nat)
    requires Plan(tx, rs, t0) && i < |rs| && RolledFrom(tx, rs, t0, i + 1, t)
    requires rs[i].op.Add? && rs[i].path in t && t[rs[i].path].Dir?
    ensures !HasChild(t, rs[i].path)
  {
    BeforeIs(tx, rs, t0, i);
    forall c | c in t && ChildOf(c, rs[i].path)
      ensures c in t0
    {
      KnownEntry(tx, rs, t0, t, c);
      if IsTarget(rs, c) {
        var j :| 0 <= j < |rs| && rs[j].path == c;
        BeforeIs(tx, rs, t0, j);
        assert Below(rs[j].path, rs[i].path);
        if c !in t0 {
          ChildUndone(tx, rs, t0, t, i, j);
        }
      }
    }
    assert forall c :: c in t0 && ChildOf(c, rs[i].path) ==> Parent(c) == rs[i].path;
  }

  /** A directory to be removed holds nothing but children recorded before the publication. */
  lemma {:induction false} ChildrenRecognised(tx: nat, rs: seq<Record>, t0: Tree, t: Tree, i: nat, c: Path)
    requires Plan(tx, rs, t0) && Midway(tx, rs, t0, t) && NoTemps(tx, rs, t) && i < |rs|
    requires rs[i].children.Some? && c in t && ChildOf(c, rs[i].path)
    ensures c[|c| - 1] in rs[i].children.value
  {
    KnownEntry(tx, rs, t0, t, c);
    if IsTarget(rs, c) {
      var j :| 0 <= j < |rs| && rs[j].path == c;
      assert Below(rs[j].path, rs[i].path);
      BeforeIs(tx, rs, t0, j);
    }
    assert c in t0;
  }

  /** Contents of a path without the link bookkeeping. */
  function View(t: Tree, p: Path): Option<PathState> {
    if p in t then Some(StateOf(t[p])) else None
  }

  /** States of a target that a rollback may undo; anything else is left for investigation. */
  predicate Recognised(r: Record, v: Option<PathState>) {
    v == r.after || (v == Some(DirState(PRIVATE_DIR)) && IsDirRecord(r) && (r.op.Add? || r.op.Delete?))
  }

  /** Every file preimage has its backup. */
  predicate BackupsMatch(rs: seq<Record>, backups: map<nat, Bytes>) {
    forall i :: 0 <= i < |rs| && rs[i].before.Some? && rs[i].before.value.FileState? ==>
      i in backups && backups[i] == rs[i].before.value.data
  }

  lemma {:induction false} DropView(t: Tree, p: Path)
    ensures forall q :: q != p ==> View(Drop(t, p), q) == View(t, q)
    ensures View(Drop(t, p), p).None?
  {
  }

  lemma {:induction false} RenameView(t: Tree, a: Path, b: Path)
    requires Exec(t, Rename(a, b)).Some? && a != b
    ensures var u := Exec(t, Rename(a, b)).value;
            && View(u, b) == View(t, a) && a !in u
            && (forall q :: q != a && q != b ==> View(u, q) == View(t, q))
            && (b !in t || !t[b].File? || t[b].twin.None? ==> u == (t - {a})[b := t[a]])
  {
    DropView(t, b);
  }

  /** Putting back record `i` brings the rollback one record further. */
  lemma {:induction false} OneFurther(tx: nat, rs: seq<Record>, t0: Tree, t: Tree, i: nat, u: Tree)
    requires Plan(tx, rs, t0) && i < |rs| && RolledFrom(tx, rs, t0, i + 1, t) && Closed(u)
    requires forall p :: p != rs[i].path && p != TempOf(tx, rs, i) ==> Get(u, p) == Get(t, p)
    requires Get(u, rs[i].path) == NodeOpt(rs[i].before) && TempOf(tx, rs, i) !in u
    ensures RolledFrom(tx, rs, t0, i, u)
  {
    AdjustMidway(tx, rs, t0, t, i, u);
    forall j | 0 <= j < |rs|
      ensures TempOf(tx, rs, j) !in u
    {
      assert j != i ==> Get(u, TempOf(tx, rs, j)) == Get(t, TempOf(tx, rs, j));
    }
  }

  /** A restore in progress: its temporary is half written, or its directory is still private. */
  lemma {:induction false} RestoringIsMidway(tx: nat, rs: seq<Record>, t0: Tree, t: Tree, i: nat, u: Tree)
    requires Plan(tx, rs, t0) && i < |rs| && RolledFrom(tx, rs, t0, i + 1, t) && Closed(u)
    requires
      || (exists n :: u == t[TempOf(tx, rs, i) := n] && SafeTemporary(rs[i], n) && (n.File? ==> n.twin.None?))
      || (u == t[rs[i].path := Dir(PRIVATE_DIR)] && rs[i].op.Delete? && IsDirRecord(rs[i]))
    ensures Midway(tx, rs, t0, u)
  {
    TempsApart(tx, rs, i, i);
    assert TargetOk(tx, rs, i, t) && TempOk(tx, rs, i, t) && TempOf(tx, rs, i) !in t;
    AdjustMidway(tx, rs, t0, t, i, u);
  }

  /** The parent of a target that must come back is open, and the target is not a directory. */
  lemma {:induction false} ReplacementFits(tx: nat, rs: seq<Record>, t0: Tree, t: Tree, i: nat)
    requires Plan(tx, rs, t0) && i < |rs| && RolledFrom(tx, rs, t0, i + 1, t)
    requires rs[i].before.Some? && !rs[i].before.value.DirState?
    requires Get(t, rs[i].path) != NodeOpt(rs[i].before)
    ensures Get(t, rs[i].path) == NodeOpt(rs[i].after)
    ensures OpenParent(t, rs[i].path).Opened? && OpenParent(t, TempOf(tx, rs, i)).Opened?
    ensures TempOf(tx, rs, i) !in t && TempOf(tx, rs, i) != rs[i].path
  {
    TargetSeen(tx, rs, t0, t, i);
    TempsApart(tx, rs, i, i);
    SiblingOpened(tx, rs, i, t);
    if rs[i].op.Delete? {
      ParentRestored(tx, rs, t0, t, i);
    }
  }

  /** A staged replacement: part of the old file, or the old link. */
  predicate Staged(t: Tree, tmp: Path, goal: PathState, u: Tree) {
    && tmp !in t && tmp in u && u == t[tmp := u[tmp]]
    && match goal {
         case DirState(_) => false
         case FileState(m, _) => u[tmp].File? && u[tmp].twin.None? && u[tmp].mode in {PRIVATE_FILE, m}
         case LinkState(x) => u[tmp] == Link(x)
       }
  }

  /** The old contents can be swapped in, and then the target is as before. */
  lemma {:induction false} SwapFits(tx: nat, rs: seq<Record>, t0: Tree, t: Tree, i: nat)
    requires Plan(tx, rs, t0) && i < |rs| && RolledFrom(tx, rs, t0, i + 1, t)
    requires rs[i].before.Some? && !rs[i].before.value.DirState?
    requires Get(t, rs[i].path) != NodeOpt(rs[i].before)
    ensures var goal, tmp, leaf := rs[i].before.value, TempOf(tx, rs, i), rs[i].path;
            && Exec(t[tmp := NodeOf(goal)], Rename(tmp, leaf)) == Some(t[leaf := NodeOf(goal)])
            && StateAt(t[tmp := NodeOf(goal)], leaf) == (if rs[i].after.None? then Absent else Present(rs[i].after.value))
  {
    ReplacementFits(tx, rs, t0, t, i);
    var goal, tmp, leaf := rs[i].before.value, TempOf(tx, rs, i), rs[i].path;
    assert tmp[..|tmp| - 1] == leaf[..|leaf| - 1];
    RenameOver(t, tmp, leaf, goal, rs[i].after);
  }

  /** A staged replacement renamed over its target. */
  lemma {:induction false} RenameOver(t: Tree, tmp: Path, leaf: Path, goal: PathState, after: Option<PathState>)
    requires Closed(t) && |leaf| > 0 && |tmp| == |leaf| && tmp != leaf && tmp !in t && !goal.DirState?
    requires Get(t, leaf) == NodeOpt(after) && (after.Some? ==> !after.value.DirState?)
    requires OpenParent(t, leaf).Opened? && OpenParent(t, tmp).Opened?
    ensures Exec(t[tmp := NodeOf(goal)], Rename(tmp, leaf)) == Some(t[leaf := NodeOf(goal)])
    ensures StateAt(t[tmp := NodeOf(goal)], leaf) == (if after.None? then Absent else Present(after.value))
  {
    var v := t[tmp := NodeOf(goal)];
    OpenElsewhere(t, tmp, NodeOf(goal), leaf);
    OpenElsewhere(t, tmp, NodeOf(goal), tmp);
    RenameView(v, tmp, leaf);
    assert (v - {tmp})[leaf := NodeOf(goal)] == t[leaf := NodeOf(goal)];
  }

  lemma {:induction false} SwapOutcome(tx: nat, rs: seq<Record>, t0: Tree, t: Tree, i: nat, u: Tree)
    requires Plan(tx, rs, t0) && i < |rs| && RolledFrom(tx, rs, t0, i + 1, t) && Closed(u)
    requires rs[i].before.Some? && !rs[i].before.value.DirState?
    requires u == t || Staged(t, TempOf(tx, rs, i), rs[i].before.value, u) || u == t[rs[i].path := NodeOf(rs[i].before.value)]
    ensures Midway(tx, rs, t0, u)
    ensures u == t[rs[i].path := NodeOf(rs[i].before.value)] ==> RolledFrom(tx, rs, t0, i, u)
  {
    TempsApart(tx, rs, i, i);
    if u == t[rs[i].path := NodeOf(rs[i].before.value)] {
      OneFurther(tx, rs, t0, t, i, u);
    } else if u != t {
      var tmp := TempOf(tx, rs, i);
      assert SafeTemporary(rs[i], u[tmp]);
      RestoringIsMidway(tx, rs, t0, t, i, u);
    }
  }

  /** What an inspection reports about a path is what is there. */
  lemma {:induction false} SeenIsView(t: Tree, p: Path)
    requires Closed(t) && |p| > 0
    ensures StateAt(t, p).Absent? ==> View(t, p).None?
    ensures StateAt(t, p).Present? ==> View(t, p) == Some(StateAt(t, p).state)
  {
    ClosedOpens(t, p);
  }

  /** An entry that is not above a path does not change how the path is reached. */
  lemma {:induction false} OpenElsewhere(t: Tree, q: Path, n: Node, p: Path)
    requires !Below(p, q)
    ensures OpenParent(t[q := n], p) == OpenParent(t, p)
  {
    if |p| > 1 {
      assert Parent(p) != q;
      assert forall k :: 0 <= k <= |p| - 1 ==> Parent(p)[..k] == p[..k];
      OpenElsewhere(t, q, n, Parent(p));
    }
  }

  lemma {:induction false} TargetsNotTemps(tx: nat, rs: seq<Record>)
    requires ValidPayload(rs) && Fresh(tx, rs)
    ensures forall j :: 0 <= j < |rs| ==> !IsTemp(tx, rs, rs[j].path)
  {
    forall i, j | 0 <= i < |rs| && 0 <= j < |rs|
      ensures rs[j].path != TempOf(tx, rs, i)
    {
      TempsApart(tx, rs, i, j);
    }
  }

  lemma {:induction false} RecordedChildrenOnly(tx: nat, rs: seq<Record>, t0: Tree, t: Tree, i: nat)
    requires Plan(tx, rs, t0) && Midway(tx, rs, t0, t) && NoTemps(tx, rs, t) && i < |rs|
    requires rs[i].children.Some?
    ensures forall c :: c in t && ChildOf(c, rs[i].path) ==> c[|c| - 1] in rs[i].children.value
  {
    forall c | c in t && ChildOf(c, rs[i].path)
      ensures c[|c| - 1] in rs[i].children.value
    {
      ChildrenRecognised(tx, rs, t0, t, i, c);
    }
  }

  // ----- Progress of a publication -----

  /** The candidate holds what a record is to become. */
  predicate CandidateFits(candidate: Tree, r: Record) {
    r.after.Some? && !r.after.value.DirState? ==>
      && r.path in candidate
      && match r.after.value {
           case DirState(_) => true
           case FileState(_, data) =>
             candidate[r.path].File? && candidate[r.path].twin.None? && candidate[r.path].data == data
           case LinkState(x) => candidate[r.path] == Link(x)
         }
  }

  predicate AllFit(candidate: Tree, rs: seq<Record>) {
    forall i {:trigger CandidateFits(candidate, rs[i])} :: 0 <= i < |rs| ==> CandidateFits(candidate, rs[i])
  }

  lemma {:induction false} AppliedNoTemps(tx: nat, rs: seq<Record>, t0: Tree, k: nat)
    requires Plan(tx, rs, t0) && k <= |rs|
    ensures NoTemps(tx, rs, Applied(t0, rs, k))
  {
    AppliedAt(t0, rs, k);
    forall j | 0 <= j < |rs|
      ensures TempOf(tx, rs, j) !in Applied(t0, rs, k)
    {
      NoTargetIsTemp(tx, rs, j);
      assert Get(Applied(t0, rs, k), TempOf(tx, rs, j)) == Get(t0, TempOf(tx, rs, j));
    }
  }

  /** When a record's turn comes, its path is still in the state the record was captured in. */
  lemma {:induction false} TurnIsLive(tx: nat, rs: seq<Record>, t0: Tree, i: nat)
    requires Plan(tx, rs, t0) && i < |rs| && Midway(tx, rs, t0, Applied(t0, rs, i))
    ensures StateAt(Applied(t0, rs, i), rs[i].path) == (if rs[i].before.None? then Absent else Present(rs[i].before.value))
    ensures rs[i].before.Some? ==> OpenParent(Applied(t0, rs, i), rs[i].path).Opened?
  {
    AppliedNoTemps(tx, rs, t0, i);
    BaseFacts(tx, rs, t0, i);
    TargetSeen(tx, rs, t0, Applied(t0, rs, i), i);
  }

  /** A directory above a record that is not removed is made before it. */
  lemma {:induction false} ParentComesFirst(rs: seq<Record>, i: nat, j: nat)
    requires ValidPayload(rs) && i < |rs| && j < |rs| && |rs[i].path| > 1 && rs[j].path == Parent(rs[i].path)
    requires rs[i].after.Some? && rs[j].after.Some?
    ensures j < i
  {
    assert Below(rs[i].path, rs[j].path);
    assert AncestorAllowed(rs[j], rs[i]);
    if i < j {
      OrderedPairs(rs, i, j);
    }
  }

  /** If the tree with all records applied is one, each record finds its parent directory when its turn comes. */
  lemma {:induction false} TurnIsOpen(tx: nat, rs: seq<Record>, t0: Tree, i: nat)
    requires Plan(tx, rs, t0) && i < |rs| && Midway(tx, rs, t0, Applied(t0, rs, i)) && Closed(Applied(t0, rs, |rs|))
    ensures OpenParent(Applied(t0, rs, i), rs[i].path).Opened?
  {
    TurnIsLive(tx, rs, t0, i);
    var p := rs[i].path;
    if rs[i].before.None? && |p| > 1 {
      var q, t, u := Parent(p), Applied(t0, rs, i), Applied(t0, rs, |rs|);
      AppliedAt(t0, rs, i);
      AppliedAt(t0, rs, |rs|);
      assert Get(u, p) == NodeOpt(rs[i].after);
      assert q in u && u[q].Dir?;
      assert Get(t, q) == Get(u, q) by {
        if IsTarget(rs, q) {
          var j :| 0 <= j < |rs| && q == rs[j].path;
          assert Get(u, q) == NodeOpt(rs[j].after);
          ParentComesFirst(rs, i, j);
        }
      }
      ClosedOpens(t, p);
    }
  }

  /** A temporary beside its target changes nothing about how the target is inspected. */
  lemma {:induction false} StagedAside(tx: nat, rs: seq<Record>, t0: Tree, i: nat)
    requires Plan(tx, rs, t0) && i < |rs| && rs[i].after.Some? && !rs[i].after.value.DirState?
    requires var t := Applied(t0, rs, i);
             && Closed(t) && OpenParent(t, rs[i].path).Opened? && Closed(t[TempOf(tx, rs, i) := NodeOf(rs[i].after.value)])
    ensures var t := Applied(t0, rs, i); var u := t[TempOf(tx, rs, i) := NodeOf(rs[i].after.value)];
            OpenParent(u, rs[i].path).Opened? && StateAt(u, rs[i].path) == StateAt(t, rs[i].path)
  {
    var t := Applied(t0, rs, i);
    BaseFacts(tx, rs, t0, i);
    TempsApart(tx, rs, i, i);
    ClosedOpens(t, rs[i].path);
    ClosedOpens(t[TempOf(tx, rs, i) := NodeOf(rs[i].after.value)], rs[i].path);
  }

  lemma {:induction false} RecordedIsTarget(rs: seq<Record>, p: Path, c: Path)
    requires ChildOf(c, p) && c[|p|] in RecordedChildren(rs, p)
    ensures IsTarget(rs, c)
  {
    var j :| 0 <= j < |rs| && ChildOf(rs[j].path, p) && rs[j].path[|p|] == c[|p|];
    assert c == p + [c[|p|]] && rs[j].path == p + [rs[j].path[|p|]];
  }

  /** Everything directly in a directory to be removed is a record of its own. */
  lemma {:induction false} ChildIsTarget(tx: nat, rs: seq<Record>, t0: Tree, i: nat, c: Path)
    requires Plan(tx, rs, t0) && i < |rs| && rs[i].children.Some? && c in t0 && ChildOf(c, rs[i].path)
    ensures IsTarget(rs, c)
  {
    assert c[|c| - 1] in rs[i].children.value;
    assert rs[i].children.value == RecordedChildren(rs, rs[i].path);
    RecordedIsTarget(rs, rs[i].path, c);
  }

  lemma {:induction false} ChildIsGone(tx: nat, rs: seq<Record>, t0: Tree, i: nat, c: Path)
    requires Plan(tx, rs, t0) && i < |rs| && rs[i].op.Delete? && rs[i].before.value.DirState? && ChildOf(c, rs[i].path)
    ensures c !in Applied(t0, rs, i)
  {
    AppliedAt(t0, rs, i);
    if c in t0 {
      ChildIsTarget(tx, rs, t0, i, c);
    }
    if IsTarget(rs, c) {
      var j :| 0 <= j < |rs| && c == rs[j].path;
      RemovedFirst(rs, i, j);
      assert Get(Applied(t0, rs, i), c) == NodeOpt(rs[j].after);
    } else {
      assert Get(Applied(t0, rs, i), c) == Get(t0, c);
    }
  }

  /** What was recorded below a removed directory is gone when its turn comes, and there was nothing else. */
  lemma {:induction false} TurnIsEmpty(tx: nat, rs: seq<Record>, t0: Tree, i: nat)
    requires Plan(tx, rs, t0) && i < |rs| && rs[i].op.Delete? && rs[i].before.value.DirState?
    ensures !HasChild(Applied(t0, rs, i), rs[i].path)
  {
    forall c | ChildOf(c, rs[i].path)
      ensures c !in Applied(t0, rs, i)
    {
      ChildIsGone(tx, rs, t0, i, c);
    }
  }

  /** What installing a temporary needs of the tree it is staged in. */
  lemma {:induction false} InstallFacts(tx: nat, rs: seq<Record>, t0: Tree, i: nat)
    requires Plan(tx, rs, t0) && i < |rs| && rs[i].after.Some? && !rs[i].after.value.DirState?
    requires var t := Applied(t0, rs, i)[TempOf(tx, rs, i) := NodeOf(rs[i].after.value)]; OpenParent(t, rs[i].path).Opened?
    ensures TempOf(tx, rs, i) != rs[i].path && TempOf(tx, rs, i) !in Applied(t0, rs, i)
    ensures rs[i].before.None? ==> rs[i].path !in Applied(t0, rs, i)
    ensures var t := Applied(t0, rs, i)[TempOf(tx, rs, i) := NodeOf(rs[i].after.value)];
            rs[i].before.Some? ==> Exec(t, Rename(TempOf(tx, rs, i), rs[i].path)) == Some(Applied(t0, rs, i + 1))
  {
    BaseFacts(tx, rs, t0, i);
    TempsApart(tx, rs, i, i);
    if rs[i].before.Some? {
      RenamedIsApplied(tx, rs, t0, i, Applied(t0, rs, i)[TempOf(tx, rs, i) := NodeOf(rs[i].after.value)]);
    }
  }

  /** Wherever the installation stops, the tree is midway; done, it is the next applied tree. */
  lemma {:induction false} InstalledIsMidway(tx: nat, rs: seq<Record>, t0: Tree, i: nat, t: Tree)
    requires Plan(tx, rs, t0) && i < |rs| && rs[i].after.Some? && !rs[i].after.value.DirState? && Closed(t)
    requires var base, tmp, goal := Applied(t0, rs, i), TempOf(tx, rs, i), rs[i].after.value;
             || (t == base[tmp := NodeOf(goal)] && Midway(tx, rs, t0, t))
             || (rs[i].before.None? && t == Linked(base, tmp, rs[i].path, goal))
             || t == base[rs[i].path := NodeOf(goal)]
             || t == Applied(t0, rs, i + 1)
    ensures Midway(tx, rs, t0, t)
    ensures Applied(t0, rs, i + 1) == Applied(t0, rs, i)[rs[i].path := NodeOf(rs[i].after.value)]
  {
    var base, tmp, goal := Applied(t0, rs, i), TempOf(tx, rs, i), rs[i].after.value;
    BaseFacts(tx, rs, t0, i);
    if t == Applied(t0, rs, i + 1) {
      AppliedIsMidway(tx, rs, t0, i + 1);
    } else if rs[i].before.None? && t == Linked(base, tmp, rs[i].path, goal) {
      LinkedIsMidway(tx, rs, t0, i);
    }
  }

  /** The removal of a record whose turn has come is one the kernel accepts. */
  lemma {:induction false} TurnRemoves(tx: nat, rs: seq<Record>, t0: Tree, i: nat)
    requires Plan(tx, rs, t0) && i < |rs| && rs[i].op.Delete?
    ensures var op := if rs[i].before.value.DirState? then Rmdir(rs[i].path) else Unlink(rs[i].path);
            Exec(Applied(t0, rs, i), op) == Some(Applied(t0, rs, i + 1))
  {
    BaseFacts(tx, rs, t0, i);
    if rs[i].before.value.DirState? {
      TurnIsEmpty(tx, rs, t0, i);
    }
  }

  /** Applying a record to a tree in which its parent directory is there gives a tree. */
  lemma {:induction false} NextIsClosed(tx: nat, rs: seq<Record>, t0: Tree, i: nat)
    requires Plan(tx, rs, t0) && i < |rs| && Closed(Applied(t0, rs, i)) && OpenParent(Applied(t0, rs, i), rs[i].path).Opened?
    ensures Closed(Applied(t0, rs, i + 1))
  {
    BaseFacts(tx, rs, t0, i);
    if rs[i].op.Delete? {
      TurnRemoves(tx, rs, t0, i);
      ExecKeepsClosed(Applied(t0, rs, i), if rs[i].before.value.DirState? then Rmdir(rs[i].path) else Unlink(rs[i].path));
    } else {
      PutKeepsClosed(Applied(t0, rs, i), rs[i].path, NodeOf(rs[i].after.value));
    }
  }

  lemma {:induction false} RemovedFirst(rs: seq<Record>, i: nat, j: nat)
    requires ValidPayload(rs) && i < |rs| && j < |rs| && ChildOf(rs[j].path, rs[i].path) && rs[i].op.Delete? && rs[i].before.value.DirState?
    ensures j < i && rs[j].after.None?
  {
    assert Below(rs[j].path, rs[i].path);
    assert AncestorAllowed(rs[i], rs[j]);
    if i < j {
      OrderedPairs(rs, i, j);
    }
  }
}

/**
 Publication of a batch of workspace records and its rollback, step by step.
 A process may stop before any durable step; the rollback turns whatever a stop leaves behind
 back into the tree before the publication.
 */
module WorkspacePublish {
  import opened Common
  import opened WorkspaceTree
  import opened PublishRecords

  const CHUNK := 1048576

  /** The most steps it takes to undo one record. */
  function RecordCost(r: Record): nat {
    3 + if r.before.Some? && r.before.value.FileState? then |r.before.value.data| else 0
  }

  function CostFrom(rs: seq<Record>, i: nat): nat
    requires i <= |rs|
    decreases |rs| - i
  {
    if i == |rs| then 0 else RecordCost(rs[i]) + CostFrom(rs, i + 1)
  }

  lemma {:induction false} CostLess(rs: seq<Record>, i: nat)
    requires i <= |rs|
    ensures CostFrom(rs, i) <= CostFrom(rs, 0)
  {
    if i > 0 {
      CostLess(rs, i - 1);
    }
  }

  /** The most steps a whole rollback takes, with one for each leftover temporary. */
  function RollbackCost(rs: seq<Record>): nat {
    |rs| + CostFrom(rs, 0)
  }

  /** The most steps it takes to apply one record. */
  function ApplyCost(r: Record): nat {
    4 + if r.after.Some? && r.after.value.FileState? then |r.after.value.data| else 0
  }

  /** The most steps it takes to apply the first `k` records. */
  function ApplyCosts(rs: seq<Record>, k: nat): nat
    requires k <= |rs|
  {
    if k == 0 then 0 else ApplyCosts(rs, k - 1) + ApplyCost(rs[k - 1])
  }

  lemma {:induction false} ApplyCostsGrow(rs: seq<Record>, k: nat)
    requires k <= |rs|
    ensures ApplyCosts(rs, k) <= ApplyCosts(rs, |rs|)
    decreases |rs| - k
  {
    if k < |rs| {
      ApplyCostsGrow(rs, k + 1);
    }
  }

  /** When its turn comes, a record finds its parent directory and its contents in the candidate. */
  ghost predicate Ready(rs: seq<Record>, candidate: Tree, t0: Tree, i: nat)
    requires i < |rs|
  {
    Opens(rs, t0, i) && CandidateFits(candidate, rs[i])
  }

  ghost predicate Opens(rs: seq<Record>, t0: Tree, i: nat)
    requires i < |rs|
  {
    OpenParent(Applied(t0, rs, i), rs[i].path).Opened?
  }

  ghost predicate AllReady(rs: seq<Record>, candidate: Tree, t0: Tree) {
    forall i {:trigger Ready(rs, candidate, t0, i)} :: 0 <= i < |rs| ==> Ready(rs, candidate, t0, i)
  }

  lemma {:induction false} AppliedAllMidway(tx: nat, rs: seq<Record>, t0: Tree, k: nat)
    requires Plan(tx, rs, t0) && k <= |rs| && Closed(Applied(t0, rs, k))
    ensures Midway(tx, rs, t0, Applied(t0, rs, k))
  {
    if k == 0 {
      UntouchedIsMidway(tx, rs, t0);
    } else {
      AppliedIsMidway(tx, rs, t0, k);
    }
  }

  /** The result of a publication is a tree exactly when each record finds its parent directory in its turn. */
  lemma {:induction false} ClosedIffOpens(tx: nat, rs: seq<Record>, t0: Tree, k: nat)
    requires Plan(tx, rs, t0) && k <= |rs|
    requires Closed(Applied(t0, rs, |rs|)) || forall i {:trigger Opens(rs, t0, i)} :: 0 <= i < |rs| ==> Opens(rs, t0, i)
    ensures Closed(Applied(t0, rs, k)) && (k < |rs| ==> Opens(rs, t0, k))
  {
    if k > 0 {
      ClosedIffOpens(tx, rs, t0, k - 1);
      NextIsClosed(tx, rs, t0, k - 1);
    }
    AppliedAllMidway(tx, rs, t0, k);
    if k < |rs| && Closed(Applied(t0, rs, |rs|)) {
      TurnIsOpen(tx, rs, t0, k);
    }
  }

  lemma {:induction false} ReadyGivesTree(tx: nat, rs: seq<Record>, candidate: Tree, t0: Tree)
    requires Plan(tx, rs, t0) && AllReady(rs, candidate, t0)
    ensures Closed(Applied(t0, rs, |rs|)) && AllFit(candidate, rs)
  {
    forall i | 0 <= i < |rs|
      ensures Opens(rs, t0, i) && CandidateFits(candidate, rs[i])
    {
      assert Ready(rs, candidate, t0, i);
    }
    ClosedIffOpens(tx, rs, t0, |rs|);
  }

  /** A publication can be applied exactly when its result is a tree and the candidate holds what the records say. */
  lemma {:induction false} AllReadyIff(tx: nat, rs: seq<Record>, candidate: Tree, t0: Tree)
    requires Plan(tx, rs, t0)
    ensures AllReady(rs, candidate, t0) <==> Closed(Applied(t0, rs, |rs|)) && AllFit(candidate, rs)
  {
    if AllReady(rs, candidate, t0) {
      ReadyGivesTree(tx, rs, candidate, t0);
    } else if Closed(Applied(t0, rs, |rs|)) {
      var i :| 0 <= i < |rs| && !Ready(rs, candidate, t0, i);
      ClosedIffOpens(tx, rs, t0, i);
    }
  }

  class Host {
    var tree: Tree
    // Durable steps this process still takes before it stops, for whatever reason.
    var steps: nat

    /** How a call accounts for its steps: it takes at most so many, and is stopped only when none is left. */
    ghost predicate Spent(s: Status, before: nat, most: nat)
      reads this
    {
      steps <= before <= steps + most && (s == Fail(Stopped) ==> steps == 0)
    }

    /** One durable step. */
    method Perform(op: FsOp) returns (s: Status)
      modifies this
      ensures Spent(s, old(steps), 1)
      ensures s.Pass? ==> Exec(old(tree), op) == Some(tree)
      ensures s.Fail? ==> tree == old(tree)
      ensures s == Fail(OsError) ==> Exec(old(tree), op).None?
      ensures s.Fail? ==> s == Fail(OsError) || s == Fail(Stopped)
      ensures Closed(old(tree)) ==> Closed(tree)
    {
      if steps == 0 {
        return Fail(Stopped);
      }
      var next := Exec(tree, op);
      if next.None? {
        return Fail(OsError);
      }
      if Closed(tree) {
        ExecKeepsClosed(tree, op);
      }
      tree, steps := next.value, steps - 1;
      return Pass;
    }

    /** Copies contents into a fresh temporary, chunk by chunk. */
    method CopyInto(p: Path, data: Bytes) returns (s: Status)
      requires p in tree && tree[p].File? && tree[p].twin.None? && tree[p].data == []
      modifies this
      ensures Spent(s, old(steps), |data|)
      ensures p in tree && tree[p].File? && tree[p].twin.None? && tree[p].mode == old(tree)[p].mode
      ensures tree == old(tree)[p := tree[p]]
      ensures s.Pass? ==> tree[p].data == data
      ensures s.Fail? ==> s == Fail(Stopped)
      ensures Closed(old(tree)) ==> Closed(tree)
    {
      var k := 0;
      while k < |data|
        invariant 0 <= k <= |data|
        invariant p in tree && tree[p] == File(old(tree)[p].mode, data[..k], None)
        invariant tree == old(tree)[p := tree[p]]
        invariant Closed(old(tree)) ==> Closed(tree)
        invariant steps <= old(steps) <= steps + k
      {
        var m := if k + CHUNK < |data| then k + CHUNK else |data|;
        assert data[..k] + data[k..m] == data[..m];
        :- Perform(Append(p, data[k..m]));
        k := m;
      }
      return Pass;
    }

    /** Refuses to go on unless the live path is in the recorded state. */
    method AssertLive(p: Path, expected: Option<PathState>, why: Reason) returns (s: Status)
      ensures s.Pass? <==> StateAt(tree, p) == (if expected.None? then Absent else Present(expected.value))
      ensures s.Fail? ==> s == Fail(Invalid) || s == Fail(why)
    {
      var current := StateAt(tree, p);
      if current.Unsafe? {
        return Fail(Invalid);
      }
      if current != (if expected.None? then Absent else Present(expected.value)) {
        return Fail(why);
      }
      return Pass;
    }

    // ----- Applying one record -----

    method ApplyDeletion(tx: nat, rs: seq<Record>, i: nat, ghost t0: Tree) returns (s: Status)
      requires Plan(tx, rs, t0) && i < |rs| && rs[i].op.Delete?
      requires tree == Applied(t0, rs, i) && Closed(tree) && Midway(tx, rs, t0, tree)
      modifies this
      ensures Spent(s, old(steps), 1) && (s.Fail? ==> s == Fail(Stopped))
      ensures s.Pass? ==> tree == Applied(t0, rs, i + 1) && Closed(tree)
      ensures Midway(tx, rs, t0, tree)
    {
      BaseFacts(tx, rs, t0, i);
      TurnIsLive(tx, rs, t0, i);
      s := AssertLive(rs[i].path, rs[i].before, Conflict);
      if s.Fail? {
        return;
      }
      TurnRemoves(tx, rs, t0, i);
      s := Perform(if rs[i].before.value.DirState? then Rmdir(rs[i].path) else Unlink(rs[i].path));
      if s.Pass? {
        AppliedIsMidway(tx, rs, t0, i + 1);
      }
    }

    /** Makes or adjusts one directory; a new one is private until its mode is set. */
    method MakeDirectory(leaf: Path, create: bool, mode: nat) returns (s: Status)
      modifies this
      ensures Spent(s, old(steps), 2)
      ensures Closed(old(tree)) ==> Closed(tree)
      ensures s.Fail? && s.why != Stopped ==>
                if create then Exec(old(tree), Mkdir(leaf, PRIVATE_DIR)).None?
                else !(leaf in old(tree) && old(tree)[leaf].Dir?)
      ensures tree == old(tree) || tree == old(tree)[leaf := Dir(mode)]
           || (create && leaf !in old(tree) && tree == old(tree)[leaf := Dir(PRIVATE_DIR)])
      ensures s.Pass? ==> tree == old(tree)[leaf := Dir(mode)] && (!create ==> leaf in old(tree) && old(tree)[leaf].Dir?)
      ensures tree != old(tree) && !create ==> leaf in old(tree) && old(tree)[leaf].Dir?
    {
      if create {
        :- Perform(Mkdir(leaf, PRIVATE_DIR));
      }
      if leaf !in tree || !tree[leaf].Dir? {
        return Fail(OsError);
      }
      :- Perform(Chmod(leaf, mode));
      return Pass;
    }

    method ApplyDirectory(tx: nat, rs: seq<Record>, i: nat, ghost t0: Tree) returns (s: Status)
      requires Plan(tx, rs, t0) && i < |rs| && !rs[i].op.Delete? && rs[i].after.value.DirState?
      requires tree == Applied(t0, rs, i) && Closed(tree) && OpenParent(tree, rs[i].path).Opened?
      requires Midway(tx, rs, t0, tree)
      modifies this
      ensures Spent(s, old(steps), 2) && (s.Fail? ==> s == Fail(Stopped))
      ensures s.Pass? ==> tree == Applied(t0, rs, i + 1) && Closed(tree)
      ensures Midway(tx, rs, t0, tree)
    {
      BaseFacts(tx, rs, t0, i);
      s := MakeDirectory(rs[i].path, rs[i].before.None?, rs[i].after.value.mode);
      if tree == SetTarget(old(tree), rs[i]) {
        AppliedIsMidway(tx, rs, t0, i + 1);
      } else if tree != old(tree) {
        HalfMadeIsMidway(tx, rs, t0, i);
      }
    }

    /** Installs a finished temporary: a new name is linked and never replaces anything. */
    method InstallTemporary(tx: nat, rs: seq<Record>, i: nat, ghost t0: Tree) returns (s: Status)
      requires Plan(tx, rs, t0) && i < |rs| && rs[i].after.Some? && !rs[i].after.value.DirState?
      requires Closed(tree) && tree == Applied(t0, rs, i)[TempOf(tx, rs, i) := NodeOf(rs[i].after.value)]
      requires Midway(tx, rs, t0, tree) && OpenParent(tree, rs[i].path).Opened?
      modifies this
      ensures Spent(s, old(steps), 2) && (s.Fail? ==> s == Fail(Stopped))
      ensures s.Pass? ==> tree == Applied(t0, rs, i + 1) && Closed(tree)
      ensures Midway(tx, rs, t0, tree)
    {
      InstallFacts(tx, rs, t0, i);
      if rs[i].before.None? {
        s := InstallNew(TempOf(tx, rs, i), rs[i].path, Applied(t0, rs, i), rs[i].after.value);
        InstalledIsMidway(tx, rs, t0, i, tree);
      } else {
        s := Perform(Rename(TempOf(tx, rs, i), rs[i].path));
        InstalledIsMidway(tx, rs, t0, i, tree);
      }
    }

    /** Gives a finished temporary its new name, then drops the old one. */
    method InstallNew(tmp: Path, leaf: Path, ghost t: Tree, ghost goal: PathState) returns (s: Status)
      requires !goal.DirState? && tmp != leaf && tmp !in t && leaf !in t && |leaf| > 0
      requires Closed(tree) && tree == t[tmp := NodeOf(goal)] && OpenParent(tree, leaf).Opened?
      modifies this
      ensures Spent(s, old(steps), 2) && (s.Fail? ==> s == Fail(Stopped))
      ensures Closed(tree)
      ensures if s.Pass? then tree == t[leaf := NodeOf(goal)] else tree == old(tree) || tree == Linked(t, tmp, leaf, goal)
    {
      s := Perform(HardLink(tmp, leaf));
      if s.Fail? {
        return;
      }
      LinkStep(t, tmp, leaf, goal);
      s := Perform(Unlink(tmp));
    }

    /** Writes a temporary with given contents and permissions; it may stop with any part of them. */
    method WriteTemporary(tmp: Path, data: Bytes, expected: Bytes, mode: nat, wrong: Reason) returns (s: Status)
      requires wrong != Stopped
      modifies this
      ensures Spent(s, old(steps), 2 + |data|)
      ensures Closed(old(tree)) ==> Closed(tree)
      ensures tree == old(tree)
           || (tmp !in old(tree) && tmp in tree && tree == old(tree)[tmp := tree[tmp]] && tree[tmp].File? && tree[tmp].twin.None?
               && tree[tmp].mode in {PRIVATE_FILE, mode})
      ensures s.Pass? ==> data == expected && tmp !in old(tree) && tree == old(tree)[tmp := File(mode, data, None)]
      ensures s.Fail? && s.why != Stopped ==>
                (s == Fail(OsError) && Exec(old(tree), Create(tmp)).None?) || (s == Fail(wrong) && data != expected)
    {
      s := Perform(Create(tmp));
      if s.Fail? {
        return;
      }
      assert tree == old(tree)[tmp := File(PRIVATE_FILE, [], None)];
      :- CopyInto(tmp, data);
      assert tree == old(tree)[tmp := File(PRIVATE_FILE, data, None)];
      if data != expected {
        return Fail(wrong);
      }
      :- Perform(Chmod(tmp, mode));
      return Pass;
    }

    /** Stages the contents of a candidate file beside its target. */
    method StageFile(tx: nat, rs: seq<Record>, i: nat, data: Bytes, ghost t0: Tree) returns (s: Status)
      requires Plan(tx, rs, t0) && i < |rs| && !rs[i].op.Delete? && rs[i].after.value.FileState?
      requires tree == Applied(t0, rs, i) && Closed(tree) && OpenParent(tree, rs[i].path).Opened?
      requires Midway(tx, rs, t0, tree)
      modifies this
      ensures Spent(s, old(steps), 2 + |data|)
      ensures Closed(tree) && Midway(tx, rs, t0, tree)
      ensures s.Pass? ==> tree == Applied(t0, rs, i)[TempOf(tx, rs, i) := NodeOf(rs[i].after.value)]
      ensures s.Pass? ==> data == rs[i].after.value.data
      ensures s.Fail? && s.why != Stopped ==> data != rs[i].after.value.data
    {
      BaseFacts(tx, rs, t0, i);
      SiblingOpened(tx, rs, i, tree);
      var goal := rs[i].after.value;
      s := WriteTemporary(TempOf(tx, rs, i), data, goal.data, goal.mode, Invalid);
      if tree != old(tree) {
        StagedIsMidway(tx, rs, t0, i, tree[TempOf(tx, rs, i)]);
      }
    }

    /** Checks the target once more and installs what was staged beside it. */
    method CheckAndInstall(tx: nat, rs: seq<Record>, i: nat, ghost t0: Tree) returns (s: Status)
      requires Plan(tx, rs, t0) && i < |rs| && rs[i].after.Some? && !rs[i].after.value.DirState?
      requires Closed(Applied(t0, rs, i)) && OpenParent(Applied(t0, rs, i), rs[i].path).Opened?
      requires Closed(tree) && tree == Applied(t0, rs, i)[TempOf(tx, rs, i) := NodeOf(rs[i].after.value)]
      requires Midway(tx, rs, t0, tree) && Midway(tx, rs, t0, Applied(t0, rs, i))
      modifies this
      ensures Spent(s, old(steps), 2) && (s.Fail? ==> s == Fail(Stopped))
      ensures s.Pass? ==> tree == Applied(t0, rs, i + 1) && Closed(tree)
      ensures Midway(tx, rs, t0, tree)
    {
      TurnIsLive(tx, rs, t0, i);
      StagedAside(tx, rs, t0, i);
      s := AssertLive(rs[i].path, rs[i].before, Conflict);
      if s.Fail? {
        return;
      }
      s := InstallTemporary(tx, rs, i, t0);
    }

    method ApplyFile(tx: nat, rs: seq<Record>, i: nat, candidate: Tree, ghost t0: Tree) returns (s: Status)
      requires Plan(tx, rs, t0) && i < |rs| && !rs[i].op.Delete? && rs[i].after.value.FileState?
      requires tree == Applied(t0, rs, i) && Closed(tree) && OpenParent(tree, rs[i].path).Opened?
      requires Midway(tx, rs, t0, tree)
      modifies this
      ensures s == Fail(Stopped) ==> steps == 0
      ensures CandidateFits(candidate, rs[i]) ==> Spent(s, old(steps), ApplyCost(rs[i])) && (s.Fail? ==> s == Fail(Stopped))
      ensures s.Pass? ==> tree == Applied(t0, rs, i + 1) && Closed(tree) && CandidateFits(candidate, rs[i])
      ensures Midway(tx, rs, t0, tree)
    {
      var leaf := rs[i].path;
      if leaf !in candidate || !candidate[leaf].File? || candidate[leaf].twin.Some? {
        return Fail(Invalid);
      }
      :- StageFile(tx, rs, i, candidate[leaf].data, t0);
      s := CheckAndInstall(tx, rs, i, t0);
    }

    method ApplyLink(tx: nat, rs: seq<Record>, i: nat, candidate: Tree, ghost t0: Tree) returns (s: Status)
      requires Plan(tx, rs, t0) && i < |rs| && !rs[i].op.Delete? && rs[i].after.value.LinkState?
      requires tree == Applied(t0, rs, i) && Closed(tree) && OpenParent(tree, rs[i].path).Opened?
      requires Midway(tx, rs, t0, tree)
      modifies this
      ensures Spent(s, old(steps), 3)
      ensures CandidateFits(candidate, rs[i]) ==> (s.Fail? ==> s == Fail(Stopped))
      ensures s.Pass? ==> tree == Applied(t0, rs, i + 1) && Closed(tree) && CandidateFits(candidate, rs[i])
      ensures Midway(tx, rs, t0, tree)
    {
      var tmp, leaf := TempOf(tx, rs, i), rs[i].path;
      if leaf !in candidate || candidate[leaf] != NodeOf(rs[i].after.value) {
        return Fail(Invalid);
      }
      BaseFacts(tx, rs, t0, i);
      SiblingOpened(tx, rs, i, tree);
      :- Perform(Symlink(tmp, rs[i].after.value.target));
      StagedIsMidway(tx, rs, t0, i, tree[tmp]);
      s := CheckAndInstall(tx, rs, i, t0);
    }

    /**
     Applies one record; wherever it stops, the tree is one the rollback understands. With its
     parent directory there and the candidate as recorded it can only be stopped.
     */
    method ApplyRecord(tx: nat, rs: seq<Record>, i: nat, candidate: Tree, ghost t0: Tree) returns (s: Status)
      requires Plan(tx, rs, t0) && i < |rs|
      requires tree == Applied(t0, rs, i) && Closed(tree)
      modifies this
      ensures s == Fail(Stopped) ==> steps == 0
      ensures s.Pass? ==> tree == Applied(t0, rs, i + 1) && Closed(tree) && Ready(rs, candidate, t0, i)
      ensures Ready(rs, candidate, t0, i) ==> Spent(s, old(steps), ApplyCost(rs[i])) && (s.Fail? ==> s == Fail(Stopped))
      ensures Midway(tx, rs, t0, tree)
    {
      BaseFacts(tx, rs, t0, i);
      InProgress(tx, rs, t0, i, tree);
      if !OpenParent(tree, rs[i].path).Opened? {
        return Fail(Invalid);
      }
      if rs[i].after.None? {
        s := ApplyDeletion(tx, rs, i, t0);
      } else if rs[i].after.value.DirState? {
        s := ApplyDirectory(tx, rs, i, t0);
      } else if rs[i].after.value.FileState? {
        s := ApplyFile(tx, rs, i, candidate, t0);
      } else {
        s := ApplyLink(tx, rs, i, candidate, t0);
      }
    }

    /** Checks the target of the next record and applies it. */
    method ApplyNext(tx: nat, rs: seq<Record>, i: nat, candidate: Tree, ghost t0: Tree) returns (s: Status)
      requires Plan(tx, rs, t0) && i < |rs|
      requires tree == Applied(t0, rs, i) && Closed(tree)
      modifies this
      ensures s == Fail(Stopped) ==> steps == 0
      ensures s.Pass? ==> tree == Applied(t0, rs, i + 1) && Closed(tree) && Ready(rs, candidate, t0, i)
      ensures Ready(rs, candidate, t0, i) ==> Spent(s, old(steps), ApplyCost(rs[i])) && (s.Fail? ==> s == Fail(Stopped))
      ensures Midway(tx, rs, t0, tree)
    {
      AppliedAllMidway(tx, rs, t0, i);
      TurnIsLive(tx, rs, t0, i);
      s := AssertLive(rs[i].path, rs[i].before, Conflict);
      if s.Pass? {
        s := ApplyRecord(tx, rs, i, candidate, t0);
      }
    }

    /** The first `k` records are applied, each was ready, and this took no more steps than they cost. */
    ghost predicate AppliedSoFar(tx: nat, rs: seq<Record>, k: nat, candidate: Tree, t0: Tree, before: nat)
      requires k <= |rs| && ValidPayload(rs)
      reads this
    {
      && tree == Applied(t0, rs, k) && Closed(tree) && Midway(tx, rs, t0, tree)
      && (forall j {:trigger Ready(rs, candidate, t0, j)} :: 0 <= j < k ==> Ready(rs, candidate, t0, j))
      && steps <= before <= steps + ApplyCosts(rs, k)
    }

    /** Where the mutation phase stops: only when out of steps if every record is ready. */
    ghost predicate StoppedMidway(tx: nat, rs: seq<Record>, candidate: Tree, t0: Tree, before: nat, s: Status)
      requires ValidPayload(rs)
      reads this
    {
      && s.Fail? && Midway(tx, rs, t0, tree) && (s == Fail(Stopped) ==> steps == 0)
      && (AllReady(rs, candidate, t0) ==> Spent(s, before, ApplyCosts(rs, |rs|)) && s == Fail(Stopped))
    }

    method ApplyOneMore(tx: nat, rs: seq<Record>, i: nat, candidate: Tree, ghost t0: Tree, ghost before: nat) returns (s: Status)
      requires Plan(tx, rs, t0) && i < |rs| && AppliedSoFar(tx, rs, i, candidate, t0, before)
      modifies this
      ensures if s.Pass? then AppliedSoFar(tx, rs, i + 1, candidate, t0, before) else StoppedMidway(tx, rs, candidate, t0, before, s)
    {
      ApplyCostsGrow(rs, i + 1);
      s := ApplyNext(tx, rs, i, candidate, t0);
      if s.Fail? && AllReady(rs, candidate, t0) {
        assert Ready(rs, candidate, t0, i);
      }
    }

    /**
     The mutation phase of a publication, between the two durable journal states. With steps to
     spare it completes exactly when every record is ready in its turn.
     */
    method ApplyAll(tx: nat, rs: seq<Record>, candidate: Tree, ghost t0: Tree) returns (s: Status)
      requires Plan(tx, rs, t0) && tree == t0
      modifies this
      ensures if s.Pass? then AppliedSoFar(tx, rs, |rs|, candidate, t0, old(steps)) else StoppedMidway(tx, rs, candidate, t0, old(steps), s)
    {
      UntouchedIsMidway(tx, rs, t0);
      var i := 0;
      while i < |rs|
        invariant 0 <= i <= |rs| && AppliedSoFar(tx, rs, i, candidate, t0, old(steps))
      {
        s := ApplyOneMore(tx, rs, i, candidate, t0, old(steps));
        if s.Fail? {
          return;
        }
        i := i + 1;
      }
      s := Pass;
    }

    // ----- Rolling back -----

    /** A step of the recovery; a refusal by the kernel means the target cannot be restored. */
    method Restore(op: FsOp) returns (s: Status)
      modifies this
      ensures Spent(s, old(steps), 1)
      ensures s.Pass? ==> Exec(old(tree), op) == Some(tree)
      ensures s.Fail? ==> tree == old(tree)
      ensures s == Fail(RecoveryConflict) ==> Exec(old(tree), op).None?
      ensures s.Fail? ==> s == Fail(RecoveryConflict) || s == Fail(Stopped)
      ensures Closed(old(tree)) ==> Closed(tree)
    {
      s := Perform(op);
      if s == Fail(OsError) {
        s := Fail(RecoveryConflict);
      }
    }

    /** Removes a leftover temporary only if it looks like one of this transaction. */
    method RemoveTemporaryIfSafe(tx: nat, rs: seq<Record>, i: nat) returns (s: Status)
      requires ValidPayload(rs) && i < |rs|
      requires Closed(tree)
      modifies this
      ensures Spent(s, old(steps), 1)
      ensures Closed(tree)
      ensures var tmp := TempOf(tx, rs, i);
              && (tree == old(tree) || (tmp in old(tree) && SafeTemporary(rs[i], old(tree)[tmp]) && tree == Drop(old(tree), tmp)))
              && (s.Pass? && !OpenParent(old(tree), rs[i].path).Missing? ==> tmp !in tree)
              && (s.Fail? && s.why != Stopped ==>
                    || OpenParent(old(tree), rs[i].path).Blocked?
                    || (tmp in old(tree) && !SafeTemporary(rs[i], old(tree)[tmp])))
    {
      var tmp := TempOf(tx, rs, i);
      DropView(tree, tmp);
      match OpenParent(tree, rs[i].path) {
        case Missing => return Pass;
        case Blocked => return Fail(Invalid);
        case Opened =>
      }
      if tmp !in tree {
        return Pass;
      }
      if !SafeTemporary(rs[i], tree[tmp]) {
        return Fail(RecoveryConflict);
      }
      s := Restore(Unlink(tmp));
    }

    method RemoveTemporaries(tx: nat, rs: seq<Record>, ghost t0: Tree, ghost quiet: bool) returns (s: Status)
      requires ValidPayload(rs) && Fresh(tx, rs)
      requires quiet ==> Plan(tx, rs, t0) && Midway(tx, rs, t0, tree)
      requires Closed(tree)
      modifies this
      ensures Spent(s, old(steps), |rs|)
      ensures Closed(tree)
      ensures forall p :: !IsTemp(tx, rs, p) ==> View(tree, p) == View(old(tree), p)
      ensures quiet ==> Midway(tx, rs, t0, tree) && (s.Pass? ==> NoTemps(tx, rs, tree)) && (s.Fail? ==> s == Fail(Stopped))
    {
      var i := 0;
      while i < |rs|
        invariant 0 <= i <= |rs| && Closed(tree)
        invariant forall p :: !IsTemp(tx, rs, p) ==> View(tree, p) == View(old(tree), p)
        invariant quiet ==> Midway(tx, rs, t0, tree) && forall j :: 0 <= j < i ==> TempOf(tx, rs, j) !in tree
        invariant steps <= old(steps) <= steps + i
      {
        ghost var t := tree;
        DropView(t, TempOf(tx, rs, i));
        if quiet {
          TargetNotBlocked(tx, rs, t0, t, i);
          if OpenParent(t, rs[i].path).Missing? {
            MissingHasNoTemporary(tx, rs, t, i);
          }
          if TempOf(tx, rs, i) in t {
            TemporaryRemovable(tx, rs, t0, t, i);
          }
        }
        :- RemoveTemporaryIfSafe(tx, rs, i);
        i := i + 1;
      }
      return Pass;
    }

    /** Undoes an addition; a new directory must be empty. */
    method RemoveNew(tx: nat, rs: seq<Record>, i: nat, ghost t0: Tree, ghost quiet: bool) returns (s: Status)
      requires ValidPayload(rs) && Fresh(tx, rs) && i < |rs| && rs[i].op.Add?
      requires quiet ==> Plan(tx, rs, t0) && RolledFrom(tx, rs, t0, i + 1, tree) && rs[i].path in tree
      requires Closed(tree)
      modifies this
      ensures Spent(s, old(steps), 1)
      ensures Closed(tree)
      ensures forall p :: p != rs[i].path ==> View(tree, p) == View(old(tree), p)
      ensures quiet ==> Midway(tx, rs, t0, tree)
      ensures quiet ==> (s.Pass? ==> RolledFrom(tx, rs, t0, i, tree)) && (s.Fail? ==> s == Fail(Stopped))
    {
      var leaf := rs[i].path;
      DropView(tree, leaf);
      if quiet {
        TargetSeen(tx, rs, t0, tree, i);
      }
      if leaf !in tree {
        return Fail(RecoveryConflict);
      }
      if tree[leaf].Dir? {
        if quiet {
          NewDirectoryEmpty(tx, rs, t0, tree, i);
        }
        if HasChild(tree, leaf) {
          return Fail(RecoveryConflict);
        }
        :- Restore(Rmdir(leaf));
      } else {
        :- Restore(Unlink(leaf));
      }
      if quiet {
        assert tree == old(tree) - {leaf};
        OneFurther(tx, rs, t0, old(tree), i, tree);
      }
      return Pass;
    }

    /** Gives a directory its old mode back, making it first through its private mode if it is gone. */
    method ReviveDirectory(leaf: Path, create: bool, mode: nat) returns (s: Status)
      requires Closed(tree)
      modifies this
      ensures Spent(s, old(steps), 2)
      ensures Closed(tree)
      ensures tree == old(tree) || tree == old(tree)[leaf := Dir(mode)]
           || (create && leaf !in old(tree) && tree == old(tree)[leaf := Dir(PRIVATE_DIR)])
      ensures s.Pass? ==> tree == old(tree)[leaf := Dir(mode)]
      ensures s.Fail? && s.why != Stopped ==>
                if create && leaf !in old(tree) then Exec(old(tree), Mkdir(leaf, PRIVATE_DIR)).None?
                else !(leaf in old(tree) && old(tree)[leaf].Dir?)
                     || (create && StateAt(old(tree), leaf) != Present(DirState(PRIVATE_DIR)))
    {
      if create {
        if leaf !in tree {
          :- Restore(Mkdir(leaf, PRIVATE_DIR));
        } else if StateAt(tree, leaf) != Present(DirState(PRIVATE_DIR)) {
          return Fail(RecoveryConflict);
        }
      }
      if leaf !in tree || !tree[leaf].Dir? {
        return Fail(RecoveryConflict);
      }
      :- Restore(Chmod(leaf, mode));
      return Pass;
    }

    method RestoreDirectory(tx: nat, rs: seq<Record>, i: nat, ghost t0: Tree, ghost quiet: bool) returns (s: Status)
      requires ValidPayload(rs) && Fresh(tx, rs) && i < |rs|
      requires rs[i].before.Some? && rs[i].before.value.DirState?
      requires quiet ==> Plan(tx, rs, t0) && RolledFrom(tx, rs, t0, i + 1, tree)
      requires quiet ==> Get(tree, rs[i].path) != NodeOpt(rs[i].before)
      requires Closed(tree)
      modifies this
      ensures Spent(s, old(steps), 2)
      ensures Closed(tree)
      ensures forall p :: p != rs[i].path ==> View(tree, p) == View(old(tree), p)
      ensures quiet ==> Midway(tx, rs, t0, tree)
      ensures quiet ==> (s.Pass? ==> RolledFrom(tx, rs, t0, i, tree)) && (s.Fail? ==> s == Fail(Stopped))
    {
      var leaf := rs[i].path;
      if quiet {
        TargetSeen(tx, rs, t0, tree, i);
        TempsApart(tx, rs, i, i);
        if rs[i].op.Delete? {
          ParentRestored(tx, rs, t0, tree, i);
        }
      }
      s := ReviveDirectory(leaf, rs[i].after.None?, rs[i].before.value.mode);
      if quiet {
        if tree == old(tree)[leaf := NodeOf(rs[i].before.value)] {
          OneFurther(tx, rs, t0, old(tree), i, tree);
        } else if tree != old(tree) {
          RestoringIsMidway(tx, rs, t0, old(tree), i, tree);
        }
      }
    }

    /** Stages an old file or link beside its target and swaps it in. */
    method SwapIn(leaf: Path, tmp: Path, goal: PathState, backup: Bytes, expected: Option<PathState>) returns (s: Status)
      requires Closed(tree) && |leaf| > 0 && |tmp| > 0 && tmp != leaf && !Below(leaf, tmp) && !goal.DirState?
      modifies this
      ensures Spent(s, old(steps), 3 + |backup|)
      ensures Closed(tree)
      ensures tree == old(tree) || Staged(old(tree), tmp, goal, tree)
           || (tmp !in old(tree) && Exec(old(tree)[tmp := NodeOf(goal)], Rename(tmp, leaf)) == Some(tree))
      ensures s.Pass? ==> tmp !in old(tree) && Exec(old(tree)[tmp := NodeOf(goal)], Rename(tmp, leaf)) == Some(tree)
      ensures goal.FileState? && View(tree, leaf) != View(old(tree), leaf) ==> View(old(tree), leaf) == expected
      ensures forall p :: p != leaf && p != tmp ==> View(tree, p) == View(old(tree), p)
      ensures s.Fail? && s.why != Stopped ==>
                || !OpenParent(old(tree), tmp).Opened? || tmp in old(tree)
                || (goal.FileState? && backup != goal.data)
                || (goal.FileState? && StateAt(old(tree)[tmp := NodeOf(goal)], leaf) != (if expected.None? then Absent else Present(expected.value)))
                || Exec(old(tree)[tmp := NodeOf(goal)], Rename(tmp, leaf)).None?
    {
      if goal.FileState? {
        :- WriteTemporary(tmp, backup, goal.data, goal.mode, Invalid);
        :- AssertLive(leaf, expected, RecoveryConflict);
        SeenIsView(tree, leaf);
      } else {
        :- Restore(Symlink(tmp, goal.target));
      }
      assert tree == old(tree)[tmp := NodeOf(goal)];
      ghost var staged := tree;
      :- Restore(Rename(tmp, leaf));
      RenameView(staged, tmp, leaf);
      return Pass;
    }

    /** Copies the backup beside the target and swaps it in while the target is still the new one. */
    method RestoreContent(tx: nat, rs: seq<Record>, i: nat, backups: map<nat, Bytes>, ghost t0: Tree, ghost quiet: bool)
      returns (s: Status)
      requires ValidPayload(rs) && Fresh(tx, rs) && i < |rs|
      requires rs[i].before.Some? && !rs[i].before.value.DirState?
      requires quiet ==> Plan(tx, rs, t0) && RolledFrom(tx, rs, t0, i + 1, tree) && BackupsMatch(rs, backups)
      requires quiet ==> Get(tree, rs[i].path) != NodeOpt(rs[i].before)
      requires View(tree, rs[i].path) == rs[i].after
      requires Closed(tree)
      modifies this
      ensures Spent(s, old(steps), RecordCost(rs[i]))
      ensures Closed(tree)
      ensures forall p :: p != rs[i].path && p != TempOf(tx, rs, i) ==> View(tree, p) == View(old(tree), p)
      ensures quiet ==> Midway(tx, rs, t0, tree)
      ensures quiet ==> (s.Pass? ==> RolledFrom(tx, rs, t0, i, tree)) && (s.Fail? ==> s == Fail(Stopped))
    {
      var leaf, tmp := rs[i].path, TempOf(tx, rs, i);
      var goal := rs[i].before.value;
      TempsApart(tx, rs, i, i);
      var backup: Bytes := [];
      if goal.FileState? {
        if i !in backups || |backups[i]| != |goal.data| {
          return Fail(Invalid);
        }
        backup := backups[i];
      }
      if quiet {
        ReplacementFits(tx, rs, t0, tree, i);
        SwapFits(tx, rs, t0, tree, i);
      }
      s := SwapIn(leaf, tmp, goal, backup, rs[i].after);
      if quiet {
        SwapOutcome(tx, rs, t0, old(tree), i, tree);
      }
    }

    /** Undoes one record, or refuses because its target is in a state this transaction never makes. */
    method RollbackRecord(tx: nat, rs: seq<Record>, i: nat, backups: map<nat, Bytes>, ghost t0: Tree, ghost quiet: bool)
      returns (s: Status)
      requires ValidPayload(rs) && Fresh(tx, rs) && i < |rs|
      requires quiet ==> Plan(tx, rs, t0) && RolledFrom(tx, rs, t0, i + 1, tree) && BackupsMatch(rs, backups)
      requires Closed(tree)
      modifies this
      ensures Spent(s, old(steps), RecordCost(rs[i]))
      ensures Closed(tree)
      ensures forall p :: p != rs[i].path && p != TempOf(tx, rs, i) ==> View(tree, p) == View(old(tree), p)
      ensures View(tree, rs[i].path) != View(old(tree), rs[i].path) ==> Recognised(rs[i], View(old(tree), rs[i].path))
      ensures quiet ==> Midway(tx, rs, t0, tree)
      ensures quiet ==> (s.Pass? ==> RolledFrom(tx, rs, t0, i, tree)) && (s.Fail? ==> s == Fail(Stopped))
    {
      var r := rs[i];
      if quiet {
        TargetSeen(tx, rs, t0, tree, i);
      }
      SeenIsView(tree, r.path);
      var current := StateAt(tree, r.path);
      if current.Unsafe? {
        return Fail(Invalid);
      }
      if r.children.Some? && current.Present? {
        if !current.state.DirState? {
          return Fail(Invalid);
        }
        if quiet {
          RecordedChildrenOnly(tx, rs, t0, tree, i);
        }
        if exists c :: c in tree && ChildOf(c, r.path) && c[|c| - 1] !in r.children.value {
          return Fail(RecoveryConflict);
        }
      }
      if current == (if r.before.None? then Absent else Present(r.before.value)) {
        if quiet {
          OneFurther(tx, rs, t0, tree, i, tree);
        }
        return Pass;
      }
      if !Recognised(r, View(tree, r.path)) {
        return Fail(RecoveryConflict);
      }
      if r.before.None? {
        s := RemoveNew(tx, rs, i, t0, quiet);
      } else if r.before.value.DirState? {
        s := RestoreDirectory(tx, rs, i, t0, quiet);
      } else {
        s := RestoreContent(tx, rs, i, backups, t0, quiet);
      }
    }

    /** Rolls back one record and leaves every other target as it is. */
    method RollbackOnly(tx: nat, rs: seq<Record>, i: nat, backups: map<nat, Bytes>, ghost t0: Tree, ghost quiet: bool)
      returns (s: Status)
      requires ValidPayload(rs) && Fresh(tx, rs) && i < |rs|
      requires quiet ==> Plan(tx, rs, t0) && RolledFrom(tx, rs, t0, i + 1, tree) && BackupsMatch(rs, backups)
      requires Closed(tree)
      modifies this
      ensures Spent(s, old(steps), RecordCost(rs[i]))
      ensures Closed(tree)
      ensures forall p :: !IsTemp(tx, rs, p) && !IsTarget(rs, p) ==> View(tree, p) == View(old(tree), p)
      ensures forall j :: 0 <= j < |rs| && j != i ==> View(tree, rs[j].path) == View(old(tree), rs[j].path)
      ensures !Recognised(rs[i], View(old(tree), rs[i].path)) ==> View(tree, rs[i].path) == View(old(tree), rs[i].path)
      ensures quiet ==> Midway(tx, rs, t0, tree)
      ensures quiet ==> (s.Pass? ==> RolledFrom(tx, rs, t0, i, tree)) && (s.Fail? ==> s == Fail(Stopped))
    {
      ghost var t := tree;
      s := RollbackRecord(tx, rs, i, backups, t0, quiet);
      forall j | 0 <= j < |rs| && j != i
        ensures View(tree, rs[j].path) == View(t, rs[j].path)
      {
        TempsApart(tx, rs, i, j);
        assert PathsDiffer(rs, if i < j then i else j, if i < j then j else i);
      }
    }

    /** With the records from `i` on done, everything else and every target not recognised is as it was. */
    ghost predicate OthersKept(tx: nat, rs: seq<Record>, i: nat, t: Tree)
      requires ValidPayload(rs) && i <= |rs|
      reads this
    {
      && (forall p :: !IsTemp(tx, rs, p) && !IsTarget(rs, p) ==> View(tree, p) == View(t, p))
      && (forall j :: 0 <= j < i ==> View(tree, rs[j].path) == View(t, rs[j].path))
      && (forall j :: i <= j < |rs| && !Recognised(rs[j], View(t, rs[j].path)) ==> View(tree, rs[j].path) == View(t, rs[j].path))
    }

    /** Undoes the next record in reverse order. */
    method RollbackNext(tx: nat, rs: seq<Record>, i: nat, backups: map<nat, Bytes>, ghost t0: Tree, ghost t: Tree, ghost quiet: bool)
      returns (s: Status)
      requires ValidPayload(rs) && Fresh(tx, rs) && i < |rs| && OthersKept(tx, rs, i + 1, t)
      requires quiet ==> Plan(tx, rs, t0) && RolledFrom(tx, rs, t0, i + 1, tree) && BackupsMatch(rs, backups)
      requires Closed(tree)
      modifies this
      ensures Spent(s, old(steps), RecordCost(rs[i]))
      ensures Closed(tree) && OthersKept(tx, rs, i, t)
      ensures quiet ==> Midway(tx, rs, t0, tree)
      ensures quiet ==> (s.Pass? ==> RolledFrom(tx, rs, t0, i, tree)) && (s.Fail? ==> s == Fail(Stopped))
    {
      s := RollbackOnly(tx, rs, i, backups, t0, quiet);
    }

    /** Undoes the records in reverse order. */
    method RollbackTargets(tx: nat, rs: seq<Record>, backups: map<nat, Bytes>, ghost t0: Tree, ghost quiet: bool)
      returns (s: Status)
      requires ValidPayload(rs) && Fresh(tx, rs)
      requires quiet ==> Plan(tx, rs, t0) && RolledFrom(tx, rs, t0, |rs|, tree) && BackupsMatch(rs, backups)
      requires Closed(tree)
      modifies this
      ensures Spent(s, old(steps), CostFrom(rs, 0))
      ensures Closed(tree)
      ensures forall p :: !IsTemp(tx, rs, p) && !IsTarget(rs, p) ==> View(tree, p) == View(old(tree), p)
      ensures forall j :: 0 <= j < |rs| && !Recognised(rs[j], View(old(tree), rs[j].path)) ==>
                View(tree, rs[j].path) == View(old(tree), rs[j].path)
      ensures quiet ==> Midway(tx, rs, t0, tree)
      ensures quiet ==> (s.Pass? ==> RolledFrom(tx, rs, t0, 0, tree)) && (s.Fail? ==> s == Fail(Stopped))
    {
      var i := |rs|;
      while i > 0
        invariant 0 <= i <= |rs| && Closed(tree) && OthersKept(tx, rs, i, old(tree))
        invariant quiet ==> RolledFrom(tx, rs, t0, i, tree)
        invariant steps <= old(steps) <= steps + CostFrom(rs, i)
      {
        i := i - 1;
        s := RollbackNext(tx, rs, i, backups, t0, old(tree), quiet);
        CostLess(rs, i);
        if s.Fail? {
          return;
        }
      }
      return Pass;
    }

    /**
     The rollback of a prepared transaction. Started in a tree a publication or an earlier
     rollback left behind, it can only be stopped, never refused, and when it completes the tree
     is the one before the publication; with steps to spare it does complete. In any other tree it
     leaves every target it does not recognise, and everything that is neither target nor
     temporary, as it is.
     */
    method RollbackRecords(tx: nat, rs: seq<Record>, backups: map<nat, Bytes>, ghost t0: Tree, ghost quiet: bool)
      returns (s: Status)
      requires ValidPayload(rs) && Fresh(tx, rs)
      requires quiet ==> Plan(tx, rs, t0) && Midway(tx, rs, t0, tree) && BackupsMatch(rs, backups)
      requires Closed(tree)
      modifies this
      ensures Spent(s, old(steps), RollbackCost(rs))
      ensures Closed(tree)
      ensures forall p :: !IsTemp(tx, rs, p) && !IsTarget(rs, p) ==> View(tree, p) == View(old(tree), p)
      ensures forall j :: 0 <= j < |rs| && !Recognised(rs[j], View(old(tree), rs[j].path)) ==>
                View(tree, rs[j].path) == View(old(tree), rs[j].path)
      ensures quiet ==> Midway(tx, rs, t0, tree)
      ensures quiet ==> (s.Pass? ==> tree == t0) && (s.Fail? ==> s == Fail(Stopped))
      ensures quiet && old(steps) > RollbackCost(rs) ==> s.Pass?
    {
      TargetsNotTemps(tx, rs);
      :- RemoveTemporaries(tx, rs, t0, quiet);
      :- RollbackTargets(tx, rs, backups, t0, quiet);
      if quiet {
        RolledBackIsBefore(tx, rs, t0, tree);
      }
      return Pass;
    }

    /**
     Recovery after recovery, each with its own number of steps before it stops: the first one
     that completes has restored the tree, and until then every stop leaves a tree the next
     one can continue from.
     */
    method RecoverRepeatedly(tx: nat, rs: seq<Record>, backups: map<nat, Bytes>, budgets: seq<nat>, ghost t0: Tree)
      returns (completed: bool)
      requires Plan(tx, rs, t0) && Midway(tx, rs, t0, tree) && BackupsMatch(rs, backups)
      modifies this
      ensures Midway(tx, rs, t0, tree)
      ensures completed ==> tree == t0
      ensures (exists b :: b in budgets && b > RollbackCost(rs)) ==> completed
    {
      ghost var cost := RollbackCost(rs);
      for k := 0 to |budgets|
        invariant Midway(tx, rs, t0, tree)
        invariant forall j :: 0 <= j < k ==> budgets[j] <= cost
      {
        steps := budgets[k];
        var s := RollbackRecords(tx, rs, backups, t0, true);
        if s.Pass? {
          return true;
        }
      }
      return false;
    }

    /** Publication stopped anywhere, then any number of recoveries. */
    method PublishThenRecover(tx: nat, rs: seq<Record>, candidate: Tree, backups: map<nat, Bytes>,
                              publishSteps: nat, budgets: seq<nat>) returns (published: bool, recovered: bool)
      requires Plan(tx, rs, tree) && BackupsMatch(rs, backups)
      modifies this
      ensures published ==> tree == Applied(old(tree), rs, |rs|)
      ensures publishSteps > ApplyCosts(rs, |rs|) ==> (published <==> Closed(Applied(old(tree), rs, |rs|)) && AllFit(candidate, rs))
      ensures !published && recovered ==> tree == old(tree)
      ensures !published && (exists b :: b in budgets && b > RollbackCost(rs)) ==> recovered
    {
      steps := publishSteps;
      AllReadyIff(tx, rs, candidate, tree);
      var s := ApplyAll(tx, rs, candidate, old(tree));
      if s.Pass? {
        return true, false;
      }
      recovered := RecoverRepeatedly(tx, rs, backups, budgets, old(tree));
      published := false;
    }
  }
}

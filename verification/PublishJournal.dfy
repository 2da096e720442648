/**
 The transaction journal around a publication: staging, prepared, committed, recovery and
 acknowledgement. Every journal write and every workspace change is one step of the host, so a
 process may stop between any two of them.
 */
module PublishJournal {
  import opened Common
  import opened WorkspaceTree
  import opened PublishRecords
  import opened WorkspacePublish

  datatype Phase = Preparing | Prepared | Committed | RolledBack | NotStarted

  datatype Payload = Payload(phase: Phase, retain: bool, manifest: nat, generation: nat, records: seq<Record>)

  datatype Stage = Staging | Publishing | Acknowledged

  datatype TxName = TxName(stage: Stage, id: nat)

  /** A transaction directory: the schema marker, the state file and the backups. */
  datatype TxDir = TxDir(marker: bool, payload: Option<Payload>, backups: Option<map<nat, Bytes>>)

  type Journal = map<TxName, TxDir>

  datatype Outcome = WasNotStarted | WasRolledBack | WasCommitted

  predicate Pending(n: TxName) {
    !n.stage.Acknowledged?
  }

  // ----- What a recovery makes of one directory -----

  datatype Verdict = Investigate | Report(outcome: Outcome)

  /** The outcome a recovery reports for a directory, once it has undone a prepared one. */
  function VerdictOf(n: TxName, d: TxDir): Verdict {
    match d.payload
    case None => if n.stage.Staging? || d.marker then Investigate else Report(WasNotStarted)
    case Some(p) =>
      match p.phase
      case Prepared => Report(WasRolledBack)
      case Preparing => Report(WasNotStarted)
      case NotStarted => Report(WasNotStarted)
      case RolledBack => Report(WasRolledBack)
      case Committed => Report(WasCommitted)
  }

  /** The journal's own validation of a state file, against the current lease generation. */
  predicate AcceptedPayload(n: TxName, p: Payload, generation: nat) {
    && (n.stage.Staging? ==> p.phase.Preparing? || p.phase.NotStarted?)
    && 1 <= p.generation <= generation
    && (p.phase.Preparing? || p.phase.NotStarted? ==> p.records == [])
    && ValidPayload(p.records)
  }

  /** A directory with a state file, moved to another phase. */
  function Settled(d: TxDir, phase: Phase): TxDir
    requires d.payload.Some?
  {
    d.(payload := Some(d.payload.value.(phase := phase)))
  }

  // ----- Removing a transaction directory -----

  datatype Part = Marker | State | Backups

  function Without(d: TxDir, part: Part): TxDir {
    match part
    case Marker => d.(marker := false)
    case State => d.(payload := None)
    case Backups => d.(backups := None)
  }

  /** What is left of a directory after its entries were removed in the given order. */
  function Strip(d: TxDir, parts: seq<Part>): TxDir
    decreases |parts|
  {
    if parts == [] then d else Strip(Without(d, parts[0]), parts[1..])
  }

  lemma {:induction false} StripOneMore(d: TxDir, parts: seq<Part>, k: nat)
    requires k < |parts|
    ensures Strip(d, parts[..k + 1]) == Without(Strip(d, parts[..k]), parts[k])
    decreases k
  {
    if k == 0 {
      assert parts[..1] == [parts[0]];
      assert parts[..1][1..] == [];
      assert parts[..0] == [];
    } else {
      StripOneMore(Without(d, parts[0]), parts[1..], k - 1);
      assert parts[1..][..k] == parts[..k + 1][1..];
      assert parts[1..][..k - 1] == parts[..k][1..];
    }
  }

  /** Whether the publisher and the recovery remove the directory of a settled transaction. */
  predicate CleansUp(p: Payload) {
    !p.retain && p.phase.Committed?
  }

  /** Entries that may be gone from a pending directory when its cleanup stops. */
  predicate MayBeStripped(p: Payload, parts: seq<Part>) {
    parts == [] || CleansUp(p)
  }

  lemma {:induction false} StripPayload(d: TxDir, parts: seq<Part>)
    ensures Strip(d, parts).payload == d.payload || Strip(d, parts).payload.None?
    decreases |parts|
  {
    if parts != [] {
      StripPayload(Without(d, parts[0]), parts[1..]);
    }
  }

  /**
   Stopping the cleanup of a committed publication may leave its directory without the state
   file and the schema marker, and a later recovery then reports that nothing was started.
   No stop can do that exactly when the publication asked for its outcome to be retained.
   */
  lemma {:induction false} CleanupReportIffRetained(n: TxName, d: TxDir)
    requires n.stage.Publishing? && d.payload.Some? && d.payload.value.phase.Committed?
    ensures (forall parts :: MayBeStripped(d.payload.value, parts) ==> VerdictOf(n, Strip(d, parts)) in {Investigate, Report(WasCommitted)})
            <==> d.payload.value.retain
  {
    var bad := [Marker, State];
    assert Strip(d, bad) == Strip(Without(d, Marker), [State]) == Strip(d.(marker := false, payload := None), []);
    if d.payload.value.retain {
      assert Strip(d, []) == d;
    } else {
      assert VerdictOf(n, Strip(d, bad)) == Report(WasNotStarted);
      assert MayBeStripped(d.payload.value, bad);
    }
  }

  // ----- Candidates -----

  datatype Kind = FileKind | DirKind | LinkKind

  datatype Content = FileBytes(data: Bytes) | LinkText(target: string)

  /** One validated entry of the diff; the digests are injective, so contents stand for them. */
  datatype Entry = Entry(path: Path, op: Operation, kind: Kind, after: Option<PathState>, baseline: Option<Content>)

  function KindOf(s: PathState): Kind {
    match s
    case FileState(_, _) => FileKind
    case DirState(_) => DirKind
    case LinkState(_) => LinkKind
  }

  function ContentOf(s: PathState): Option<Content> {
    match s
    case FileState(_, d) => Some(FileBytes(d))
    case DirState(_) => None
    case LinkState(x) => Some(LinkText(x))
  }

  predicate ValidEntry(e: Entry) {
    && |e.path| > 0
    && (e.op.Delete? <==> e.after.None?)
    && (e.after.Some? ==> KindOf(e.after.value) == e.kind)
  }

  predicate OwnerAccess(mode: nat) {
    (mode / 64) % 8 == 7
  }

  predicate OwnerRead(mode: nat) {
    (mode / 256) % 2 == 1
  }

  function EntryRank(e: Entry): int {
    if e.op.Delete? then (if e.kind.DirKind? then 3 else 2)
    else (if e.kind.DirKind? then 0 else 1)
  }

  predicate EntryBefore(a: Entry, b: Entry) {
    var da := if a.op.Delete? then -|a.path| else |a.path|;
    var db := if b.op.Delete? then -|b.path| else |b.path|;
    EntryRank(a) < EntryRank(b) || (EntryRank(a) == EntryRank(b) && da <= db)
  }

  function Insert(e: Entry, es: seq<Entry>): seq<Entry> {
    if es == [] || !EntryBefore(es[0], e) then [e] + es else [es[0]] + Insert(e, es[1..])
  }

  function Sorted(es: seq<Entry>): seq<Entry> {
    if es == [] then [] else Insert(es[0], Sorted(es[1..]))
  }

  lemma {:induction false} InsertKeeps(e: Entry, es: seq<Entry>)
    requires forall i :: 0 < i < |es| ==> EntryBefore(es[i - 1], es[i])
    ensures forall i :: 0 < i < |Insert(e, es)| ==> EntryBefore(Insert(e, es)[i - 1], Insert(e, es)[i])
    ensures multiset(Insert(e, es)) == multiset(es) + multiset{e}
    ensures es != [] ==> Insert(e, es)[0] == e || Insert(e, es)[0] == es[0]
  {
    if es != [] && EntryBefore(es[0], e) {
      InsertKeeps(e, es[1..]);
      assert es == [es[0]] + es[1..];
      var r := Insert(e, es[1..]);
      assert es[1..] == [] ==> r == [e];
      assert es[1..] != [] ==> EntryBefore(es[0], es[1]);
    }
  }

  /** The capture order: new directories first, removed directories last, nothing lost. */
  lemma {:induction false} SortedInOrder(es: seq<Entry>)
    ensures forall i :: 0 < i < |Sorted(es)| ==> EntryBefore(Sorted(es)[i - 1], Sorted(es)[i])
    ensures multiset(Sorted(es)) == multiset(es)
  {
    if es != [] {
      SortedInOrder(es[1..]);
      InsertKeeps(es[0], Sorted(es[1..]));
      assert es == [es[0]] + es[1..];
    }
  }

  /** The record an entry becomes, given the live state of its path. */
  predicate RecordOf(e: Entry, r: Record) {
    r.path == e.path && r.op == e.op && r.after == e.after
  }

  /** The names directly inside a directory. */
  function Names(t: Tree, p: Path): set<Name> {
    set c | c in t && ChildOf(c, p) :: c[|c| - 1]
  }

  /** The live path is what the diff was made against: absent, or of the same kind and content. */
  predicate FitsLive(t: Tree, e: Entry) {
    && |e.path| > 0
    && var live := StateAt(t, e.path);
       if e.op.Add? then live.Absent?
       else live.Present? && KindOf(live.state) == e.kind && (e.kind.DirKind? || ContentOf(live.state) == e.baseline)
  }

  /** A record captured from the live tree for an entry. */
  predicate CapturedAt(t: Tree, tx: nat, i: nat, e: Entry, r: Record) {
    && RecordOf(e, r) && |r.path| > 0 && FitsLive(t, e)
    && StateAt(t, r.path) == (if r.before.None? then Absent else Present(r.before.value))
    && (r.children.Some? ==> r.children.value == Names(t, r.path))
    && Parent(r.path) + [Temporary(tx, i)] !in t
  }

  /** The remaining refusals of a capture, after the live state and the backup. */
  function LateCheck(t: Tree, tx: nat, i: nat, e: Entry, live: Seen, candidate: Tree): Status
    requires ValidEntry(e) && !live.Unsafe? && (live.Absent? ==> e.op.Add?)
  {
    if e.after.Some? && e.after.value.DirState? && !OwnerAccess(e.after.value.mode) then Fail(Invalid)
    else if !e.op.Add? && !e.kind.DirKind? && ContentOf(live.state) != e.baseline then Fail(Conflict)
    else if OpenParent(t, e.path).Opened? && Parent(e.path) + [Temporary(tx, i)] in t then Fail(Invalid)
    else if e.after.Some? && e.after.value.FileState? && !OwnerRead(e.after.value.mode) then Fail(Invalid)
    else if e.after.Some? && e.after.value.LinkState? && (e.path !in candidate || candidate[e.path] != NodeOf(e.after.value)) then Fail(Invalid)
    else Pass
  }

  /** The record an entry becomes in a given tree. */
  function RecordFor(t: Tree, e: Entry): Record {
    var live := StateAt(t, e.path);
    Record(e.path, e.op, if live.Present? then Some(live.state) else None,
           if e.op.Delete? && live.Present? && live.state.DirState? then Some(Names(t, e.path)) else None, e.after)
  }

  function RecordsFor(t: Tree, es: seq<Entry>): seq<Record> {
    seq(|es|, i requires 0 <= i < |es| => RecordFor(t, es[i]))
  }

  function BackupSize(t: Tree, e: Entry): nat {
    var live := StateAt(t, e.path);
    if live.Present? && live.state.FileState? then |live.state.data| else 0
  }

  /** The bytes backed up for the first `k` entries. */
  function BackupTotal(t: Tree, es: seq<Entry>, k: nat): nat
    requires k <= |es|
  {
    if k == 0 then 0 else BackupTotal(t, es, k - 1) + BackupSize(t, es[k - 1])
  }

  lemma {:induction false} BackupTotalGrows(t: Tree, es: seq<Entry>, k: nat)
    requires k <= |es|
    ensures BackupTotal(t, es, k) <= BackupTotal(t, es, |es|)
    decreases |es| - k
  {
    if k < |es| {
      BackupTotalGrows(t, es, k + 1);
    }
  }

  /** No check of the capture refuses the entry. */
  predicate Capturable(t: Tree, tx: nat, i: nat, e: Entry, candidate: Tree)
    requires ValidEntry(e)
  {
    var live := StateAt(t, e.path);
    && !live.Unsafe? && (live.Absent? <==> e.op.Add?) && (live.Present? ==> KindOf(live.state) == e.kind)
    && LateCheck(t, tx, i, e, live, candidate).Pass?
  }

  /** No check of the capture refuses any entry, and the backups stay within their bound. */
  ghost predicate CaptureFits(t: Tree, tx: nat, es: seq<Entry>, candidate: Tree, maxBackup: nat)
    requires forall e :: e in es ==> ValidEntry(e)
  {
    && (forall i {:trigger Capturable(t, tx, i, es[i], candidate)} :: 0 <= i < |es| ==> Capturable(t, tx, i, es[i], candidate))
    && BackupTotal(t, es, |es|) <= maxBackup
  }

  /** The capture fits, and its records are a payload the journal accepts. */
  ghost predicate Preparable(t: Tree, tx: nat, es: seq<Entry>, candidate: Tree, maxBackup: nat)
    requires forall e :: e in es ==> ValidEntry(e)
  {
    CaptureFits(t, tx, es, candidate, maxBackup) && ValidPayload(RecordsFor(t, es))
  }

  /** Moreover, each record finds its parent directory in its turn, and its contents in the candidate. */
  ghost predicate Publishable(t: Tree, tx: nat, es: seq<Entry>, candidate: Tree, maxBackup: nat)
    requires forall e :: e in es ==> ValidEntry(e)
  {
    Preparable(t, tx, es, candidate, maxBackup) && AllReady(RecordsFor(t, es), candidate, t)
  }

  /** What a publication needs to go through, whatever order its diff comes in. */
  ghost predicate Accepted(t: Tree, tx: nat, es: seq<Entry>, candidate: Tree, maxBackup: nat) {
    && (forall e :: e in Sorted(es) ==> ValidEntry(e))
    && Publishable(t, tx, Sorted(es), candidate, maxBackup)
  }

  /** One entry that was captured without complaint. */
  ghost predicate CapturedEntry(t: Tree, tx: nat, i: nat, e: Entry, r: Record, candidate: Tree) {
    CapturedAt(t, tx, i, e, r) && r == RecordFor(t, e) && ValidEntry(e) && Capturable(t, tx, i, e, candidate)
  }

  ghost predicate AllCaptured(t: Tree, tx: nat, es: seq<Entry>, rs: seq<Record>, candidate: Tree) {
    |rs| <= |es| && forall i :: 0 <= i < |rs| ==> CapturedEntry(t, tx, i, es[i], rs[i], candidate)
  }

  /** The next entry can be captured, and its backup still has room. */
  ghost predicate FitsNext(t: Tree, tx: nat, es: seq<Entry>, i: nat, candidate: Tree, room: nat)
    requires i < |es| && ValidEntry(es[i])
  {
    Capturable(t, tx, i, es[i], candidate) && BackupSize(t, es[i]) <= room
  }

  lemma {:induction false} CapturedMore(t: Tree, tx: nat, es: seq<Entry>, before: seq<Record>, r: Record, candidate: Tree)
    requires AllCaptured(t, tx, es, before, candidate) && |before| < |es|
    requires CapturedEntry(t, tx, |before|, es[|before|], r, candidate)
    ensures AllCaptured(t, tx, es, before + [r], candidate)
  {
    var rs := before + [r];
    forall i | 0 <= i < |rs|
      ensures CapturedEntry(t, tx, i, es[i], rs[i], candidate)
    {
      assert i < |before| ==> rs[i] == before[i];
    }
  }

  lemma {:induction false} NextFits(t: Tree, tx: nat, es: seq<Entry>, i: nat, candidate: Tree, maxBackup: nat)
    requires (forall e :: e in es ==> ValidEntry(e)) && i < |es| && BackupTotal(t, es, i) <= maxBackup
    ensures CaptureFits(t, tx, es, candidate, maxBackup) ==> FitsNext(t, tx, es, i, candidate, maxBackup - BackupTotal(t, es, i))
    ensures BackupTotal(t, es, i + 1) == BackupTotal(t, es, i) + BackupSize(t, es[i])
  {
    BackupTotalGrows(t, es, i + 1);
  }

  lemma {:induction false} CapturedFits(t: Tree, tx: nat, es: seq<Entry>, rs: seq<Record>, candidate: Tree, maxBackup: nat)
    requires AllCaptured(t, tx, es, rs, candidate) && |rs| == |es| && BackupTotal(t, es, |es|) <= maxBackup
    requires forall e :: e in es ==> ValidEntry(e)
    ensures CaptureFits(t, tx, es, candidate, maxBackup) && rs == RecordsFor(t, es)
    ensures forall i :: 0 <= i < |rs| ==> CapturedAt(t, tx, i, es[i], rs[i])
  {
    forall i | 0 <= i < |es|
      ensures CapturedAt(t, tx, i, es[i], rs[i]) && rs[i] == RecordsFor(t, es)[i] && Capturable(t, tx, i, es[i], candidate)
    {
      assert CapturedEntry(t, tx, i, es[i], rs[i], candidate);
    }
  }

  lemma {:induction false} LateCheckClears(t: Tree, tx: nat, i: nat, e: Entry, live: Seen, candidate: Tree)
    requires Closed(t) && ValidEntry(e) && !live.Unsafe? && (live.Absent? ==> e.op.Add?)
    ensures LateCheck(t, tx, i, e, live, candidate).Pass? ==> Parent(e.path) + [Temporary(tx, i)] !in t
  {
    var tmp := Parent(e.path) + [Temporary(tx, i)];
    assert Parent(tmp) == Parent(e.path);
    if tmp in t {
      ClosedOpens(t, tmp);
    }
  }

  function BackedUp(d: TxDir, i: nat, data: Bytes): TxDir
    requires d.backups.Some?
  {
    d.(backups := Some(d.backups.value[i := data]))
  }

  /** Nothing but the backups of one directory changed. */
  ghost predicate OnlyBackups(j: Journal, k: Journal, n: TxName) {
    && (forall m :: m != n ==> (m in k <==> m in j) && (m in k ==> k[m] == j[m]))
    && n in j && n in k && k[n] == j[n].(backups := k[n].backups)
  }

  /** The backups with those a record needs. */
  function BackedWith(backups: map<nat, Bytes>, i: nat, r: Record): map<nat, Bytes> {
    if r.before.Some? && r.before.value.FileState? then backups[i := r.before.value.data] else backups
  }

  lemma {:induction false} BackedMore(before: seq<Record>, r: Record, backups: map<nat, Bytes>)
    requires BackupsMatch(before, backups)
    ensures BackupsMatch(before + [r], BackedWith(backups, |before|, r))
  {
  }

  /** Captured records that pass the journal validation are a plan the rollback can trust. */
  lemma {:induction false} CapturedIsPlan(t: Tree, tx: nat, es: seq<Entry>, rs: seq<Record>)
    requires Closed(t) && ValidPayload(rs) && Fresh(tx, rs) && |rs| == |es|
    requires forall i :: 0 <= i < |rs| ==> CapturedAt(t, tx, i, es[i], rs[i])
    ensures Plan(tx, rs, t)
  {
    forall i | 0 <= i < |rs|
      ensures TempOf(tx, rs, i) !in t
      ensures StateAt(t, rs[i].path) == (if rs[i].before.None? then Absent else Present(rs[i].before.value))
      ensures rs[i].children.Some? ==> rs[i].children.value == Names(t, rs[i].path)
    {
      assert CapturedAt(t, tx, i, es[i], rs[i]);
    }
    forall i, c | 0 <= i < |rs| && rs[i].children.Some? && c in t && ChildOf(c, rs[i].path)
      ensures c[|c| - 1] in rs[i].children.value
    {
      assert c[|c| - 1] in Names(t, rs[i].path);
    }
  }

  /** No component of a diff path is a name this transaction generates. */
  predicate FreshEntries(tx: nat, es: seq<Entry>) {
    forall e, k :: e in es && 0 <= k < |e.path| ==> !(e.path[k].Temporary? && e.path[k].tx == tx)
  }

  lemma {:induction false} SameEntries(es: seq<Entry>, sorted: seq<Entry>)
    requires multiset(sorted) == multiset(es)
    ensures forall e :: e in sorted <==> e in es
  {
    forall e
      ensures e in sorted <==> e in es
    {
      assert e in sorted <==> e in multiset(sorted);
    }
  }

  lemma {:induction false} FreshRecords(tx: nat, es: seq<Entry>, rs: seq<Record>)
    requires FreshEntries(tx, es) && |rs| == |es|
    requires forall i :: 0 <= i < |rs| ==> RecordOf(es[i], rs[i])
    ensures Fresh(tx, rs)
  {
    forall i, k | 0 <= i < |rs| && 0 <= k < |rs[i].path|
      ensures !(rs[i].path[k].Temporary? && rs[i].path[k].tx == tx)
    {
      assert es[i] in es && rs[i].path == es[i].path;
    }
  }

  /** The tree a publication is meant to produce. */
  ghost predicate PublishedTree(t0: Tree, es: seq<Entry>, t: Tree) {
    && (forall e :: e in es ==> Get(t, e.path) == NodeOpt(e.after))
    && (forall p :: (forall e :: e in es ==> e.path != p) ==> Get(t, p) == Get(t0, p))
  }

  lemma {:induction false} AppliedIsPublished(t0: Tree, es: seq<Entry>, sorted: seq<Entry>, rs: seq<Record>)
    requires multiset(sorted) == multiset(es) && |rs| == |sorted| && ValidPayload(rs)
    requires forall i :: 0 <= i < |rs| ==> RecordOf(sorted[i], rs[i])
    ensures PublishedTree(t0, es, Applied(t0, rs, |rs|))
  {
    AppliedAt(t0, rs, |rs|);
    var t := Applied(t0, rs, |rs|);
    forall e | e in es
      ensures Get(t, e.path) == NodeOpt(e.after)
    {
      assert e in multiset(sorted);
      var i :| 0 <= i < |sorted| && sorted[i] == e;
      assert RecordOf(sorted[i], rs[i]);
    }
    forall p | forall e :: e in es ==> e.path != p
      ensures Get(t, p) == Get(t0, p)
    {
      forall i | 0 <= i < |rs|
        ensures rs[i].path != p
      {
        assert sorted[i] in multiset(es);
        assert RecordOf(sorted[i], rs[i]);
      }
    }
  }

  // ----- What a journal says of the workspace -----

  /** The journal and the workspace, with the last publication that began: its name, first tree and diff. */
  datatype World = World(journal: Journal, tree: Tree, tx: nat, base: Tree, diff: seq<Entry>)

  predicate HasPending(j: Journal) {
    exists n :: n in j && Pending(n)
  }

  predicate IsCommitted(d: TxDir) {
    d.payload.Some? && d.payload.value.phase.Committed?
  }

  /** What the directory of a pending transaction says is true of the workspace. */
  ghost predicate TxTruth(n: TxName, d: TxDir, tree: Tree, tx: nat, base: Tree, diff: seq<Entry>) {
    && n.id == tx
    && match d.payload
       case None => tree == base
       case Some(p) =>
         && (n.stage.Staging? ==> p.phase.Preparing? || p.phase.NotStarted?)
         && ValidPayload(p.records) && Fresh(n.id, p.records)
         && (p.phase.Preparing? || p.phase.NotStarted? ==> p.records == [])
         && match p.phase {
              case Preparing => tree == base
              case NotStarted => tree == base
              case RolledBack => tree == base
              case Committed => PublishedTree(base, diff, tree)
              case Prepared =>
                && Plan(n.id, p.records, base) && Midway(n.id, p.records, base, tree)
                && d.backups.Some? && BackupsMatch(p.records, d.backups.value)
                && PublishedTree(base, diff, Applied(base, p.records, |p.records|))
            }
  }

  /** At most one transaction is pending, it is the last publication, and its directory tells the truth. */
  ghost predicate Truth(w: World) {
    && Closed(w.tree)
    && (forall n :: n in w.journal && Pending(n) ==> TxTruth(n, w.journal[n], w.tree, w.tx, w.base, w.diff))
    && (forall n, m :: n in w.journal && m in w.journal && Pending(n) && Pending(m) ==> n == m)
  }

  /** Rewriting the one pending directory keeps the journal truthful if the new directory is. */
  lemma {:induction false} RetoldIsTruth(w: World, n: TxName, d: TxDir, tree: Tree)
    requires Truth(w) && n in w.journal && Pending(n) && Closed(tree)
    requires TxTruth(n, d, tree, w.tx, w.base, w.diff)
    ensures Truth(w.(journal := w.journal[n := d], tree := tree))
  {
    forall m | m in w.journal && Pending(m)
      ensures m == n
    {
    }
  }

  /** A durable plan for the last publication's diff, made on the tree it found, keeps the journal truthful. */
  lemma {:induction false} PlannedIsTruth(w: World, n: TxName, d: TxDir, es: seq<Entry>, rs: seq<Record>)
    requires Truth(w) && n in w.journal && Pending(n) && n.stage.Publishing? && w.base == w.tree
    requires d.payload.Some? && d.payload.value.phase.Prepared? && d.payload.value.records == rs
    requires Plan(n.id, rs, w.tree) && d.backups.Some? && BackupsMatch(rs, d.backups.value)
    requires multiset(es) == multiset(w.diff) && |rs| == |es| && forall i :: 0 <= i < |rs| ==> RecordOf(es[i], rs[i])
    ensures Truth(w.(journal := w.journal[n := d]))
  {
    UntouchedIsMidway(n.id, rs, w.tree);
    AppliedIsPublished(w.tree, w.diff, es, rs);
    RetoldIsTruth(w, n, d, w.tree);
  }

  predicate AllRetained(j: Journal) {
    forall n :: n in j && Pending(n) ==> Retainable(j[n])
  }

  predicate Retainable(d: TxDir) {
    d.payload.Some? ==> d.payload.value.retain
  }

  predicate SameTx(w: World, v: World) {
    v.tx == w.tx && v.base == w.base && v.diff == w.diff
  }

  /** An outcome as the last publication's first tree and diff define it. */
  ghost predicate TrueOutcome(w: World, o: Outcome) {
    if o.WasCommitted? then PublishedTree(w.base, w.diff, w.tree) else w.tree == w.base
  }

  ghost predicate SameOthers(j: Journal, k: Journal, id: nat) {
    forall n: TxName :: n.id != id ==> (n in k <==> n in j) && (n in k ==> k[n] == j[n])
  }

  // ----- What one call does -----

  /**
   A publication that retains its outcome. It is refused while one is pending; otherwise it is the
   last publication from the tree it found, success is durable as a committed directory, and a
   failure leaves a directory that is not committed, or none and the tree as it was.
   */
  ghost predicate Published(w: World, es: seq<Entry>, id: nat, s: Status, v: World) {
    if HasPending(w.journal) then s == Fail(Invalid) && v == w
    else
      && v.tx == id && v.base == w.tree && v.diff == es && Truth(v) && AllRetained(v.journal)
      && SameOthers(w.journal, v.journal, id)
      && (s.Fail? && !HasPending(v.journal) ==> v.tree == w.tree)
      && (s.Fail? ==> forall n :: n in v.journal && Pending(n) ==> !IsCommitted(v.journal[n]))
      && (s.Pass? ==> TxName(Publishing, id) in v.journal && IsCommitted(v.journal[TxName(Publishing, id)]))
      && (s.Pass? ==> PublishedTree(w.tree, es, v.tree) && forall e :: e in es ==> FitsLive(w.tree, e))
  }

  /** What a recovery does with the pending directory. */
  ghost predicate RecoveredOne(w: World, n: TxName, s: Status, reports: map<nat, Outcome>, v: World)
    requires n in w.journal
  {
    && SameOthers(w.journal, v.journal, n.id)
    && (if s.Pass? then exists o :: VerdictOf(n, w.journal[n]) == Report(o) && reports == map[n.id := o] && TrueOutcome(v, o)
        else reports == map[])
    && (IsCommitted(w.journal[n]) ==> v.tree == w.tree)
    && (forall m :: m in v.journal && Pending(m) ==> m == n && (IsCommitted(v.journal[m]) <==> IsCommitted(w.journal[n])))
    && (w.journal[n].payload.Some? ==> n in v.journal)
  }

  /** A recovery: with nothing pending nothing changes; otherwise what it reports is true. */
  ghost predicate Recovered(w: World, s: Status, reports: map<nat, Outcome>, v: World) {
    && SameTx(w, v) && Truth(v) && AllRetained(v.journal)
    && (!HasPending(w.journal) ==> s.Pass? && reports == map[] && v == w)
    && (forall n :: n in w.journal && Pending(n) ==> RecoveredOne(w, n, s, reports, v))
  }

  lemma {:induction false} OneIsAll(w: World, n: TxName, s: Status, reports: map<nat, Outcome>, v: World)
    requires Truth(w) && n in w.journal && Pending(n) && RecoveredOne(w, n, s, reports, v)
    requires SameTx(w, v) && Truth(v) && AllRetained(v.journal)
    ensures Recovered(w, s, reports, v)
  {
    forall m | m in w.journal && Pending(m)
      ensures m == n
    {
    }
  }

  /** An acknowledgement only releases evidence. */
  ghost predicate Released(w: World, id: nat, v: World) {
    && SameTx(w, v) && v.tree == w.tree && Truth(v) && AllRetained(v.journal)
    && SameOthers(w.journal, v.journal, id)
    && (forall n :: n in v.journal && Pending(n) ==> n in w.journal && v.journal[n] == w.journal[n])
  }

  // ----- Calls of a run -----

  /** One call, with the number of durable steps its process takes before it stops. */
  datatype Call =
    | Publishes(budget: nat, es: seq<Entry>, candidate: Tree, id: nat, manifest: nat, generation: nat,
                maxBackup: nat, order: seq<Part>)
    | Recovers(budget: nat, generation: nat, order: seq<Part>)
    | Acknowledges(budget: nat, id: nat, o: Outcome, manifest: nat, receiptGeneration: nat, entries: nat,
                   generation: nat, order: seq<Part>)

  datatype Answer = Answer(status: Status, reports: map<nat, Outcome>)

  predicate ValidCall(c: Call) {
    c.Publishes? ==> (forall e :: e in c.es ==> ValidEntry(e)) && FreshEntries(c.id, c.es)
  }

  /** One call of a run, between the world it found and the one it left. */
  ghost predicate Performed(w: World, c: Call, r: Answer, v: World) {
    match c
    case Publishes(_, es, candidate, id, _, _, maxBackup, _) =>
      && Published(w, es, id, r.status, v) && r.reports == map[]
      && (!HasPending(w.journal) && r.status != Fail(Stopped) ==>
            (r.status.Pass? <==> Accepted(w.tree, id, es, candidate, maxBackup)))
    case Recovers(_, _, _) => Recovered(w, r.status, r.reports, v)
    case Acknowledges(_, id, _, _, _, _, _, _) => Released(w, id, v) && r.reports == map[]
  }

  ghost predicate IsRun(calls: seq<Call>, answers: seq<Answer>, worlds: seq<World>) {
    && |answers| == |calls| && |worlds| == |calls| + 1 && AllRetained(worlds[0].journal)
    && forall i :: 0 <= i < |calls| ==> Performed(worlds[i], calls[i], answers[i], worlds[i + 1])
  }

  // ----- The publisher -----

  class Publisher {
    const host: Host
    var journal: Journal
    // The last publication that began: its name, the tree it found and its diff.
    ghost var tx: nat
    ghost var base: Tree
    ghost var diff: seq<Entry>

    ghost function Value(): World
      reads this, host
    {
      World(journal, host.tree, tx, base, diff)
    }

    ghost predicate Truthful()
      reads this, host
    {
      Truth(Value())
    }

    ghost predicate Retained()
      reads this
    {
      AllRetained(journal)
    }

    constructor (h: Host)
      requires Closed(h.tree)
      ensures host == h && journal == map[] && Truthful() && Retained()
    {
      host := h;
      journal := map[];
      tx, base, diff := 0, h.tree, [];
    }

    // ----- Journal steps -----

    method Put(n: TxName, d: TxDir) returns (s: Status)
      modifies this`journal, host`steps
      ensures s.Pass? ==> journal == old(journal)[n := d]
      ensures s.Fail? ==> journal == old(journal) && s == Fail(Stopped)
      ensures host.steps == (if s.Pass? then old(host.steps) - 1 else 0) && (s.Fail? <==> old(host.steps) == 0)
    {
      if host.steps == 0 {
        return Fail(Stopped);
      }
      host.steps := host.steps - 1;
      journal := journal[n := d];
      return Pass;
    }

    method Move(n: TxName, m: TxName) returns (s: Status)
      requires n in journal
      modifies this`journal, host`steps
      ensures s == Fail(Stopped) ==> host.steps == 0
      ensures s.Pass? ==> journal == (old(journal) - {n})[m := old(journal)[n]]
      ensures s.Fail? ==> journal == old(journal) && s == Fail(Stopped)
      ensures host.steps == (if s.Pass? then old(host.steps) - 1 else 0) && (s.Fail? <==> old(host.steps) == 0)
    {
      if host.steps == 0 {
        return Fail(Stopped);
      }
      host.steps := host.steps - 1;
      journal := (journal - {n})[m := journal[n]];
      return Pass;
    }

    /** Removes a directory entry by entry, in the order the directory happens to be listed. */
    method RemoveTransaction(n: TxName, order: seq<Part>) returns (s: Status)
      requires n in journal
      modifies this`journal, host`steps
      ensures s == Fail(Stopped) ==> host.steps == 0
      ensures forall m :: m != n ==> (m in journal <==> m in old(journal)) && (m in journal ==> journal[m] == old(journal)[m])
      ensures n in journal ==> exists k :: 0 <= k <= |order| && journal[n] == Strip(old(journal)[n], order[..k])
      ensures n in journal ==> journal[n].payload in {None, old(journal)[n].payload}
      ensures s.Pass? ==> n !in journal
    {
      var k := 0;
      assert order[..0] == [];
      while k < |order|
        invariant 0 <= k <= |order| && n in journal
        invariant forall m :: m != n ==> (m in journal <==> m in old(journal)) && (m in journal ==> journal[m] == old(journal)[m])
        invariant journal[n] == Strip(old(journal)[n], order[..k])
      {
        StripOneMore(old(journal)[n], order, k);
        StripPayload(old(journal)[n], order[..k]);
        :- Put(n, Without(journal[n], order[k]));
        k := k + 1;
      }
      StripPayload(old(journal)[n], order[..k]);
      if journal[n].marker || journal[n].payload.Some? || journal[n].backups.Some? || host.steps == 0 {
        return Fail(if host.steps == 0 then Stopped else OsError);
      }
      host.steps := host.steps - 1;
      journal := journal - {n};
      return Pass;
    }

    // ----- Publication -----

    /** Captures one entry: its live state must fit the entry, and a live file is backed up first. */
    method CaptureOne(t: Tree, n: TxName, i: nat, e: Entry, candidate: Tree, room: nat) returns (s: Status, r: Record)
      requires t == host.tree && Closed(t) && ValidEntry(e)
      requires n in journal && journal[n].backups.Some?
      modifies this`journal, host`steps
      ensures s == Fail(Stopped) ==> host.steps == 0
      ensures OnlyBackups(old(journal), journal, n)
      ensures journal[n].backups.Some?
      ensures s.Pass? ==> CapturedAt(t, n.id, i, e, r) && r == RecordFor(t, e)
      ensures s.Pass? ==> journal[n].backups.value == BackedWith(old(journal)[n].backups.value, i, r)
      ensures s != Fail(Stopped) ==> (s.Pass? <==> Capturable(t, n.id, i, e, candidate) && BackupSize(t, e) <= room)
    {
      r := Record(e.path, e.op, None, None, e.after);
      var live := StateAt(t, e.path);
      if live.Unsafe? {
        return Fail(Invalid), r;
      }
      if live.Absent? != e.op.Add? || (live.Present? && KindOf(live.state) != e.kind) {
        return Fail(Conflict), r;
      }
      if live.Present? {
        r := r.(before := Some(live.state));
        if e.op.Delete? && live.state.DirState? {
          r := r.(children := Some(Names(t, e.path)));
        }
        if live.state.FileState? {
          if |live.state.data| > room {
            return Fail(Invalid), r;
          }
          s := Put(n, BackedUp(journal[n], i, live.state.data));
          if s.Fail? {
            return;
          }
        }
      }
      s := LateCheck(t, n.id, i, e, live, candidate);
      LateCheckClears(t, n.id, i, e, live, candidate);
    }

    /** Captures one more entry on top of those captured before. */
    method CaptureNext(n: TxName, es: seq<Entry>, before: seq<Record>, candidate: Tree, room: nat)
      returns (s: Status, rs: seq<Record>, size: nat)
      requires Closed(host.tree) && (forall e :: e in es ==> ValidEntry(e)) && |before| < |es|
      requires n in journal && journal[n].backups.Some?
      requires AllCaptured(host.tree, n.id, es, before, candidate) && BackupsMatch(before, journal[n].backups.value)
      modifies this`journal, host`steps
      ensures s == Fail(Stopped) ==> host.steps == 0
      ensures n in journal && journal[n].backups.Some?
      ensures OnlyBackups(old(journal), journal, n)
      ensures s.Pass? ==> |rs| == |before| + 1 && size == BackupSize(host.tree, es[|before|])
      ensures s.Pass? ==> AllCaptured(host.tree, n.id, es, rs, candidate) && BackupsMatch(rs, journal[n].backups.value)
      ensures s != Fail(Stopped) ==> (s.Pass? <==> FitsNext(host.tree, n.id, es, |before|, candidate, room))
    {
      var r;
      s, r := CaptureOne(host.tree, n, |before|, es[|before|], candidate, room);
      rs := before + [r];
      size := if r.before.Some? && r.before.value.FileState? then |r.before.value.data| else 0;
      if s.Pass? {
        CapturedMore(host.tree, n.id, es, before, r, candidate);
        BackedMore(before, r, old(journal)[n].backups.value);
      }
    }

    method CaptureOriginals(n: TxName, es: seq<Entry>, candidate: Tree, maxBackup: nat) returns (s: Status, rs: seq<Record>)
      requires Closed(host.tree) && forall e :: e in es ==> ValidEntry(e)
      requires n in journal && journal[n].backups.Some?
      modifies this`journal, host`steps
      ensures s == Fail(Stopped) ==> host.steps == 0
      ensures n in journal && journal[n].backups.Some?
      ensures OnlyBackups(old(journal), journal, n)
      ensures s.Pass? ==> |rs| == |es| && BackupsMatch(rs, journal[n].backups.value)
      ensures s.Pass? ==> AllCaptured(host.tree, n.id, es, rs, candidate)
      ensures s != Fail(Stopped) ==> (s.Pass? <==> CaptureFits(host.tree, n.id, es, candidate, maxBackup))
    {
      ghost var t := host.tree;
      rs := [];
      var i, used := 0, 0;
      while i < |es|
        invariant i == |rs| <= |es| && used <= maxBackup && n in journal && journal[n].backups.Some?
        invariant OnlyBackups(old(journal), journal, n)
        invariant AllCaptured(t, n.id, es, rs, candidate) && BackupsMatch(rs, journal[n].backups.value)
        invariant used == BackupTotal(t, es, i)
      {
        var size;
        NextFits(t, n.id, es, i, candidate, maxBackup);
        s, rs, size := CaptureNext(n, es, rs, candidate, maxBackup - used);
        if s.Fail? {
          return;
        }
        i, used := i + 1, used + size;
      }
      CapturedFits(t, n.id, es, rs, candidate, maxBackup);
      s := Pass;
    }

    ghost predicate OnlyPending(n: TxName)
      reads this
    {
      forall m :: m in journal && Pending(m) ==> m == n
    }

    /** Makes the staging directory with its schema marker and its first state file. */
    method StageDirectory(staging: TxName, p: Payload) returns (s: Status)
      requires Truthful() && (forall m :: m in journal ==> !Pending(m)) && staging.stage.Staging? && staging.id == tx
      requires base == host.tree && p.phase.Preparing? && p.records == []
      modifies this`journal, host`steps
      ensures s == Fail(Stopped) ==> host.steps == 0
      ensures Truthful() && OnlyPending(staging) && Unfinished() && SameOthers(old(journal), journal, tx)
      ensures p.retain ==> Retained()
      ensures Stuck() <==> 1 <= old(host.steps) <= 2
      ensures s.Fail? ==> s == Fail(Stopped)
      ensures s.Pass? ==> staging in journal && journal[staging] == TxDir(true, Some(p), None) && old(host.steps) >= 3
      ensures s.Pass? ==> host.steps == old(host.steps) - 3
    {
      s := Put(staging, TxDir(false, None, None));
      if s.Fail? {
        return;
      }
      assert staging in journal && Pending(staging) && VerdictOf(staging, journal[staging]).Investigate?;
      :- Put(staging, TxDir(true, None, None));
      assert staging in journal && Pending(staging) && VerdictOf(staging, journal[staging]).Investigate?;
      :- Put(staging, TxDir(true, Some(p), None));
      return Pass;
    }

    /**
     Stages a transaction directory until its first state file is durable under its final name.
     A stop before the state file exists leaves a directory that every recovery refuses.
     */
    method OpenTransaction(id: nat, manifest: nat, generation: nat, retain: bool) returns (s: Status)
      requires Truthful() && forall m :: m in journal ==> !Pending(m)
      requires base == host.tree && tx == id
      modifies this`journal, host`steps
      ensures s == Fail(Stopped) ==> host.steps == 0
      ensures Truthful() && OnlyPendingId(id) && Unfinished() && SameOthers(old(journal), journal, id)
      ensures retain ==> Retained()
      ensures Stuck() <==> 1 <= old(host.steps) <= 2
      ensures s.Fail? ==> s == Fail(Stopped)
      ensures s.Pass? ==>
                var n := TxName(Publishing, id);
                && n in journal && OnlyPending(n)
                && journal[n] == TxDir(true, Some(Payload(Preparing, retain, manifest, generation, [])), Some(map[]))
    {
      var staging, n := TxName(Staging, id), TxName(Publishing, id);
      var p := Payload(Preparing, retain, manifest, generation, []);
      :- StageDirectory(staging, p);
      :- Move(staging, n);
      :- Put(n, TxDir(true, Some(p), Some(map[])));
      return Pass;
    }

    /** No pending directory is committed. */
    ghost predicate Unfinished()
      reads this
    {
      forall m :: m in journal && Pending(m) ==> !IsCommitted(journal[m])
    }

    ghost predicate OnlyPendingId(id: nat)
      reads this
    {
      forall m :: m in journal && Pending(m) ==> m.id == id
    }

    /** Some pending directory makes recovery give up. */
    ghost predicate Stuck()
      reads this
    {
      exists m :: m in journal && Pending(m) && VerdictOf(m, journal[m]).Investigate?
    }

    /** Captures every entry in order and checks the records against the backups and the live tree. */
    method CapturePlan(n: TxName, es: seq<Entry>, candidate: Tree, maxBackup: nat) returns (s: Status, rs: seq<Record>)
      requires Closed(host.tree) && n in journal && journal[n].backups.Some?
      requires (forall e :: e in es ==> ValidEntry(e)) && FreshEntries(n.id, es)
      modifies this`journal, host`steps
      ensures s == Fail(Stopped) ==> host.steps == 0
      ensures OnlyBackups(old(journal), journal, n)
      ensures s.Pass? ==> Plan(n.id, rs, host.tree) && Fresh(n.id, rs) && ValidPayload(rs)
      ensures s.Pass? ==> |rs| == |es| && forall i :: 0 <= i < |rs| ==> RecordOf(es[i], rs[i]) && FitsLive(host.tree, es[i])
      ensures s.Pass? ==> journal[n].backups.Some? && BackupsMatch(rs, journal[n].backups.value)
      ensures s.Pass? ==> rs == RecordsFor(host.tree, es)
      ensures s != Fail(Stopped) ==> (s.Pass? <==> Preparable(host.tree, n.id, es, candidate, maxBackup))
    {
      s, rs := CaptureOriginals(n, es, candidate, maxBackup);
      if s.Fail? {
        return;
      }
      CapturedFits(host.tree, n.id, es, rs, candidate, maxBackup);
      if !ValidPayload(rs) {
        return Fail(Invalid), rs;
      }
      FreshRecords(n.id, es, rs);
      CapturedIsPlan(host.tree, n.id, es, rs);
      if !BackupsMatch(rs, journal[n].backups.value) {
        return Fail(Invalid), rs;
      }
      s := AssertAllLive(rs);
    }

    /** Checks once more that every path is in the state it was captured in. */
    method AssertAllLive(rs: seq<Record>) returns (s: Status)
      requires ValidPayload(rs) && forall i :: 0 <= i < |rs| ==> PreimageAt(host.tree, rs, i)
      ensures s.Pass?
    {
      for i := 0 to |rs| {
        assert PreimageAt(host.tree, rs, i);
        s := host.AssertLive(rs[i].path, rs[i].before, Conflict);
        if s.Fail? {
          return;
        }
      }
      s := Pass;
    }

    /** Captures and validates everything before the first change, then makes the plan durable. */
    method Prepare(n: TxName, es: seq<Entry>, candidate: Tree, maxBackup: nat) returns (s: Status, rs: seq<Record>)
      requires Truthful() && n.stage.Publishing? && n in journal && OnlyPending(n) && base == host.tree
      requires journal[n].payload.Some? && journal[n].payload.value.phase.Preparing? && journal[n].backups.Some?
      requires journal[n].payload.value.records == []
      requires (forall e :: e in es ==> ValidEntry(e)) && FreshEntries(n.id, es) && multiset(es) == multiset(diff)
      modifies this`journal, host`steps
      ensures s == Fail(Stopped) ==> host.steps == 0
      ensures Truthful() && n in journal && OnlyPending(n) && Unfinished() && SameOthers(old(journal), journal, n.id)
      ensures journal[n].payload.Some? && journal[n].payload.value.retain == old(journal)[n].payload.value.retain
      ensures s.Pass? ==> Plan(n.id, rs, host.tree) && forall e :: e in es ==> FitsLive(host.tree, e)
      ensures s.Pass? ==> rs == RecordsFor(host.tree, es)
      ensures s != Fail(Stopped) ==> (s.Pass? <==> Preparable(host.tree, n.id, es, candidate, maxBackup))
      ensures s.Pass? ==> journal[n].payload.value.records == rs && journal[n].payload.value.phase.Prepared?
    {
      ghost var w := Value();
      s, rs := CapturePlan(n, es, candidate, maxBackup);
      RetoldIsTruth(w, n, journal[n], host.tree);
      assert w.journal[n := journal[n]] == journal;
      if s.Fail? {
        return;
      }
      var planned := journal[n].(payload := Some(journal[n].payload.value.(phase := Prepared, records := rs)));
      PlannedIsTruth(w, n, planned, es, rs);
      assert w.journal[n := planned] == journal[n := planned];
      s := Put(n, planned);
    }

    /** Marks a transaction committed; cleans up when the outcome is not retained. */
    method Commit(n: TxName, order: seq<Part>) returns (s: Status)
      requires n in journal && journal[n].payload.Some?
      modifies this`journal, host`steps
      ensures s == Fail(Stopped) ==> host.steps == 0
      ensures forall m :: m != n ==> (m in journal <==> m in old(journal)) && (m in journal ==> journal[m] == old(journal)[m])
      ensures s.Fail? ==> journal == old(journal) && s == Fail(Stopped)
      ensures n in journal && journal[n].payload.Some? ==>
                journal[n].payload.value.retain == old(journal)[n].payload.value.retain
      ensures s.Pass? && old(journal)[n].payload.value.retain ==>
                journal == old(journal)[n := old(journal)[n].(payload := Some(old(journal)[n].payload.value.(phase := Committed)))]
    {
      var p := journal[n].payload.value.(phase := Committed);
      :- Put(n, journal[n].(payload := Some(p)));
      if CleansUp(p) {
        var _ := RemoveTransaction(n, order);
      }
      return Pass;
    }

    /** Applies a durable plan and commits it. */
    method Execute(n: TxName, rs: seq<Record>, candidate: Tree, order: seq<Part>) returns (s: Status)
      requires Truthful() && n.stage.Publishing? && n in journal && OnlyPending(n) && base == host.tree
      requires journal[n].payload.Some? && journal[n].payload.value.phase.Prepared?
      requires journal[n].payload.value.records == rs
      modifies this`journal, host
      ensures s == Fail(Stopped) ==> host.steps == 0
      ensures OnlyPending(n) && SameOthers(old(journal), journal, n.id)
      ensures old(journal)[n].payload.value.retain || s.Fail? ==> Truthful()
      ensures n in journal && journal[n].payload.Some? ==>
                journal[n].payload.value.retain == old(journal)[n].payload.value.retain
      ensures s.Pass? ==> PublishedTree(base, diff, host.tree)
      ensures s != Fail(Stopped) ==> (s.Pass? <==> AllReady(rs, candidate, base))
      ensures s.Fail? ==> Unfinished() && n in journal
      ensures s.Pass? && old(journal)[n].payload.value.retain ==> n in journal && IsCommitted(journal[n])
    {
      s := host.ApplyAll(n.id, rs, candidate, base);
      if s.Fail? {
        return;
      }
      s := Commit(n, order);
    }

    /** The part of a publication after its directory exists: capture, plan, apply, commit. */
    method Transact(n: TxName, candidate: Tree, maxBackup: nat, order: seq<Part>, es: seq<Entry>) returns (s: Status)
      requires Truthful() && n.stage.Publishing? && n in journal && OnlyPending(n) && base == host.tree && diff == es
      requires journal[n].payload.Some? && journal[n].payload.value.phase.Preparing? && journal[n].backups.Some?
      requires journal[n].payload.value.records == []
      requires (forall e :: e in es ==> ValidEntry(e)) && FreshEntries(n.id, es)
      modifies this`journal, host
      ensures s == Fail(Stopped) ==> host.steps == 0
      ensures OnlyPending(n) && SameOthers(old(journal), journal, n.id)
      ensures old(journal)[n].payload.value.retain || s.Fail? ==> Truthful()
      ensures n in journal && journal[n].payload.Some? ==>
                journal[n].payload.value.retain == old(journal)[n].payload.value.retain
      ensures s.Pass? ==> PublishedTree(base, es, host.tree) && forall e :: e in es ==> FitsLive(base, e)
      ensures s != Fail(Stopped) ==> (s.Pass? <==> Accepted(base, n.id, es, candidate, maxBackup))
      ensures s.Fail? ==> Unfinished() && n in journal
      ensures s.Pass? && old(journal)[n].payload.value.retain ==> n in journal && IsCommitted(journal[n])
    {
      var sorted := Sorted(es);
      SortedInOrder(es);
      SameEntries(es, sorted);
      var rs;
      s, rs := Prepare(n, sorted, candidate, maxBackup);
      if s.Fail? {
        return;
      }
      s := Execute(n, rs, candidate, order);
    }

    /**
     Publishes a diff. On success the workspace is the old one with the whole diff applied, and
     every changed or removed entry was the one the diff was made against;
     wherever it stops, the journal tells the truth about the workspace, unless the caller gave
     up the outcome and the cleanup of an already committed publication was cut short.
     */
    method Publish(es: seq<Entry>, candidate: Tree, id: nat, manifest: nat, generation: nat, retain: bool,
                   maxBackup: nat, order: seq<Part>) returns (s: Status)
      requires Truthful() && (forall e :: e in es ==> ValidEntry(e)) && FreshEntries(id, es)
      modifies this, host
      ensures s == Fail(Stopped) ==> host.steps == 0
      ensures retain || s.Fail? ==> Truthful()
      ensures retain ==> Published(old(Value()), es, id, s, Value())
      ensures s.Pass? ==> PublishedTree(old(host.tree), es, host.tree) && forall e :: e in es ==> FitsLive(old(host.tree), e)
      ensures if old(HasPending(journal)) then s == Fail(Invalid) && Value() == old(Value())
              else tx == id && base == old(host.tree) && diff == es
      ensures !old(HasPending(journal)) && s != Fail(Stopped) ==> (s.Pass? <==> Accepted(old(host.tree), id, es, candidate, maxBackup))
    {
      if HasPending(journal) {
        return Fail(Invalid);
      }
      tx, base, diff := id, host.tree, es;
      :- OpenTransaction(id, manifest, generation, retain);
      s := Transact(TxName(Publishing, id), candidate, maxBackup, order, es);
    }

    // ----- Recovery -----

    /** Rolls a prepared plan back and settles it. */
    method RollBack(n: TxName, generation: nat) returns (s: Status)
      requires Truthful() && n in journal && Pending(n)
      requires journal[n].payload.Some? && journal[n].payload.value.phase.Prepared?
      requires AcceptedPayload(n, journal[n].payload.value, generation)
      modifies this`journal, host
      ensures (s.Fail? ==> s == Fail(Stopped)) && (s == Fail(Stopped) ==> host.steps == 0)
      ensures Truthful()
      ensures s.Pass? ==> host.tree == base
      ensures journal == (if s.Pass? then old(journal)[n := Settled(old(journal)[n], RolledBack)] else old(journal))
    {
      var d := journal[n];
      var p := d.payload.value;
      if d.backups.None? || !BackupsMatch(p.records, d.backups.value) {
        return Fail(Invalid);
      }
      ghost var w := Value();
      s := host.RollbackRecords(n.id, p.records, d.backups.value, base, true);
      RetoldIsTruth(w, n, d, host.tree);
      assert w.journal[n := d] == w.journal;
      if s.Fail? {
        return;
      }
      RetoldIsTruth(w, n, Settled(d, RolledBack), host.tree);
      s := Put(n, Settled(d, RolledBack));
    }

    /** Settles a directory whose plan was never made durable or is already undone. */
    method Conclude(n: TxName, phase: Phase) returns (s: Status)
      requires Truthful() && n in journal && Pending(n) && journal[n].payload.Some?
      requires match journal[n].payload.value.phase {
                 case Preparing => phase.NotStarted?
                 case NotStarted => phase.NotStarted?
                 case RolledBack => phase.RolledBack?
                 case Prepared => false
                 case Committed => false
               }
      modifies this`journal, host`steps
      ensures (s.Fail? ==> s == Fail(Stopped)) && (s == Fail(Stopped) ==> host.steps == 0)
      ensures Truthful()
      ensures host.tree == base
      ensures journal == (if s.Pass? then old(journal)[n := Settled(old(journal)[n], phase)] else old(journal))
    {
      ghost var w := Value();
      RetoldIsTruth(w, n, Settled(journal[n], phase), host.tree);
      s := Put(n, Settled(journal[n], phase));
    }

    /** Recovers a pending directory with a state file: a prepared plan is rolled back, the rest is settled. */
    method Settle(n: TxName, generation: nat, order: seq<Part>) returns (s: Status, o: Outcome)
      requires Truthful() && n in journal && Pending(n) && journal[n].payload.Some?
      modifies this`journal, host
      ensures s == Fail(Stopped) ==> host.steps == 0
      ensures old(journal)[n].payload.value.retain ==> Truthful()
      ensures forall m :: m != n ==> (m in journal <==> m in old(journal)) && (m in journal ==> journal[m] == old(journal)[m])
      ensures s.Pass? ==> VerdictOf(n, old(journal)[n]) == Report(o) && TrueOutcome(Value(), o)
      ensures IsCommitted(old(journal)[n]) ==> host.tree == old(host.tree)
      ensures !CleansUp(old(journal)[n].payload.value) ==>
                journal == (if s.Pass? then old(journal)[n := Settled(old(journal)[n], PhaseOf(o))] else old(journal))
      ensures s == Pass || s == Fail(Stopped) || CleansUp(old(journal)[n].payload.value)
           || !AcceptedPayload(n, old(journal)[n].payload.value, generation)
    {
      var p := journal[n].payload.value;
      o := WasNotStarted;
      if !AcceptedPayload(n, p, generation) {
        return Fail(Invalid), o;
      }
      match p.phase {
        case Prepared =>
          o := WasRolledBack;
          s := RollBack(n, generation);
        case Preparing =>
          s := Conclude(n, NotStarted);
        case NotStarted =>
          s := Conclude(n, NotStarted);
        case RolledBack =>
          o := WasRolledBack;
          s := Conclude(n, RolledBack);
        case Committed =>
          o, s := WasCommitted, Pass;
          if CleansUp(p) {
            s := RemoveTransaction(n, order);
          } else {
            assert Settled(journal[n], Committed) == journal[n];
          }
      }
    }

    /**
     Recovers one pending directory. A prepared transaction is rolled back and a committed one is
     left alone; a directory without a state file is refused, unless it looks like one of the
     older schema that never got as far as a plan.
     */
    method RecoverOne(n: TxName, generation: nat, order: seq<Part>) returns (s: Status, o: Outcome)
      requires Truthful() && n in journal && Pending(n)
      modifies this`journal, host
      ensures s == Fail(Stopped) ==> host.steps == 0
      ensures old(Retained()) ==> Truthful() && Retained()
      ensures old(Retained()) ==> RecoveredOne(old(Value()), n, s, if s.Pass? then map[n.id := o] else map[], Value())
      ensures forall m :: m != n ==> (m in journal <==> m in old(journal)) && (m in journal ==> journal[m] == old(journal)[m])
      ensures s.Pass? ==> VerdictOf(n, old(journal)[n]) == Report(o) && TrueOutcome(Value(), o)
      ensures VerdictOf(n, old(journal)[n]).Investigate? ==> s == Fail(Invalid) && journal == old(journal)
      ensures s.Pass? && old(journal)[n].payload.Some? && !CleansUp(old(journal)[n].payload.value) ==>
                n in journal && journal[n].payload == Some(old(journal)[n].payload.value.(phase := PhaseOf(o)))
      ensures IsCommitted(old(journal)[n]) || old(journal)[n].payload.None? ==> host.tree == old(host.tree)
      ensures s.Fail? && old(journal)[n].payload.Some? && !CleansUp(old(journal)[n].payload.value) ==> journal == old(journal)
      ensures old(journal)[n].payload.None? && n in journal ==> journal[n].payload.None?
      ensures s == Pass || s == Fail(Stopped) || old(journal)[n].payload.None?
           || CleansUp(old(journal)[n].payload.value)
           || !AcceptedPayload(n, old(journal)[n].payload.value, generation)
    {
      var d := journal[n];
      o := WasNotStarted;
      if d.payload.Some? {
        s, o := Settle(n, generation, order);
        return;
      }
      if n.stage.Staging? || d.marker {
        return Fail(Invalid), o;
      }
      s := RemoveTransaction(n, order);
    }

    /** Recovers every pending directory and reports what became of each transaction. */
    method Recover(generation: nat, order: seq<Part>) returns (s: Status, reports: map<nat, Outcome>)
      requires Truthful()
      modifies this`journal, host
      ensures s == Fail(Stopped) ==> host.steps == 0
      ensures old(Retained()) ==> Recovered(old(Value()), s, reports, Value())
      ensures s.Pass? ==> forall id :: id in reports ==> TrueOutcome(Value(), reports[id])
    {
      reports := map[];
      var names := set n | n in journal && Pending(n);
      assert forall n :: n in journal && Pending(n) ==> n in names;
      if names == {} {
        return Pass, reports;
      }
      var n :| n in names;
      // The directory holds at most one pending transaction, so the scan ends here.
      assert names == {n};
      var o;
      s, o := RecoverOne(n, generation, order);
      if s.Pass? {
        reports := map[n.id := o];
      }
      if old(Retained()) {
        OneIsAll(old(Value()), n, s, reports, Value());
      }
    }

    // ----- Acknowledgement -----

    /** The durable phase an acknowledged outcome must match. */
    function PhaseOf(o: Outcome): Phase {
      match o
      case WasNotStarted => NotStarted
      case WasRolledBack => RolledBack
      case WasCommitted => Committed
    }

    /** The directory a receipt names, if there is exactly one and it records just what the receipt says. */
    method FindSettled(id: nat, o: Outcome, manifest: nat, receiptGeneration: nat, entries: nat, generation: nat)
      returns (s: Status, found: Option<TxName>)
      ensures s != Fail(Stopped)
      ensures s.Pass? && found.None? ==> forall n :: n in journal && n.id == id ==> n.stage.Acknowledged? && journal[n].payload.None?
      ensures found.Some? ==>
                && found.value in journal && found.value.id == id
                && (forall m :: m in journal && m.id == id ==> m == found.value)
                && journal[found.value].payload.Some? && journal[found.value].payload.value.phase == PhaseOf(o)
    {
      var names := set n | n in journal && n.id == id;
      assert forall m :: m in journal && m.id == id ==> m in names;
      if names == {} {
        return Pass, None;
      }
      var n :| n in names;
      if names != {n} {
        return Fail(Invalid), None;
      }
      if journal[n].payload.None? {
        return if n.stage.Acknowledged? then Pass else Fail(Invalid), None;
      }
      var p := journal[n].payload.value;
      if !AcceptedPayload(n, p, generation) {
        return Fail(Invalid), None;
      }
      if p.phase != PhaseOf(o) || p.manifest != manifest || p.generation != receiptGeneration || |p.records| != entries {
        return Fail(Invalid), None;
      }
      return Pass, Some(n);
    }

    /** Moves a directory out of the pending names and removes it. */
    method Release(n: TxName, order: seq<Part>) returns (s: Status)
      requires Truthful() && n in journal && forall m :: m in journal && m.id == n.id ==> m == n
      modifies this`journal, host`steps
      ensures s == Fail(Stopped) ==> host.steps == 0
      ensures Truthful() && (old(Retained()) ==> Retained())
      ensures SameOthers(old(journal), journal, n.id)
      ensures s.Pass? ==> forall m :: m in journal ==> m.id != n.id
      ensures forall m :: m in journal && Pending(m) ==> m in old(journal) && journal[m] == old(journal)[m]
    {
      var done := TxName(Acknowledged, n.id);
      if n != done {
        :- Move(n, done);
      }
      s := RemoveTransaction(done, order);
    }

    /** Releases the evidence of a settled transaction; it never touches the workspace. */
    method Acknowledge(id: nat, o: Outcome, manifest: nat, receiptGeneration: nat, entries: nat, generation: nat,
                       order: seq<Part>) returns (s: Status)
      requires Truthful()
      modifies this`journal, host`steps
      ensures s == Fail(Stopped) ==> host.steps == 0
      ensures Truthful() && (old(Retained()) ==> Retained())
      ensures SameOthers(old(journal), journal, id)
      ensures journal != old(journal) ==>
                exists n :: n in old(journal) && n.id == id && old(journal)[n].payload.Some?
                            && old(journal)[n].payload.value.phase == PhaseOf(o)
      ensures s.Pass? ==> forall n :: n in journal && n.id == id ==> n.stage.Acknowledged? && journal[n].payload.None?
      ensures old(Retained()) ==> Released(old(Value()), id, Value())
    {
      var found;
      s, found := FindSettled(id, o, manifest, receiptGeneration, entries, generation);
      if found.None? {
        return;
      }
      s := Release(found.value, order);
    }

    // ----- Whole runs -----

    /** Performs one call of a run with its own number of steps before the process stops. */
    method PerformCall(c: Call) returns (r: Answer)
      requires Truthful() && Retained() && ValidCall(c)
      modifies this, host
      ensures Performed(old(Value()), c, r, Value())
    {
      host.steps := c.budget;
      match c {
        case Publishes(_, es, candidate, id, manifest, generation, maxBackup, order) =>
          var s := Publish(es, candidate, id, manifest, generation, true, maxBackup, order);
          r := Answer(s, map[]);
        case Recovers(_, generation, order) =>
          var s, reports := Recover(generation, order);
          r := Answer(s, reports);
        case Acknowledges(_, id, o, manifest, receiptGeneration, entries, generation, order) =>
          var s := Acknowledge(id, o, manifest, receiptGeneration, entries, generation, order);
          r := Answer(s, map[]);
      }
    }

    /**
     Any run of publications with retained outcomes, recoveries and acknowledgements, each cut
     short wherever its budget ends. The worlds are what the calls found and left, one after the
     other, from the first world of the run to the last.
     */
    method Run(calls: seq<Call>) returns (answers: seq<Answer>, ghost worlds: seq<World>)
      requires Truthful() && Retained() && forall c :: c in calls ==> ValidCall(c)
      modifies this, host
      ensures |worlds| == |calls| + 1 && worlds[0] == old(Value()) && worlds[|calls|] == Value()
      ensures IsRun(calls, answers, worlds)
    {
      answers, worlds := [], [Value()];
      for k := 0 to |calls|
        invariant |answers| == k && |worlds| == k + 1 && worlds[0] == old(Value()) && worlds[k] == Value()
        invariant Truthful() && Retained()
        invariant forall i :: 0 <= i < k ==> Performed(worlds[i], calls[i], answers[i], worlds[i + 1])
      {
        var r := PerformCall(calls[k]);
        answers, worlds := answers + [r], worlds + [Value()];
      }
    }
  }

  // ----- What is true over every run -----

  /** The publication that began last before a call, or -1. */
  ghost function LastBegun(calls: seq<Call>, worlds: seq<World>, k: nat): (j: int)
    requires k <= |calls| && |worlds| == |calls| + 1
    ensures -1 <= j < k && (j >= 0 ==> calls[j].Publishes? && !HasPending(worlds[j].journal))
  {
    if k == 0 then -1
    else if calls[k - 1].Publishes? && !HasPending(worlds[k - 1].journal) then k - 1
    else LastBegun(calls, worlds, k - 1)
  }

  /** A world a run reached, with what its pending directory says of the publication that began last. */
  ghost predicate Explained(calls: seq<Call>, answers: seq<Answer>, worlds: seq<World>, k: nat)
    requires k <= |calls| && |worlds| == |calls| + 1 && |answers| == |calls|
  {
    var w, j := worlds[k], LastBegun(calls, worlds, k);
    && Truth(w) && AllRetained(w.journal)
    && (HasPending(w.journal) ==> j >= 0)
    && (j >= 0 ==> w.tx == calls[j].id && w.base == worlds[j].tree && w.diff == calls[j].es)
    && (forall n :: n in w.journal && Pending(n) && j >= 0 ==> (IsCommitted(w.journal[n]) <==> answers[j].status.Pass?))
  }

  lemma {:induction false} StepExplained(calls: seq<Call>, answers: seq<Answer>, worlds: seq<World>, k: nat)
    requires IsRun(calls, answers, worlds) && k < |calls| && Explained(calls, answers, worlds, k)
    ensures Explained(calls, answers, worlds, k + 1)
  {
    var w, v := worlds[k], worlds[k + 1];
    assert Performed(w, calls[k], answers[k], v);
    match calls[k] {
      case Publishes(_, es, _, id, _, _, _, _) =>
        if !HasPending(w.journal) {
          assert LastBegun(calls, worlds, k + 1) == k;
        }
      case Recovers(_, _, _) =>
        assert forall n :: n in w.journal && Pending(n) ==> RecoveredOne(w, n, answers[k].status, answers[k].reports, v);
      case Acknowledges(_, id, _, _, _, _, _, _) => assert Released(w, id, v);
    }
  }

  lemma {:induction false} RunExplained(calls: seq<Call>, answers: seq<Answer>, worlds: seq<World>, k: nat)
    requires IsRun(calls, answers, worlds) && k <= |calls|
    requires Truth(worlds[0]) && !HasPending(worlds[0].journal)
    ensures Explained(calls, answers, worlds, k)
  {
    if k > 0 {
      RunExplained(calls, answers, worlds, k - 1);
      StepExplained(calls, answers, worlds, k - 1);
    }
  }

  /**
   Every outcome a recovery reports, anywhere in a run, is about the publication that began last
   and true of the tree that publication found: committed exactly if it succeeded, and then the
   tree is that tree with its whole diff applied and the recovery left it alone; otherwise the
   tree is that tree again, every path of it.
   */
  lemma {:induction false} ReportsAreTrue(calls: seq<Call>, answers: seq<Answer>, worlds: seq<World>, k: nat, id: nat)
    requires IsRun(calls, answers, worlds) && Truth(worlds[0]) && !HasPending(worlds[0].journal)
    requires k < |calls| && id in answers[k].reports
    ensures var j := LastBegun(calls, worlds, k);
            && j >= 0 && calls[j].id == id
            && (answers[k].reports[id].WasCommitted? <==> answers[j].status.Pass?)
            && (if answers[j].status.Pass? then PublishedTree(worlds[j].tree, calls[j].es, worlds[k + 1].tree) && worlds[k + 1].tree == worlds[k].tree
                else worlds[k + 1].tree == worlds[j].tree)
  {
    RunExplained(calls, answers, worlds, k);
    var w, v := worlds[k], worlds[k + 1];
    assert Performed(w, calls[k], answers[k], v);
    if HasPending(w.journal) {
      var n :| n in w.journal && Pending(n);
      assert RecoveredOne(w, n, answers[k].status, answers[k].reports, v);
    }
  }

  /** Committed is never undone: until another publication begins, a successful one's tree stays as it is. */
  lemma {:induction false} CommittedStays(calls: seq<Call>, answers: seq<Answer>, worlds: seq<World>, j: nat, k: nat)
    requires IsRun(calls, answers, worlds) && Truth(worlds[0]) && !HasPending(worlds[0].journal)
    requires j < k <= |calls| && LastBegun(calls, worlds, k) == j && answers[j].status.Pass?
    ensures worlds[k].tree == worlds[j + 1].tree
    decreases k
  {
    if k > j + 1 {
      RunExplained(calls, answers, worlds, k - 1);
      CommittedStays(calls, answers, worlds, j, k - 1);
      var w, v := worlds[k - 1], worlds[k];
      assert Performed(w, calls[k - 1], answers[k - 1], v);
      if HasPending(w.journal) && calls[k - 1].Recovers? {
        var n :| n in w.journal && Pending(n);
        assert RecoveredOne(w, n, answers[k - 1].status, answers[k - 1].reports, v);
      }
    }
  }

  /** A publication is refused while another is pending, so at most one ever is. */
  lemma {:induction false} OnePending(calls: seq<Call>, answers: seq<Answer>, worlds: seq<World>, k: nat)
    requires IsRun(calls, answers, worlds) && Truth(worlds[0]) && !HasPending(worlds[0].journal) && k < |calls|
    ensures forall n, m :: n in worlds[k].journal && m in worlds[k].journal && Pending(n) && Pending(m) ==> n == m
    ensures calls[k].Publishes? && HasPending(worlds[k].journal) ==> answers[k].status.Fail? && worlds[k + 1] == worlds[k]
  {
    RunExplained(calls, answers, worlds, k);
    assert Performed(worlds[k], calls[k], answers[k], worlds[k + 1]);
  }
}

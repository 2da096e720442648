/** Publishing artifacts: intent, then bytes, then publication, for any number of publishers. */
module Artifacts {
  import opened Common

  /** Contents are addressed by digest; equal digests are equal contents. */
  datatype Record = Record(publication: nat, digest: nat, run: nat, size: nat)

  datatype Event = Intended(record: Record) | Published(record: Record)

  /** How far one publication got; a publisher that failed or died does nothing more. */
  datatype Phase = Staged | IntentRecorded | Installed(isNew: bool) | Unwinding(isNew: bool) | Finished | Stopped

  datatype Publication = Publication(record: Record, phase: Phase)

  /** What became of an append: how often it lost a race first, whether it landed, and what was reported. */
  datatype Append = Append(stale: nat, landed: bool, reported: bool)

  datatype Link = Linked | LinkedButReportedFailed | NotLinked | LinkedButStagingStuck

  datatype ContentState = Missing | OrphanedBlob | AlreadyPublished

  datatype Pending = Pending(record: Record, state: ContentState)

  const MaxTries: nat := 8

  predicate HasIntent(events: seq<Event>, r: Record) {
    exists i :: 0 <= i < |events| && events[i] == Intended(r)
  }

  predicate HasPublished(events: seq<Event>, r: Record) {
    exists i :: 0 <= i < |events| && events[i] == Published(r)
  }

  /** Each publication is intended at most once and published at most once, and only after its intent. */
  ghost predicate StreamOk(events: seq<Event>, digest: nat) {
    && (forall e :: e in events ==> e.record.digest == digest)
    && (forall i, j :: 0 <= i < j < |events| && events[i].record.publication == events[j].record.publication ==>
          events[i].Intended? && events[j].Published? && events[i].record == events[j].record)
    && (forall j :: 0 <= j < |events| && events[j].Published? ==> exists i :: 0 <= i < j && events[i] == Intended(events[j].record))
  }

  /** What the stream says of a publication agrees with how far it got. */
  ghost predicate PhaseOk(events: seq<Event>, blobs: map<nat, nat>, p: Publication) {
    && (p.phase.Staged? ==> forall e :: e in events ==> e.record.publication != p.record.publication)
    && (!p.phase.Staged? && !p.phase.Stopped? ==> HasIntent(events, p.record))
    && (p.phase.IntentRecorded? || p.phase.Installed? ==> !HasPublished(events, p.record))
    && (p.phase.Installed? || p.phase.Finished? ==> p.record.digest in blobs)
    && (p.phase.Finished? ==> HasPublished(events, p.record))
  }

  lemma {:induction false} IntentAppended(events: seq<Event>, digest: nat, r: Record)
    requires StreamOk(events, digest) && r.digest == digest && forall e :: e in events ==> e.record.publication != r.publication
    ensures StreamOk(events + [Intended(r)], digest) && HasIntent(events + [Intended(r)], r)
  {
    var more := events + [Intended(r)];
    assert more[|events|] == Intended(r);
    assert forall i :: 0 <= i < |events| ==> events[i] in events;
    forall j | 0 <= j < |more| && more[j].Published?
      ensures exists i :: 0 <= i < j && more[i] == Intended(more[j].record)
    {
      var i :| 0 <= i < j && events[i] == Intended(events[j].record);
      assert more[i] == events[i];
    }
  }

  lemma {:induction false} PublishedAppended(events: seq<Event>, digest: nat, r: Record)
    requires StreamOk(events, digest) && r.digest == digest && HasIntent(events, r) && !HasPublished(events, r)
    ensures StreamOk(events + [Published(r)], digest) && HasPublished(events + [Published(r)], r)
  {
    var more := events + [Published(r)];
    var k :| 0 <= k < |events| && events[k] == Intended(r);
    assert more[|events|] == Published(r) && more[k] == Intended(r);
    forall i | 0 <= i < |events| && events[i].record.publication == r.publication
      ensures i == k
    {
    }
    forall j | 0 <= j < |more| && more[j].Published?
      ensures exists i :: 0 <= i < j && more[i] == Intended(more[j].record)
    {
      if j < |events| {
        var i :| 0 <= i < j && events[i] == Intended(events[j].record);
        assert more[i] == events[i];
      }
    }
  }

  /** Another publication's event changes nothing for this one, and neither does another object. */
  lemma {:induction false} OtherPhaseKept(events: seq<Event>, blobs: map<nat, nat>, p: Publication, more: seq<Event>, others: map<nat, nat>)
    requires PhaseOk(events, blobs, p) && blobs.Keys <= others.Keys
    requires forall e :: e in more ==> e.record.publication != p.record.publication
    ensures PhaseOk(events + more, others, p)
  {
    var all := events + more;
    if HasIntent(events, p.record) {
      var i :| 0 <= i < |events| && events[i] == Intended(p.record);
      assert all[i] == Intended(p.record);
    }
    if HasPublished(events, p.record) {
      var i :| 0 <= i < |events| && events[i] == Published(p.record);
      assert all[i] == Published(p.record);
    }
    if HasPublished(all, p.record) {
      var i :| 0 <= i < |all| && all[i] == Published(p.record);
      assert i < |events| ==> events[i] == Published(p.record);
      assert i >= |events| ==> all[i] in more;
    }
  }

  /** The streams, the installed object of each digest and the publications under way. */
  datatype World = World(streams: map<nat, seq<Event>>, blobs: map<nat, nat>, publications: map<nat, Publication>)

  function StreamAt(streams: map<nat, seq<Event>>, digest: nat): seq<Event> {
    if digest in streams then streams[digest] else []
  }

  /** Every stream is in order, and every published digest has its object. */
  ghost predicate StreamsOk(w: World) {
    && (forall d :: d in w.streams ==> StreamOk(w.streams[d], d))
    && (forall d, e :: d in w.streams && e in w.streams[d] ==> EventOk(w, d, e))
  }

  predicate EventOk(w: World, d: nat, e: Event) {
    && (e.Published? ==> d in w.blobs)
    && e.record.publication in w.publications && w.publications[e.record.publication].record == e.record
  }

  ghost predicate PublicationOk(w: World, n: nat)
    requires n in w.publications
  {
    var p := w.publications[n];
    p.record.publication == n && PhaseOk(StreamAt(w.streams, p.record.digest), w.blobs, p)
  }

  ghost predicate Sound(w: World) {
    StreamsOk(w) && forall n :: n in w.publications ==> PublicationOk(w, n)
  }

  /** Streams only grow, no object is touched and no publication forgotten. */
  ghost predicate Grows(w: World, t: World) {
    && (forall d :: d in w.streams ==> d in t.streams && w.streams[d] <= t.streams[d])
    && (forall d :: d in w.blobs ==> d in t.blobs && t.blobs[d] == w.blobs[d])
    && (forall n :: n in w.publications ==> n in t.publications && t.publications[n].record == w.publications[n].record)
  }

  function At(w: World, n: nat, phase: Phase): World
    requires n in w.publications
  {
    w.(publications := w.publications[n := w.publications[n].(phase := phase)])
  }

  function Added(w: World, e: Event): World {
    w.(streams := w.streams[e.record.digest := StreamAt(w.streams, e.record.digest) + [e]])
  }

  /** A publication may move to a phase that fits what is durable. */
  lemma {:induction false} PhaseSet(w: World, n: nat, phase: Phase)
    requires Sound(w) && n in w.publications
    requires PhaseOk(StreamAt(w.streams, w.publications[n].record.digest), w.blobs, w.publications[n].(phase := phase))
    ensures Sound(At(w, n, phase)) && Grows(w, At(w, n, phase))
  {
    var t := At(w, n, phase);
    forall m | m in t.publications
      ensures PublicationOk(t, m)
    {
      assert PublicationOk(w, m);
    }
    forall d, e | d in t.streams && e in t.streams[d]
      ensures EventOk(t, d, e)
    {
      assert EventOk(w, d, e);
    }
  }

  lemma {:induction false} EventAdded(w: World, n: nat, e: Event, phase: Phase)
    requires Sound(w) && n in w.publications && e.record == w.publications[n].record
    requires StreamOk(StreamAt(w.streams, e.record.digest) + [e], e.record.digest) && (e.Published? ==> e.record.digest in w.blobs)
    requires PhaseOk(StreamAt(w.streams, e.record.digest) + [e], w.blobs, w.publications[n].(phase := phase))
    ensures Sound(At(Added(w, e), n, phase)) && Grows(w, At(Added(w, e), n, phase))
  {
    var t := At(Added(w, e), n, phase);
    assert PublicationOk(w, n);
    forall m | m in t.publications
      ensures PublicationOk(t, m)
    {
      assert PublicationOk(w, m);
      if m != n && w.publications[m].record.digest == e.record.digest {
        OtherPhaseKept(StreamAt(w.streams, e.record.digest), w.blobs, w.publications[m], [e], w.blobs);
      }
    }
    forall d, x | d in t.streams && x in t.streams[d]
      ensures EventOk(t, d, x)
    {
      if d in w.streams && x in w.streams[d] {
        assert EventOk(w, d, x);
      }
    }
  }

  lemma {:induction false} BlobInstalled(w: World, digest: nat, inode: nat)
    requires Sound(w) && digest !in w.blobs
    ensures Sound(w.(blobs := w.blobs[digest := inode])) && Grows(w, w.(blobs := w.blobs[digest := inode]))
  {
    var t := w.(blobs := w.blobs[digest := inode]);
    forall m | m in t.publications
      ensures PublicationOk(t, m)
    {
      assert PublicationOk(w, m);
      var events := StreamAt(w.streams, w.publications[m].record.digest);
      OtherPhaseKept(events, w.blobs, w.publications[m], [], t.blobs);
      assert events + [] == events;
    }
    forall d, e | d in t.streams && e in t.streams[d]
      ensures EventOk(t, d, e)
    {
      assert EventOk(w, d, e);
    }
  }

  predicate Reported(how: Append) {
    Lands(how) && how.reported
  }

  /** An append that lands is durable even when it is reported as failed, and then its publisher gives up. */
  function AfterIntent(w: World, n: nat, how: Append): World
    requires n in w.publications
  {
    var durable := if Lands(how) then Added(w, Intended(w.publications[n].record)) else w;
    At(durable, n, if Reported(how) then IntentRecorded else Stopped)
  }

  /**
   An object that is there already is used as it is, once it verifies and the staged file is gone;
   a new one is remembered as its publisher's own.
   */
  function AfterInstall(w: World, n: nat, verified: bool, link: Link): World
    requires n in w.publications
  {
    var digest := w.publications[n].record.digest;
    if digest in w.blobs then At(w, n, if verified then Installed(false) else Unwinding(false))
    else if link.NotLinked? then At(w, n, Unwinding(false))
    else At(w.(blobs := w.blobs[digest := n]), n, if link.Linked? then Installed(true) else Unwinding(true))
  }

  function AfterPublication(w: World, n: nat, how: Append): World
    requires n in w.publications && w.publications[n].phase.Installed?
  {
    var durable := if Lands(how) then Added(w, Published(w.publications[n].record)) else w;
    At(durable, n, if Reported(how) then Finished else Unwinding(w.publications[n].phase.isNew))
  }

  lemma {:induction false} NothingStaged(w: World, n: nat)
    requires Sound(w) && n in w.publications && w.publications[n].phase.Staged?
    ensures forall e :: e in StreamAt(w.streams, w.publications[n].record.digest) ==> e.record.publication != n
  {
    assert PublicationOk(w, n);
  }

  function AfterStage(w: World, r: Record): World {
    w.(publications := w.publications[r.publication := Publication(r, Staged)])
  }

  /** One step of one publisher; a step whose publication is not ready for it changes nothing. */
  function Performed(w: World, step: Step): World {
    match step
    case Stages(record) => if record.publication in w.publications then w else AfterStage(w, record)
    case Intends(n, how) => if PhaseIs(w, n, Staged) then AfterIntent(w, n, how) else w
    case Installs(n, verified, link) => if PhaseIs(w, n, IntentRecorded) then AfterInstall(w, n, verified, link) else w
    case Publishes(n, how) => if n in w.publications && w.publications[n].phase.Installed? then AfterPublication(w, n, how) else w
    case Unwinds(n, _) => if n in w.publications && w.publications[n].phase.Unwinding? then At(w, n, Stopped) else w
    case Dies(n) => if n in w.publications then At(w, n, Stopped) else w
  }

  predicate PhaseIs(w: World, n: nat, phase: Phase) {
    n in w.publications && w.publications[n].phase == phase
  }

  function PerformedAll(w: World, steps: seq<Step>): World {
    if steps == [] then w else Performed(PerformedAll(w, steps[..|steps| - 1]), steps[|steps| - 1])
  }

  const Empty := World(map[], map[], map[])

  lemma {:induction false} IntentKeeps(w: World, n: nat, how: Append)
    requires Sound(w) && PhaseIs(w, n, Staged)
    ensures Sound(AfterIntent(w, n, how)) && Grows(w, AfterIntent(w, n, how))
  {
    NothingStaged(w, n);
    IntentNext(w, n, if Reported(how) then IntentRecorded else Stopped);
    PhaseSet(w, n, Stopped);
  }

  lemma {:induction false} InstallKeeps(w: World, n: nat, verified: bool, link: Link)
    requires Sound(w) && PhaseIs(w, n, IntentRecorded)
    ensures Sound(AfterInstall(w, n, verified, link)) && Grows(w, AfterInstall(w, n, verified, link))
  {
    var digest := w.publications[n].record.digest;
    assert PublicationOk(w, n);
    if digest in w.blobs {
      PhaseSet(w, n, if verified then Installed(false) else Unwinding(false));
    } else if link.NotLinked? {
      PhaseSet(w, n, Unwinding(false));
    } else {
      BlobInstalled(w, digest, n);
      var installed := w.(blobs := w.blobs[digest := n]);
      assert PublicationOk(installed, n);
      PhaseSet(installed, n, if link.Linked? then Installed(true) else Unwinding(true));
    }
  }

  lemma {:induction false} PublicationKeeps(w: World, n: nat, how: Append)
    requires Sound(w) && n in w.publications && w.publications[n].phase.Installed?
    ensures Sound(AfterPublication(w, n, how)) && Grows(w, AfterPublication(w, n, how))
  {
    assert PublicationOk(w, n);
    PublishedNext(w, n, if Reported(how) then Finished else Unwinding(w.publications[n].phase.isNew));
    PhaseSet(w, n, Unwinding(w.publications[n].phase.isNew));
  }

  /** Every step of every publisher keeps the store sound and loses nothing durable. */
  lemma {:induction false} PerformedKeeps(w: World, step: Step)
    requires Sound(w)
    ensures Sound(Performed(w, step)) && Grows(w, Performed(w, step))
  {
    match step {
      case Stages(record) =>
        if record.publication !in w.publications {
          StageKeeps(w, record);
        }
      case Intends(n, how) =>
        if PhaseIs(w, n, Staged) {
          IntentKeeps(w, n, how);
        }
      case Installs(n, verified, link) =>
        if PhaseIs(w, n, IntentRecorded) {
          InstallKeeps(w, n, verified, link);
        }
      case Publishes(n, how) =>
        if n in w.publications && w.publications[n].phase.Installed? {
          PublicationKeeps(w, n, how);
        }
      case Unwinds(n, _) =>
        if n in w.publications && w.publications[n].phase.Unwinding? {
          assert PublicationOk(w, n);
          PhaseSet(w, n, Stopped);
        }
      case Dies(n) =>
        if n in w.publications {
          PhaseSet(w, n, Stopped);
        }
    }
  }

  lemma {:induction false} RunKeeps(w: World, steps: seq<Step>)
    requires Sound(w)
    ensures Sound(PerformedAll(w, steps)) && Grows(w, PerformedAll(w, steps))
  {
    if steps != [] {
      RunKeeps(w, steps[..|steps| - 1]);
      PerformedKeeps(PerformedAll(w, steps[..|steps| - 1]), steps[|steps| - 1]);
    }
  }

  /**
   Over every run of any publishers from the empty store: each publication has an earlier intent of
   the same record and its object is there, and so the object of a digest is only ever missing
   when nobody published that digest.
   */
  lemma {:induction false} RunsAreBacked(steps: seq<Step>, d: nat)
    ensures var w := PerformedAll(Empty, steps);
            && (forall j :: 0 <= j < |StreamAt(w.streams, d)| && StreamAt(w.streams, d)[j].Published? ==>
                  && d in w.blobs && StreamAt(w.streams, d)[j].record.digest == d
                  && exists i :: 0 <= i < j && StreamAt(w.streams, d)[i] == Intended(StreamAt(w.streams, d)[j].record))
            && (d !in w.blobs ==> !AnyPublished(StreamAt(w.streams, d)))
            && (forall n :: n in w.publications && w.publications[n].phase.Finished? ==>
                  w.publications[n].record.digest in w.blobs && HasPublished(StreamAt(w.streams, w.publications[n].record.digest), w.publications[n].record))
  {
    assert Sound(Empty);
    RunKeeps(Empty, steps);
    var w := PerformedAll(Empty, steps);
    forall j | 0 <= j < |StreamAt(w.streams, d)| && StreamAt(w.streams, d)[j].Published?
      ensures d in w.blobs && StreamAt(w.streams, d)[j].record.digest == d
    {
      assert EventOk(w, d, StreamAt(w.streams, d)[j]);
    }
    forall n | n in w.publications && w.publications[n].phase.Finished?
      ensures w.publications[n].record.digest in w.blobs
      ensures HasPublished(StreamAt(w.streams, w.publications[n].record.digest), w.publications[n].record)
    {
      assert PublicationOk(w, n);
    }
  }

  class ArtifactStore {
    var streams: map<nat, seq<Event>>
    // The installed object of each digest, named by the publication whose staged file it is.
    var blobs: map<nat, nat>
    var publications: map<nat, Publication>

    function Value(): World
      reads this
    {
      World(streams, blobs, publications)
    }

    constructor ()
      ensures Value() == Empty && Sound(Value())
    {
      streams, blobs, publications := map[], map[], map[];
    }

    /** Stages the bytes of a new publication under a name of its own. */
    method Stage(r: Record)
      requires Sound(Value()) && r.publication !in publications
      modifies this`publications
      ensures Sound(Value()) && Grows(old(Value()), Value())
      ensures publications == old(publications)[r.publication := Publication(r, Staged)]
    {
      ghost var w := Value();
      publications := publications[r.publication := Publication(r, Staged)];
      StageKeeps(w, r);
    }

    method SetPhase(n: nat, phase: Phase)
      requires n in publications
      modifies this`publications
      ensures Value() == At(old(Value()), n, phase)
    {
      publications := publications[n := publications[n].(phase := phase)];
    }

    /** Appends under the expected version, trying again after each lost race up to a bound. */
    method AppendEvent(e: Event, how: Append) returns (ok: bool)
      modifies this`streams
      ensures Value() == if Lands(how) then Added(old(Value()), e) else old(Value())
      ensures ok <==> Reported(how)
    {
      var tries := 0;
      while tries < MaxTries
        invariant tries <= MaxTries && tries <= how.stale && streams == old(streams)
      {
        if tries == how.stale {
          if how.landed {
            streams := streams[e.record.digest := StreamAt(streams, e.record.digest) + [e]];
          }
          return how.landed && how.reported;
        }
        tries := tries + 1;
      }
      return false;
    }

    /** Makes the intent durable before any bytes are installed. */
    method RecordIntent(n: nat, how: Append)
      requires Sound(Value()) && n in publications && publications[n].phase.Staged?
      modifies this`streams, this`publications
      ensures Sound(Value()) && Grows(old(Value()), Value())
      ensures Value() == AfterIntent(old(Value()), n, how)
    {
      IntentKeeps(Value(), n, how);
      var r := publications[n].record;
      var ok := AppendEvent(Intended(r), how);
      SetPhase(n, if ok then IntentRecorded else Stopped);
    }

    /** Installs the staged bytes unless the digest already has its object, which then has to verify. */
    method Install(n: nat, verified: bool, link: Link)
      requires Sound(Value()) && n in publications && publications[n].phase.IntentRecorded?
      modifies this`blobs, this`publications
      ensures Sound(Value()) && Grows(old(Value()), Value())
      ensures Value() == AfterInstall(old(Value()), n, verified, link)
    {
      InstallKeeps(Value(), n, verified, link);
      var digest := publications[n].record.digest;
      if digest in blobs {
        SetPhase(n, if verified then Installed(false) else Unwinding(false));
        return;
      }
      if link.NotLinked? {
        SetPhase(n, Unwinding(false));
        return;
      }
      blobs := blobs[digest := n];
      SetPhase(n, if link.Linked? then Installed(true) else Unwinding(true));
    }

    /** Records the publication; the object it needs is there already. */
    method RecordMetadata(n: nat, how: Append)
      requires Sound(Value()) && n in publications && publications[n].phase.Installed?
      modifies this`streams, this`publications
      ensures Sound(Value()) && Grows(old(Value()), Value())
      ensures Value() == AfterPublication(old(Value()), n, how)
    {
      PublicationKeeps(Value(), n, how);
      var r := publications[n].record;
      var failed := Unwinding(publications[n].phase.isNew);
      var ok := AppendEvent(Published(r), how);
      SetPhase(n, if ok then Finished else failed);
    }

    /** Whether a failed publication left a durable trace; an unreadable stream counts as one. */
    method PublicationCommitted(n: nat, readable: bool) returns (committed: bool)
      requires n in publications
      ensures committed <==> !readable || exists e :: e in StreamAt(streams, publications[n].record.digest) && e.record.publication == n
    {
      committed := !readable || exists e :: e in StreamAt(streams, publications[n].record.digest) && e.record.publication == n;
    }

    /** Removes the object a failed publication installed, if that left no durable trace. */
    method RemoveNewObject(n: nat, committed: bool)
      requires n in publications && publications[n].phase.Unwinding?
      modifies this`blobs
      ensures blobs == if publications[n].phase.isNew && !committed && publications[n].record.digest in old(blobs)
                          && old(blobs)[publications[n].record.digest] == n
                       then old(blobs) - {publications[n].record.digest} else old(blobs)
    {
      var digest := publications[n].record.digest;
      if publications[n].phase.isNew && !committed && digest in blobs && blobs[digest] == n {
        blobs := blobs - {digest};
      }
    }

    /** Cleans up after a failure. Its own new object is only removed without a durable trace, and there always is one. */
    method Unwind(n: nat, readable: bool)
      requires Sound(Value()) && n in publications && publications[n].phase.Unwinding?
      modifies this`blobs, this`publications
      ensures Sound(Value()) && Grows(old(Value()), Value())
      ensures Value() == At(old(Value()), n, Stopped)
    {
      ghost var w := Value();
      assert PublicationOk(w, n);
      var committed := PublicationCommitted(n, readable);
      RemoveNewObject(n, committed);
      PhaseSet(w, n, Stopped);
      SetPhase(n, Stopped);
    }

    /** The process dies; what is durable stays as it is. */
    method Crash(n: nat)
      requires Sound(Value()) && n in publications
      modifies this`publications
      ensures Sound(Value()) && Grows(old(Value()), Value()) && Value() == At(old(Value()), n, Stopped)
    {
      PhaseSet(Value(), n, Stopped);
      SetPhase(n, Stopped);
    }

    /** The second half of a publication: install, record, or clean up. */
    method InstallAndRecord(n: nat, verified: bool, link: Link, metadata: Append, readable: bool) returns (ok: bool)
      requires Sound(Value()) && n in publications && publications[n].phase.IntentRecorded?
      modifies this
      ensures Sound(Value()) && Grows(old(Value()), Value())
      ensures n in publications && (ok ==> publications[n].phase.Finished?)
      ensures ok <==> (if old(publications)[n].record.digest in old(blobs) then verified else link.Linked?) && Reported(metadata)
    {
      Install(n, verified, link);
      if publications[n].phase.Installed? {
        RecordMetadata(n, metadata);
      }
      if publications[n].phase.Finished? {
        return true;
      }
      Unwind(n, readable);
      return false;
    }

    /** One publication from staging to its end, with every failure the medium may report. */
    method PublishBytes(r: Record, intent: Append, verified: bool, link: Link, metadata: Append, readable: bool) returns (ok: bool)
      requires Sound(Value()) && r.publication !in publications
      modifies this
      ensures Sound(Value()) && Grows(old(Value()), Value())
      ensures ok ==> r.digest in blobs && HasPublished(StreamAt(streams, r.digest), r)
      ensures ok <==> Reported(intent) && (if r.digest in old(blobs) then verified else link.Linked?) && Reported(metadata)
    {
      var n := r.publication;
      Stage(r);
      RecordIntent(n, intent);
      if publications[n].phase.Stopped? {
        return false;
      }
      assert publications[n].record == r;
      ok := InstallAndRecord(n, verified, link, metadata, readable);
      assert PublicationOk(Value(), n) && publications[n].record == r;
    }

    /** Any interleaving of the steps of any publishers, with crashes anywhere. */
    method Run(steps: seq<Step>)
      requires Sound(Value())
      modifies this
      ensures Value() == PerformedAll(old(Value()), steps)
      ensures Sound(Value()) && Grows(old(Value()), Value())
    {
      RunKeeps(Value(), steps);
      for k := 0 to |steps|
        invariant Sound(Value()) && Value() == PerformedAll(old(Value()), steps[..k])
      {
        assert steps[..k + 1][..k] == steps[..k];
        Perform(steps[k]);
      }
      assert steps[..|steps|] == steps;
    }

    /** Performs a step if its publication is ready for it. */
    method Perform(step: Step)
      requires Sound(Value())
      modifies this
      ensures Sound(Value()) && Value() == Performed(old(Value()), step)
    {
      if step.Stages? {
        if step.record.publication !in publications {
          Stage(step.record);
        }
        return;
      }
      if step.n !in publications {
        return;
      }
      var phase := publications[step.n].phase;
      if step.Intends? && phase.Staged? {
        RecordIntent(step.n, step.how);
      } else if step.Installs? && phase.IntentRecorded? {
        Install(step.n, step.verified, step.link);
      } else if step.Publishes? && phase.Installed? {
        RecordMetadata(step.n, step.how);
      } else if step.Unwinds? && phase.Unwinding? {
        Unwind(step.n, step.readable);
      } else if step.Dies? {
        Crash(step.n);
      }
    }
  }

  datatype Step =
    | Stages(record: Record)
    | Intends(n: nat, how: Append)
    | Installs(n: nat, verified: bool, link: Link)
    | Publishes(n: nat, how: Append)
    | Unwinds(n: nat, readable: bool)
    | Dies(n: nat)

  predicate Lands(how: Append) {
    how.stale < MaxTries && how.landed
  }

  lemma {:induction false} StageKeeps(w: World, r: Record)
    requires Sound(w) && r.publication !in w.publications
    ensures var t := w.(publications := w.publications[r.publication := Publication(r, Staged)]); Sound(t) && Grows(w, t)
  {
    var t := w.(publications := w.publications[r.publication := Publication(r, Staged)]);
    forall d, e | d in t.streams && e in t.streams[d]
      ensures EventOk(t, d, e)
    {
      assert EventOk(w, d, e);
    }
    forall m | m in t.publications
      ensures PublicationOk(t, m)
    {
      if m != r.publication {
        assert PublicationOk(w, m);
      } else {
        assert r.digest in w.streams ==> forall e :: e in w.streams[r.digest] ==> EventOk(w, r.digest, e);
      }
    }
  }

  lemma {:induction false} IntentNext(w: World, n: nat, phase: Phase)
    requires Sound(w) && n in w.publications && w.publications[n].phase.Staged? && (phase.IntentRecorded? || phase.Stopped?)
    ensures var t := At(Added(w, Intended(w.publications[n].record)), n, phase); Sound(t) && Grows(w, t)
  {
    var r := w.publications[n].record;
    var events := StreamAt(w.streams, r.digest);
    assert PublicationOk(w, n);
    IntentAppended(events, r.digest, r);
    forall i | 0 <= i < |events| + 1
      ensures (events + [Intended(r)])[i] != Published(r)
    {
      assert i < |events| ==> events[i] in events;
    }
    EventAdded(w, n, Intended(r), phase);
  }

  lemma {:induction false} PublishedNext(w: World, n: nat, phase: Phase)
    requires Sound(w) && n in w.publications && w.publications[n].phase.Installed? && (phase.Finished? || phase.Unwinding?)
    ensures var t := At(Added(w, Published(w.publications[n].record)), n, phase); Sound(t) && Grows(w, t)
  {
    var r := w.publications[n].record;
    var events := StreamAt(w.streams, r.digest);
    assert PublicationOk(w, n);
    PublishedAppended(events, r.digest, r);
    var k :| 0 <= k < |events| && events[k] == Intended(r);
    assert (events + [Published(r)])[k] == Intended(r);
    EventAdded(w, n, Published(r), phase);
  }

  // ----- The list of incomplete publications -----

  predicate AnyPublished(events: seq<Event>) {
    exists i :: 0 <= i < |events| && events[i].Published?
  }

  predicate PublishedId(events: seq<Event>, n: nat) {
    exists i :: 0 <= i < |events| && events[i].Published? && events[i].record.publication == n
  }

  /** What the presence of the object and of other publications makes of an incomplete one. */
  function StateOf(events: seq<Event>, present: bool): ContentState {
    if !present then Missing else if AnyPublished(events) then AlreadyPublished else OrphanedBlob
  }

  predicate IsPending(events: seq<Event>, present: bool, run: nat, p: Pending) {
    && HasIntent(events, p.record) && p.record.run == run
    && !PublishedId(events, p.record.publication) && p.state == StateOf(events, present)
  }

  /** The incomplete publications of one digest: its intents of the run that no publication pairs. */
  method PendingInStream(events: seq<Event>, present: bool, run: nat) returns (found: seq<Pending>)
    ensures forall p :: p in found <==> IsPending(events, present, run, p)
  {
    var intents: seq<Record> := [];
    var published: set<nat> := {};
    for k := 0 to |events|
      invariant forall r :: r in intents <==> exists i :: 0 <= i < k && events[i] == Intended(r)
      invariant forall n :: n in published <==> exists i :: 0 <= i < k && events[i].Published? && events[i].record.publication == n
    {
      if events[k].Published? {
        published := published + {events[k].record.publication};
      } else {
        intents := intents + [events[k].record];
      }
    }
    var state := StateOf(events, present);
    found := [];
    for k := 0 to |intents|
      invariant forall p :: p in found <==>
                  p.state == state && p.record.run == run && p.record.publication !in published && p.record in intents[..k]
    {
      if intents[k].publication !in published && intents[k].run == run {
        found := found + [Pending(intents[k], state)];
      }
      assert intents[..k + 1] == intents[..k] + [intents[k]];
    }
    assert intents[..|intents|] == intents;
  }

  /** The incomplete publications of a run over all digests. */
  method PendingForRun(streams: map<nat, seq<Event>>, blobs: map<nat, nat>, run: nat) returns (found: seq<Pending>)
    ensures forall p :: p in found <==> exists d :: d in streams && IsPending(streams[d], d in blobs, run, p)
  {
    found := [];
    var rest := streams.Keys;
    while rest != {}
      invariant rest <= streams.Keys
      invariant forall p :: p in found <==> exists d :: d in streams.Keys - rest && IsPending(streams[d], d in blobs, run, p)
    {
      var d :| d in rest;
      var more := PendingInStream(streams[d], d in blobs, run);
      ghost var before := found;
      found := found + more;
      forall p
        ensures p in found <==> exists x :: x in streams.Keys - (rest - {d}) && IsPending(streams[x], x in blobs, run, p)
      {
        if p in more {
          assert d in streams.Keys - (rest - {d}) && IsPending(streams[d], d in blobs, run, p);
        }
        if p in before {
          var x :| x in streams.Keys - rest && IsPending(streams[x], x in blobs, run, p);
          assert x in streams.Keys - (rest - {d});
        }
      }
      rest := rest - {d};
    }
  }

  /** What the list says is missing belongs, in every run, to a digest nobody ever published. */
  lemma {:induction false} MissingWasNeverPublished(steps: seq<Step>, d: nat, run: nat, p: Pending)
    requires d in PerformedAll(Empty, steps).streams
    requires IsPending(PerformedAll(Empty, steps).streams[d], d in PerformedAll(Empty, steps).blobs, run, p) && p.state.Missing?
    ensures var w := PerformedAll(Empty, steps);
            && !AnyPublished(w.streams[d])
            && p.record.publication in w.publications && !w.publications[p.record.publication].phase.Finished?
  {
    RunsAreBacked(steps, d);
    assert Sound(Empty);
    RunKeeps(Empty, steps);
    var w := PerformedAll(Empty, steps);
    var i :| 0 <= i < |w.streams[d]| && w.streams[d][i] == Intended(p.record);
    assert w.streams[d][i] in w.streams[d] && EventOk(w, d, Intended(p.record));
    assert PublicationOk(w, p.record.publication);
  }
}

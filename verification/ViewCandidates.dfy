/** Candidates of a workspace view: what the validator accepts, and what acceptance guarantees. */
module ViewCandidates {
  import opened Common
  import opened ViewLinks
  import opened WorkspaceView

  predicate DeletedDir(entries: seq<Entry>, p: Path) {
    exists e :: e in entries && e.op.Delete? && e.kind.DirKind? && e.path == p
  }

  /** One manifest entry agrees with the frozen baseline and with the stored payload. */
  ghost predicate EntryOk(baseline: Items, payload: Items, e: Entry, maxDepth: nat) {
    && PathOk(e.path, maxDepth) && e.mode <= 0x1FF
    && (if e.op.Add? then e.path !in baseline && e.preimage.None?
        else e.path in baseline && KindOf(baseline[e.path]) == e.kind && e.preimage == Some(PreOf(baseline, e.path)))
    && (if e.op.Delete? then e.path !in payload && e.mode == 0 && e.digest == OfBytes([])
        else
          && e.path in payload && KindOf(payload[e.path]) == e.kind
          && e.digest == (if e.kind.DirKind? then OfDir(e.mode) else DigestOf(payload[e.path]))
          && (e.kind.LinkKind? ==> e.mode == 0x1FF))
  }

  /** Removing a directory must list everything that was below it. */
  predicate RemovalsComplete(baseline: Items, entries: seq<Entry>) {
    forall c :: c in baseline && (exists k :: 0 < k < |c| && DeletedDir(entries, c[..k])) ==> c in Deleted(entries)
  }

  /** Whatever is stored without being declared is the directory of something declared, as in the baseline. */
  predicate NothingUndeclared(baseline: Items, payload: Items, entries: seq<Entry>) {
    forall p :: p in payload && p !in Written(entries) && p !in Deleted(entries) ==>
      p in Scaffolds(entries) && p in baseline && baseline[p].Dir? && payload[p].Dir?
  }

  /** The baseline with the removed entries gone and the written ones in place. */
  function Composed(baseline: Items, payload: Items, entries: seq<Entry>): Items
    requires Written(entries) <= payload.Keys
  {
    map p | p in (baseline.Keys - Deleted(entries)) + Written(entries) ::
      if p in Written(entries) then payload[p] else baseline[p]
  }

  /** Candidate storage as the inventory of it demands: a tree of its own, with private permissions. */
  ghost predicate PrivateInventory(payload: Items, maxEntries: nat, maxDepth: nat) {
    && Inventory(payload, maxEntries, maxDepth)
    && forall p :: p in payload ==> payload[p] == Private(payload[p])
  }

  ghost predicate Accepts(baseline: Items, payload: Items, entries: seq<Entry>, maxEntries: nat, maxDepth: nat) {
    && |entries| <= maxEntries
    && PrivateInventory(payload, maxEntries, maxDepth)
    && (forall e :: e in entries ==> EntryOk(baseline, payload, e, maxDepth))
    && UniquePaths(entries)
    && RemovalsComplete(baseline, entries)
    && NothingUndeclared(baseline, payload, entries)
    && Written(entries) <= payload.Keys
    && LinksOk(Composed(baseline, payload, entries), maxDepth)
  }

  // ----- An accepted candidate composes to a tree -----

  lemma {:induction false} Apart(entries: seq<Entry>, p: Path)
    requires UniquePaths(entries)
    ensures !(p in Written(entries) && p in Deleted(entries))
  {
  }

  /** What acceptance says of one declared path. */
  lemma {:induction false} Declared(baseline: Items, payload: Items, entries: seq<Entry>, maxEntries: nat, maxDepth: nat, q: Path)
    requires Accepts(baseline, payload, entries, maxEntries, maxDepth)
    ensures q in Deleted(entries) ==> q !in payload && q in baseline && (baseline[q].Dir? ==> DeletedDir(entries, q))
    ensures q in Written(entries) && q in baseline ==> KindOf(payload[q]) == KindOf(baseline[q])
  {
    if q in Deleted(entries) {
      var e :| e in entries && e.op.Delete? && e.path == q;
      assert EntryOk(baseline, payload, e, maxDepth);
    }
    if q in Written(entries) {
      var e :| e in entries && !e.op.Delete? && e.path == q;
      assert EntryOk(baseline, payload, e, maxDepth);
    }
  }

  lemma {:induction false} ParentOfWritten(baseline: Items, payload: Items, entries: seq<Entry>, maxEntries: nat, maxDepth: nat, p: Path)
    requires TreeOk(baseline) && Accepts(baseline, payload, entries, maxEntries, maxDepth) && p in Written(entries)
    ensures p != [] && IsDir(Composed(baseline, payload, entries), Parent(p))
  {
    assert p in payload;
    Declared(baseline, payload, entries, maxEntries, maxDepth, Parent(p));
  }

  lemma {:induction false} ParentOfKept(baseline: Items, payload: Items, entries: seq<Entry>, maxEntries: nat, maxDepth: nat, p: Path)
    requires TreeOk(baseline) && Accepts(baseline, payload, entries, maxEntries, maxDepth)
    requires p in baseline && p !in Written(entries) && p !in Deleted(entries)
    ensures p != [] && IsDir(Composed(baseline, payload, entries), Parent(p))
  {
    var q := Parent(p);
    Declared(baseline, payload, entries, maxEntries, maxDepth, q);
    assert q != [] ==> q in baseline && baseline[q].Dir?;
    assert !DeletedDir(entries, p[..|p| - 1]) || q == [];
  }

  /** Whatever the validator accepts composes to a tree: every entry sits in a directory. */
  lemma {:induction false} AcceptedIsTree(baseline: Items, payload: Items, entries: seq<Entry>, maxEntries: nat, maxDepth: nat)
    requires TreeOk(baseline) && Accepts(baseline, payload, entries, maxEntries, maxDepth)
    ensures TreeOk(Composed(baseline, payload, entries))
  {
    forall p | p in Composed(baseline, payload, entries)
      ensures p != [] && IsDir(Composed(baseline, payload, entries), Parent(p))
    {
      if p in Written(entries) {
        ParentOfWritten(baseline, payload, entries, maxEntries, maxDepth, p);
      } else {
        ParentOfKept(baseline, payload, entries, maxEntries, maxDepth, p);
      }
    }
  }

  /** A removed entry leaves nothing below it. */
  lemma {:induction false} RemovedLeavesNothing(baseline: Items, payload: Items, entries: seq<Entry>, maxEntries: nat, maxDepth: nat, p: Path, q: Path)
    requires TreeOk(baseline) && Accepts(baseline, payload, entries, maxEntries, maxDepth)
    requires p in Deleted(entries) && p != [] && Prefix(p, q)
    ensures q !in Composed(baseline, payload, entries)
  {
    AcceptedIsTree(baseline, payload, entries, maxEntries, maxDepth);
    Apart(entries, p);
    var composed := Composed(baseline, payload, entries);
    assert p !in composed;
    if q in composed && p != q {
      AncestorsAreDirs(composed, p, q);
    }
  }

  // ----- Composing an export gives back the view -----

  function EntryAt(entries: seq<Entry>, p: Path): (e: Entry)
    requires p in Written(entries)
    ensures e in entries && !e.op.Delete? && e.path == p
  {
    if entries[0].path == p && !entries[0].op.Delete? then entries[0]
    else
      assert p in Written(entries[1..]) by {
        var e :| e in entries && !e.op.Delete? && e.path == p;
        assert entries == [entries[0]] + entries[1..];
        assert e in entries[1..];
      }
      EntryAt(entries[1..], p)
  }

  /** The composition with the modes the manifest declares. */
  function Published(baseline: Items, payload: Items, entries: seq<Entry>): Items
    requires Written(entries) <= payload.Keys
  {
    map p | p in (baseline.Keys - Deleted(entries)) + Written(entries) ::
      if p in Written(entries) then WithMode(payload[p], EntryAt(entries, p).mode) else baseline[p]
  }

  lemma {:induction false} Restored(i: Item)
    ensures WithMode(Private(i), ModeOf(i)) == i
  {
  }

  /** Exporting a view and composing the result with the baseline gives the view back. */
  lemma {:induction false} RoundTrip(baseline: Items, final: Items, entries: seq<Entry>, payload: Items)
    requires KindsKept(baseline, final) && IsExport(baseline, final, entries) && IsPayload(final, entries, payload)
    ensures Published(baseline, payload, entries) == final
  {
    var result := Published(baseline, payload, entries);
    forall p
      ensures p in result <==> p in final
      ensures p in result ==> result[p] == final[p]
    {
      ExportedAt(baseline, final, entries, p);
      if p in Written(entries) {
        Restored(final[p]);
      }
    }
  }

  /** What an export says of one path. */
  lemma {:induction false} ExportedAt(baseline: Items, final: Items, entries: seq<Entry>, p: Path)
    requires IsExport(baseline, final, entries)
    ensures p in Deleted(entries) <==> p in baseline && p !in final
    ensures p in Written(entries) <==> p in final && !(p in baseline && baseline[p] == final[p])
    ensures p in Written(entries) ==> EntryAt(entries, p).mode == ModeOf(final[p])
  {
    if p in baseline && p in final {
      UnchangedIff(baseline[p], final[p]);
    }
    if p in baseline || p in final {
      var e := ExportEntry(baseline, final, p);
      assert e.Some? ==> e.value in entries;
    }
    assert forall e :: e in entries ==> ExportEntry(baseline, final, e.path) == Some(e);
  }

  // ----- When an export is accepted by its own validation -----

  ghost predicate SameShape(a: Items, b: Items) {
    a.Keys == b.Keys && forall p :: p in a ==> KindOf(a[p]) == KindOf(b[p]) && (a[p].Link? ==> a[p] == b[p])
  }

  lemma {:induction false} WalkSameShape(a: Items, b: Items, dir: Path, cs: seq<Component>, links: nat, more: bool, maxDepth: nat)
    requires links <= MaxLinks && SameShape(a, b)
    ensures Walk(a, dir, cs, links, more, maxDepth) == Walk(b, dir, cs, links, more, maxDepth)
    decreases MaxLinks - links, |cs|, 1
  {
    if cs != [] {
      if cs[0].Stay? {
        WalkSameShape(a, b, dir, cs[1..], links, more, maxDepth);
      } else if cs[0].Up? {
        if dir != [] {
          WalkSameShape(a, b, dir[..|dir| - 1], cs[1..], links, more, maxDepth);
        }
      } else {
        DownSameShape(a, b, dir, cs, links, more, maxDepth);
      }
    }
  }

  lemma {:induction false} DownSameShape(a: Items, b: Items, dir: Path, cs: seq<Component>, links: nat, more: bool, maxDepth: nat)
    requires links <= MaxLinks && SameShape(a, b) && cs != [] && cs[0].Down?
    ensures Walk(a, dir, cs, links, more, maxDepth) == Walk(b, dir, cs, links, more, maxDepth)
    decreases MaxLinks - links, |cs|, 0
  {
    var current, rest := dir + [cs[0].name], cs[1..];
    if current in a && a[current].Link? {
      if PathOk(current, maxDepth) && links < MaxLinks {
        WalkSameShape(a, b, dir, a[current].target, links + 1, more || rest != [], maxDepth);
        var inner := Walk(a, dir, a[current].target, links + 1, more || rest != [], maxDepth);
        if inner.Resolved? {
          WalkSameShape(a, b, inner.path, rest, inner.links, more, maxDepth);
        }
      }
    } else {
      WalkSameShape(a, b, current, rest, links, more, maxDepth);
    }
  }

  lemma {:induction false} LinksSameShape(a: Items, b: Items, maxDepth: nat)
    requires SameShape(a, b) && LinksOk(a, maxDepth)
    ensures LinksOk(b, maxDepth)
  {
    forall p | p in b && b[p].Link?
      ensures LinkOk(b, p, maxDepth)
    {
      assert LinkOk(a, p, maxDepth);
      WalkSameShape(a, b, [], Components(p), 0, false, maxDepth);
    }
  }

  lemma {:induction false} ComposedShape(baseline: Items, final: Items, entries: seq<Entry>, payload: Items)
    requires KindsKept(baseline, final) && IsExport(baseline, final, entries) && IsPayload(final, entries, payload)
    ensures SameShape(final, Composed(baseline, payload, entries))
  {
    var composed := Composed(baseline, payload, entries);
    forall p
      ensures p in composed <==> p in final
      ensures p in final ==> KindOf(final[p]) == KindOf(composed[p]) && (final[p].Link? ==> final[p] == composed[p])
    {
      ExportedAt(baseline, final, entries, p);
    }
  }

  lemma {:induction false} ScaffoldParent(entries: seq<Entry>, p: Path)
    requires p in Written(entries) + Scaffolds(entries) && |p| > 1
    ensures Parent(p) in Scaffolds(entries)
  {
    if p in Written(entries) {
      assert p[..|p| - 1] in Scaffolds(entries);
    } else {
      var w, k :| w in Written(entries) && 0 < k < |w| && p == w[..k];
      assert Parent(p) == w[..k - 1];
    }
  }

  lemma {:induction false} ParentStored(final: Items, entries: seq<Entry>, payload: Items, p: Path)
    requires TreeOk(final) && IsPayload(final, entries, payload) && p in payload
    ensures p != [] && IsDir(payload, Parent(p))
  {
    assert p in final;
    if |p| > 1 {
      ScaffoldParent(entries, p);
      assert Parent(p) in payload && final[Parent(p)].Dir?;
    }
  }

  lemma {:induction false} StoredItem(final: Items, entries: seq<Entry>, payload: Items, p: Path, maxEntries: nat, maxDepth: nat)
    requires Inventory(final, maxEntries, maxDepth) && IsPayload(final, entries, payload) && p in payload
    ensures ItemOk(p, payload[p], maxDepth) && payload[p] == Private(payload[p])
  {
    assert p in final && payload[p] == Private(final[p]) && ItemOk(p, final[p], maxDepth);
  }

  lemma {:induction false} PayloadTree(final: Items, entries: seq<Entry>, payload: Items)
    requires TreeOk(final) && IsPayload(final, entries, payload)
    ensures TreeOk(payload) && |payload| <= |final|
  {
    forall p | p in payload
      ensures p != [] && IsDir(payload, Parent(p))
    {
      ParentStored(final, entries, payload, p);
    }
    SubsetSize(payload.Keys, final.Keys);
    assert |payload.Keys| == |payload| && |final.Keys| == |final|;
  }

  lemma {:induction false} StoredItems(final: Items, entries: seq<Entry>, payload: Items, maxEntries: nat, maxDepth: nat)
    requires Inventory(final, maxEntries, maxDepth) && IsPayload(final, entries, payload)
    ensures forall p :: p in payload ==> ItemOk(p, payload[p], maxDepth) && payload[p] == Private(payload[p])
  {
    forall p | p in payload
      ensures ItemOk(p, payload[p], maxDepth) && payload[p] == Private(payload[p])
    {
      StoredItem(final, entries, payload, p, maxEntries, maxDepth);
    }
  }

  lemma {:induction false} PayloadStored(final: Items, entries: seq<Entry>, payload: Items, maxEntries: nat, maxDepth: nat)
    requires Inventory(final, maxEntries, maxDepth) && IsPayload(final, entries, payload)
    ensures PrivateInventory(payload, maxEntries, maxDepth) <==> LinksOk(payload, maxDepth)
  {
    PayloadTree(final, entries, payload);
    StoredItems(final, entries, payload, maxEntries, maxDepth);
    OnlyLinksMatter(payload, maxEntries, maxDepth);
  }

  lemma {:induction false} OnlyLinksMatter(payload: Items, maxEntries: nat, maxDepth: nat)
    requires TreeOk(payload) && |payload| <= maxEntries
    requires forall p :: p in payload ==> ItemOk(p, payload[p], maxDepth) && payload[p] == Private(payload[p])
    ensures PrivateInventory(payload, maxEntries, maxDepth) <==> LinksOk(payload, maxDepth)
  {
  }

  lemma {:induction false} ExportedWrite(baseline: Items, final: Items, payload: Items, e: Entry, maxDepth: nat)
    requires KindsKept(baseline, final) && (e.path in baseline || e.path in final) && ExportEntry(baseline, final, e.path) == Some(e)
    requires !e.op.Delete? && e.path in payload && payload[e.path] == Private(final[e.path])
    requires PathOk(e.path, maxDepth) && ModeOf(final[e.path]) <= 0x1FF
    ensures EntryOk(baseline, payload, e, maxDepth)
  {
  }

  lemma {:induction false} ExportedEntry(baseline: Items, final: Items, entries: seq<Entry>, payload: Items, e: Entry,
                                         maxEntries: nat, maxDepth: nat)
    requires Inventory(baseline, maxEntries, maxDepth) && Inventory(final, maxEntries, maxDepth) && KindsKept(baseline, final)
    requires IsExport(baseline, final, entries) && IsPayload(final, entries, payload) && e in entries
    ensures EntryOk(baseline, payload, e, maxDepth)
  {
    assert ExportEntry(baseline, final, e.path) == Some(e);
    if !e.op.Delete? {
      assert e.path in Written(entries);
      assert ItemOk(e.path, final[e.path], maxDepth);
      ExportedWrite(baseline, final, payload, e, maxDepth);
    } else {
      assert ItemOk(e.path, baseline[e.path], maxDepth);
      NotStored(final, entries, payload, e.path);
    }
  }

  lemma {:induction false} NotStored(final: Items, entries: seq<Entry>, payload: Items, p: Path)
    requires IsPayload(final, entries, payload) && p !in final
    ensures p !in payload
  {
  }

  lemma {:induction false} ExportRemoves(baseline: Items, final: Items, entries: seq<Entry>)
    requires TreeOk(final) && IsExport(baseline, final, entries)
    ensures RemovalsComplete(baseline, entries)
  {
    forall c | c in baseline && exists k :: 0 < k < |c| && DeletedDir(entries, c[..k])
      ensures c in Deleted(entries)
    {
      var k :| 0 < k < |c| && DeletedDir(entries, c[..k]);
      assert c[..k] in Deleted(entries);
      ExportedAt(baseline, final, entries, c[..k]);
      ExportedAt(baseline, final, entries, c);
      if c in final {
        AncestorsAreDirs(final, c[..k], c);
      }
    }
  }

  lemma {:induction false} ExportStores(baseline: Items, final: Items, entries: seq<Entry>, payload: Items)
    requires TreeOk(final) && IsExport(baseline, final, entries) && IsPayload(final, entries, payload)
    ensures NothingUndeclared(baseline, payload, entries)
  {
    forall p | p in payload && p !in Written(entries) && p !in Deleted(entries)
      ensures p in Scaffolds(entries) && p in baseline && baseline[p].Dir? && payload[p].Dir?
    {
      ExportedAt(baseline, final, entries, p);
      var w, k :| w in Written(entries) && 0 < k < |w| && p == w[..k];
      assert w in final && Prefix(p, w);
      AncestorsAreDirs(final, p, w);
    }
  }

  /**
   An exported diff within its bounds passes its own validation exactly when the links it stores
   resolve among the stored payloads alone, where unchanged links of the baseline are missing.
   */
  lemma {:induction false} ExportAcceptedIff(baseline: Items, final: Items, entries: seq<Entry>, payload: Items, maxEntries: nat, maxDepth: nat)
    requires Inventory(baseline, maxEntries, maxDepth) && Inventory(final, maxEntries, maxDepth) && KindsKept(baseline, final)
    requires IsExport(baseline, final, entries) && IsPayload(final, entries, payload) && |entries| <= maxEntries
    ensures Accepts(baseline, payload, entries, maxEntries, maxDepth) <==> LinksOk(payload, maxDepth)
  {
    PayloadStored(final, entries, payload, maxEntries, maxDepth);
    forall e | e in entries
      ensures EntryOk(baseline, payload, e, maxDepth)
    {
      ExportedEntry(baseline, final, entries, payload, e, maxEntries, maxDepth);
    }
    ExportRemoves(baseline, final, entries);
    ExportStores(baseline, final, entries, payload);
    ComposedShape(baseline, final, entries, payload);
    LinksSameShape(final, Composed(baseline, payload, entries), maxDepth);
  }

  // ----- A legitimate view whose export is refused -----

  /** A directory p/q/r, a directory d, and a link u to p/q/r. */
  function ExampleBaseline(): Items {
    var p, q, r, d, u := Ordinary(0), Ordinary(1), Ordinary(2), Ordinary(3), Ordinary(4);
    map[[p] := Dir(0x1ED), [p, q] := Dir(0x1ED), [p, q, r] := Dir(0x1ED), [d] := Dir(0x1ED),
        [u] := Link([Down(p), Down(q), Down(r)])]
  }

  function ExampleAdded(): Items {
    var d, u, l, m := Ordinary(3), Ordinary(4), Ordinary(5), Ordinary(6);
    map[[d, m] := Link([Up, Down(u), Up]), [l] := Link([Down(d), Down(m), Up])]
  }

  /** The same view with two more links: d/m to ../u/.. and l to d/m/.. */
  function ExampleFinal(): Items {
    ExampleBaseline() + ExampleAdded()
  }

  /** Through u, the link l resolves to p in the view; without u, it climbs above the root. */
  lemma {:induction false} ExampleResolution(payload: Items)
    requires [Ordinary(5)] in payload && payload[[Ordinary(5)]] == ExampleFinal()[[Ordinary(5)]]
    requires [Ordinary(3), Ordinary(6)] in payload && payload[[Ordinary(3), Ordinary(6)]] == ExampleFinal()[[Ordinary(3), Ordinary(6)]]
    requires [Ordinary(3)] in payload && payload[[Ordinary(3)]].Dir? && [Ordinary(4)] !in payload
    ensures !LinkOk(payload, [Ordinary(5)], 8)
  {
    var d, u, l, m := Ordinary(3), Ordinary(4), Ordinary(5), Ordinary(6);
    assert [] + [u] == [u] && [u][..0] == [] && [d][..0] == [] && [] + [d] == [d] && [d] + [m] == [d, m] && [] + [l] == [l];
    var inM := [Up, Down(u), Up];
    assert inM[1..] == [Down(u), Up] && [Down(u), Up][1..] == [Up] && [Up][1..] == [];
    assert Walk(payload, [u], [Up], 2, true, 8) == OneMore(Walk(payload, [], [], 2, true, 8));
    assert Walk(payload, [], [Down(u), Up], 2, true, 8).path == [];
    assert Walk(payload, [d], inM, 2, true, 8).path == [];
    var inL := [Down(d), Down(m), Up];
    assert inL[1..] == [Down(m), Up] && [Down(m), Up][1..] == [Up];
    assert Walk(payload, [d], [Down(m), Up], 1, false, 8).Failed?;
    assert Walk(payload, [], inL, 1, false, 8).Failed?;
    assert Components([l]) == [Down(l)] by {
      assert [l][1..] == [];
    }
    assert [Down(l)][1..] == [];
  }

  lemma {:induction false} DirStep(items: Items, dir: Path, name: Name, rest: seq<Component>, links: nat, more: bool, maxDepth: nat)
    requires links <= MaxLinks && PathOk(dir + [name], maxDepth) && dir + [name] in items && items[dir + [name]].Dir?
    ensures Walk(items, dir, [Down(name)] + rest, links, more, maxDepth) == OneMore(Walk(items, dir + [name], rest, links, more, maxDepth))
  {
    assert ([Down(name)] + rest)[1..] == rest;
  }

  lemma {:induction false} UpStep(items: Items, dir: Path, name: Name, rest: seq<Component>, links: nat, more: bool, maxDepth: nat)
    requires links <= MaxLinks
    ensures Walk(items, dir + [name], [Up] + rest, links, more, maxDepth) == OneMore(Walk(items, dir, rest, links, more, maxDepth))
  {
    assert ([Up] + rest)[1..] == rest && (dir + [name])[..|dir|] == dir;
  }

  lemma {:induction false} ExampleU(items: Items, links: nat, more: bool)
    requires links <= MaxLinks
    requires [Ordinary(0)] in items && items[[Ordinary(0)]].Dir?
    requires [Ordinary(0), Ordinary(1)] in items && items[[Ordinary(0), Ordinary(1)]].Dir?
    requires [Ordinary(0), Ordinary(1), Ordinary(2)] in items && items[[Ordinary(0), Ordinary(1), Ordinary(2)]].Dir?
    ensures Walk(items, [], [Down(Ordinary(0)), Down(Ordinary(1)), Down(Ordinary(2))], links, more, 8)
         == Resolved([Ordinary(0), Ordinary(1), Ordinary(2)], links, 3)
  {
    var p, q, r := Ordinary(0), Ordinary(1), Ordinary(2);
    assert [] + [p] == [p] && [p] + [q] == [p, q] && [p, q] + [r] == [p, q, r];
    assert [Down(p)] + [Down(q), Down(r)] == [Down(p), Down(q), Down(r)] && [Down(q)] + [Down(r)] == [Down(q), Down(r)];
    assert [Down(r)] + [] == [Down(r)];
    DirStep(items, [], p, [Down(q), Down(r)], links, more, 8);
    DirStep(items, [p], q, [Down(r)], links, more, 8);
    DirStep(items, [p, q], r, [], links, more, 8);
  }

  lemma {:induction false} LinkStep(items: Items, dir: Path, name: Name, rest: seq<Component>, links: nat, more: bool, maxDepth: nat, inner: Outcome)
    requires links < MaxLinks && PathOk(dir + [name], maxDepth) && dir + [name] in items && items[dir + [name]].Link?
    requires Walk(items, dir, items[dir + [name]].target, links + 1, more || rest != [], maxDepth) == inner && inner.Resolved?
    ensures inner.links <= MaxLinks
    ensures Walk(items, dir, [Down(name)] + rest, links, more, maxDepth) ==
            Plus(Walk(items, inner.path, rest, inner.links, more, maxDepth), 1 + inner.steps)
  {
    assert ([Down(name)] + rest)[1..] == rest;
  }

  predicate ExampleShape(items: Items) {
    var p, q, r, d, u, l, m := Ordinary(0), Ordinary(1), Ordinary(2), Ordinary(3), Ordinary(4), Ordinary(5), Ordinary(6);
    && [p] in items && items[[p]].Dir? && [p, q] in items && items[[p, q]].Dir? && [p, q, r] in items && items[[p, q, r]].Dir?
    && [d] in items && items[[d]].Dir? && [u] in items && items[[u]] == Link([Down(p), Down(q), Down(r)])
    && [d, m] in items && items[[d, m]] == Link([Up, Down(u), Up])
    && [l] in items && items[[l]] == Link([Down(d), Down(m), Up])
  }

  lemma {:induction false} ExampleThroughU(items: Items, links: nat, more: bool)
    requires ExampleShape(items) && links < MaxLinks - 2
    ensures Walk(items, [], [Down(Ordinary(4))] + [], links, more, 8) == Resolved([Ordinary(0), Ordinary(1), Ordinary(2)], links + 1, 4)
    ensures Walk(items, [Ordinary(3)], [Up, Down(Ordinary(4)), Up], links, more, 8) == Resolved([Ordinary(0), Ordinary(1)], links + 1, 6)
  {
    var p, q, r, d, u := Ordinary(0), Ordinary(1), Ordinary(2), Ordinary(3), Ordinary(4);
    assert [] + [u] == [u] && [] + [d] == [d] && [p, q] + [r] == [p, q, r] && [Up] + [] == [Up];
    ExampleU(items, links + 1, true);
    ExampleU(items, links + 1, more);
    LinkStep(items, [], u, [Up], links, more, 8, Resolved([p, q, r], links + 1, 3));
    LinkStep(items, [], u, [], links, more, 8, Resolved([p, q, r], links + 1, 3));
    UpStep(items, [p, q], r, [], links + 1, more, 8);
    UpStep(items, [], d, [Down(u)] + [Up], links, more, 8);
    assert [Up, Down(u), Up] == [Up] + ([Down(u)] + [Up]);
  }

  lemma {:induction false} ExampleM(items: Items)
    requires ExampleShape(items)
    ensures Walk(items, [], [Down(Ordinary(3)), Down(Ordinary(6))], 0, false, 8) == Resolved([Ordinary(0), Ordinary(1)], 2, 8)
  {
    var p, q, d, m := Ordinary(0), Ordinary(1), Ordinary(3), Ordinary(6);
    assert [d] + [m] == [d, m] && [] + [d] == [d];
    ExampleThroughU(items, 1, false);
    LinkStep(items, [d], m, [], 0, false, 8, Resolved([p, q], 2, 6));
    DirStep(items, [], d, [Down(m)] + [], 0, false, 8);
    assert [Down(d), Down(m)] == [Down(d)] + ([Down(m)] + []);
  }

  lemma {:induction false} ExampleL(items: Items)
    requires ExampleShape(items)
    ensures Walk(items, [], [Down(Ordinary(3)), Down(Ordinary(6)), Up], 1, false, 8) == Resolved([Ordinary(0)], 3, 9)
  {
    var p, q, d, m := Ordinary(0), Ordinary(1), Ordinary(3), Ordinary(6);
    assert [d] + [m] == [d, m] && [] + [d] == [d] && [p] + [q] == [p, q] && [Up] + [] == [Up];
    ExampleThroughU(items, 2, true);
    LinkStep(items, [d], m, [Up], 1, false, 8, Resolved([p, q], 3, 6));
    UpStep(items, [p], q, [], 3, false, 8);
    DirStep(items, [], d, [Down(m)] + [Up], 1, false, 8);
    assert [Down(d), Down(m), Up] == [Down(d)] + ([Down(m)] + [Up]);
  }

  lemma {:induction false} ExampleLinkU(items: Items)
    requires ExampleShape(items)
    ensures LinkOk(items, [Ordinary(4)], 8)
  {
    var u := Ordinary(4);
    ExampleThroughU(items, 0, false);
    assert [u][1..] == [];
    assert Components([u]) == [Down(u)] + [];
  }

  lemma {:induction false} ExampleLinkM(items: Items)
    requires ExampleShape(items)
    ensures LinkOk(items, [Ordinary(3), Ordinary(6)], 8)
  {
    var d, m := Ordinary(3), Ordinary(6);
    ExampleM(items);
    assert [d, m][1..] == [m] && [m][1..] == [];
    assert Components([m]) == [Down(m)] && Components([d, m]) == [Down(d), Down(m)];
  }

  lemma {:induction false} ExampleLinkL(items: Items)
    requires ExampleShape(items)
    ensures LinkOk(items, [Ordinary(5)], 8)
  {
    var p, l := Ordinary(0), Ordinary(5);
    ExampleL(items);
    assert [] + [l] == [l] && [l][1..] == [];
    LinkStep(items, [], l, [], 0, false, 8, Resolved([p], 3, 9));
    assert Components([l]) == [Down(l)] + [];
  }

  /** In the view, the link in d resolves to p/q and the link at the root to p. */
  lemma {:induction false} ExampleLinks(items: Items)
    requires ExampleShape(items)
    ensures LinkOk(items, [Ordinary(4)], 8) && LinkOk(items, [Ordinary(3), Ordinary(6)], 8) && LinkOk(items, [Ordinary(5)], 8)
  {
    ExampleLinkU(items);
    ExampleLinkM(items);
    ExampleLinkL(items);
  }

  lemma {:induction false} ExampleMaps()
    ensures ExampleShape(ExampleFinal()) && ExampleBaseline().Keys !! ExampleAdded().Keys
    ensures forall p :: p in ExampleBaseline() && ExampleBaseline()[p].Link? ==> p == [Ordinary(4)]
    ensures ExampleAdded().Keys == {[Ordinary(3), Ordinary(6)], [Ordinary(5)]}
  {
    var p, q, r, d, u, l, m := Ordinary(0), Ordinary(1), Ordinary(2), Ordinary(3), Ordinary(4), Ordinary(5), Ordinary(6);
    assert [p][0] == p && [d][0] == d && [u][0] == u && [l][0] == l;
    assert [p, q][0] == p && [p, q, r][0] == p && [d, m][0] == d;
    assert |[p]| == 1 && |[p, q]| == 2 && |[p, q, r]| == 3 && |[d]| == 1 && |[d, m]| == 2;
  }

  lemma {:induction false} ExampleViewOk()
    ensures LinksOk(ExampleFinal(), 8) && KindsKept(ExampleBaseline(), ExampleFinal())
  {
    ExampleMaps();
    ExampleLinks(ExampleFinal());
  }

  lemma {:induction false} ExampleParents(items: Items)
    requires ExampleShape(items) && items.Keys <= ExampleFinal().Keys
    ensures TreeOk(items)
  {
    var p, q, r, d, m := Ordinary(0), Ordinary(1), Ordinary(2), Ordinary(3), Ordinary(6);
    assert Parent([p, q]) == [p] && Parent([p, q, r]) == [p, q] && Parent([d, m]) == [d];
    forall x | x in items
      ensures x != [] && IsDir(items, Parent(x))
    {
      assert x in ExampleBaseline() || x in ExampleAdded();
      assert |x| == 1 || x == [p, q] || x == [p, q, r] || x == [d, m];
    }
  }

  /** The texts of the three links stay inside the root. */
  lemma {:induction false} ExampleTexts()
    ensures LexicalOk([], [Down(Ordinary(0)), Down(Ordinary(1)), Down(Ordinary(2))])
    ensures LexicalOk([Ordinary(3)], [Up, Down(Ordinary(4)), Up])
    ensures LexicalOk([], [Down(Ordinary(3)), Down(Ordinary(6)), Up])
  {
    var p, q, r, d, u, m := Ordinary(0), Ordinary(1), Ordinary(2), Ordinary(3), Ordinary(4), Ordinary(6);
    assert [] + [p] == [p] && [] + [u] == [u] && [] + [d] == [d];
    assert LexicalOk([p, q, r], []) && [p, q] + [r] == [p, q, r];
    assert LexicalOk([p, q], [Down(r)]) && [p] + [q] == [p, q];
    assert LexicalOk([p], [Down(q), Down(r)]);
    assert LexicalOk([u], [Up]) && LexicalOk([], [Down(u), Up]);
    assert [d] + [m] == [d, m] && [d, m][..1] == [d];
    assert LexicalOk([d, m], [Up]) && LexicalOk([d], [Down(m), Up]);
  }

  lemma {:induction false} ExampleItemsOk(x: Path)
    requires x in ExampleFinal()
    ensures ItemOk(x, ExampleFinal()[x], 8)
  {
    var d, m := Ordinary(3), Ordinary(6);
    ExampleMaps();
    ExampleTexts();
    assert x in ExampleBaseline() || x in ExampleAdded();
    assert Parent([d, m]) == [d];
  }

  lemma {:induction false} ExampleLinksBefore()
    ensures LinksOk(ExampleBaseline(), 8)
  {
    var u, p, q, r := Ordinary(4), Ordinary(0), Ordinary(1), Ordinary(2);
    var items := ExampleBaseline();
    ExampleMaps();
    ExampleU(items, 1, false);
    assert [] + [u] == [u] && [u][1..] == [];
    LinkStep(items, [], u, [], 0, false, 8, Resolved([p, q, r], 1, 3));
    assert Components([u]) == [Down(u)] + [];
  }

  /** Both views of the example are inventories the code reads without complaint. */
  lemma {:induction false} ExampleInventories(n: nat)
    requires n >= 7
    ensures Inventory(ExampleBaseline(), n, 8) && Inventory(ExampleFinal(), n, 8)
  {
    ExampleMaps();
    ExampleViewOk();
    ExampleLinksBefore();
    ExampleParents(ExampleFinal());
    ExampleBaselineTree();
    ExampleSizes();
    forall x | x in ExampleFinal()
      ensures ItemOk(x, ExampleFinal()[x], 8)
    {
      ExampleItemsOk(x);
    }
    forall x | x in ExampleBaseline()
      ensures ItemOk(x, ExampleBaseline()[x], 8)
    {
      assert x in ExampleFinal() && ExampleFinal()[x] == ExampleBaseline()[x];
    }
  }

  lemma {:induction false} ExampleSizes()
    ensures |ExampleBaseline()| <= 5 && |ExampleFinal()| <= 7
  {
    var p, q, r, d, u, l, m := Ordinary(0), Ordinary(1), Ordinary(2), Ordinary(3), Ordinary(4), Ordinary(5), Ordinary(6);
    var five: set<Path> := {[p], [p, q], [p, q, r], [d], [u]};
    var seven: set<Path> := five + {[d, m], [l]};
    SubsetSize(ExampleBaseline().Keys, five);
    SubsetSize(ExampleFinal().Keys, seven);
    assert |ExampleBaseline()| == |ExampleBaseline().Keys| && |ExampleFinal()| == |ExampleFinal().Keys|;
  }

  lemma {:induction false} ExampleBaselineTree()
    ensures TreeOk(ExampleBaseline())
  {
    var p, q, r := Ordinary(0), Ordinary(1), Ordinary(2);
    assert Parent([p, q]) == [p] && Parent([p, q, r]) == [p, q];
    forall x | x in ExampleBaseline()
      ensures x != [] && IsDir(ExampleBaseline(), Parent(x))
    {
      assert |x| == 1 || x == [p, q] || x == [p, q, r];
    }
  }

  lemma {:induction false} OnlyAdditions(baseline: Items, added: Items, entries: seq<Entry>)
    requires baseline.Keys !! added.Keys && IsExport(baseline, baseline + added, entries)
    ensures Written(entries) == added.Keys
  {
    forall p
      ensures p in Written(entries) <==> p in added
    {
      ExportedAt(baseline, baseline + added, entries, p);
    }
  }

  lemma {:induction false} ExampleScaffolds(entries: seq<Entry>)
    requires Written(entries) == {[Ordinary(3), Ordinary(6)], [Ordinary(5)]}
    ensures Scaffolds(entries) == {[Ordinary(3)]}
  {
    var d, l, m := Ordinary(3), Ordinary(5), Ordinary(6);
    assert [d, m] in Written(entries) && [d, m][..1] == [d];
    forall w, k | w in Written(entries) && 0 < k < |w|
      ensures w[..k] == [d]
    {
      assert w == [d, m] && k == 1;
    }
  }

  lemma {:induction false} ExampleStores(entries: seq<Entry>, payload: Items)
    requires IsExport(ExampleBaseline(), ExampleFinal(), entries) && IsPayload(ExampleFinal(), entries, payload)
    ensures Written(entries) == ExampleAdded().Keys
    ensures [Ordinary(3)] in payload && [Ordinary(4)] !in payload
  {
    ExampleMaps();
    OnlyAdditions(ExampleBaseline(), ExampleAdded(), entries);
    ExampleScaffolds(entries);
    assert [Ordinary(4)][0] != [Ordinary(3)][0] && [Ordinary(4)][0] != [Ordinary(5)][0];
    assert |[Ordinary(3), Ordinary(6)]| == 2;
  }

  /** Two views the inventory accepts, of which no export can describe the second to its validator. */
  lemma {:induction false} LegitimateExportRefused(entries: seq<Entry>, payload: Items, maxEntries: nat)
    requires IsExport(ExampleBaseline(), ExampleFinal(), entries) && IsPayload(ExampleFinal(), entries, payload)
    ensures maxEntries >= 7 ==> Inventory(ExampleBaseline(), maxEntries, 8) && Inventory(ExampleFinal(), maxEntries, 8)
    ensures KindsKept(ExampleBaseline(), ExampleFinal())
    ensures !Accepts(ExampleBaseline(), payload, entries, maxEntries, 8)
  {
    ExampleViewOk();
    if maxEntries >= 7 {
      ExampleInventories(maxEntries);
    }
    ExampleStores(entries, payload);
    ExampleResolution(payload);
  }

  // ----- Validating, composing and comparing with a live workspace -----

  method CheckEntry(baseline: Items, preimages: map<Path, Pre>, payload: Items, e: Entry, maxDepth: nat) returns (ok: bool)
    requires preimages.Keys == baseline.Keys && forall p :: p in baseline ==> preimages[p] == PreOf(baseline, p)
    ensures ok <==> EntryOk(baseline, payload, e, maxDepth)
  {
    if !PathOk(e.path, maxDepth) || e.mode > 0x1FF {
      return false;
    }
    if e.op.Add? {
      if e.path in baseline || e.preimage.Some? {
        return false;
      }
    } else if e.path !in baseline || KindOf(baseline[e.path]) != e.kind || e.preimage != Some(preimages[e.path]) {
      return false;
    }
    if e.op.Delete? {
      return e.path !in payload && e.mode == 0 && e.digest == OfBytes([]);
    }
    if e.path !in payload || KindOf(payload[e.path]) != e.kind {
      return false;
    }
    return e.digest == (if e.kind.DirKind? then OfDir(e.mode) else DigestOf(payload[e.path])) && (e.kind.LinkKind? ==> e.mode == 0x1FF);
  }

  method CheckEntries(baseline: Items, payload: Items, entries: seq<Entry>, maxDepth: nat) returns (ok: bool)
    requires TreeOk(baseline)
    ensures ok <==> UniquePaths(entries) && forall e :: e in entries ==> EntryOk(baseline, payload, e, maxDepth)
  {
    var preimages := Preimages(baseline);
    var declared: set<Path> := {};
    for i := 0 to |entries|
      invariant declared == set j | 0 <= j < i :: entries[j].path
      invariant UniquePaths(entries[..i]) && forall j :: 0 <= j < i ==> EntryOk(baseline, payload, entries[j], maxDepth)
    {
      if entries[i].path in declared {
        return false;
      }
      ok := CheckEntry(baseline, preimages, payload, entries[i], maxDepth);
      if !ok {
        return;
      }
      declared := declared + {entries[i].path};
    }
    assert entries[..|entries|] == entries;
    return true;
  }

  lemma {:induction false} ComposedMore(baseline: Items, payload: Items, entries: seq<Entry>, e: Entry)
    requires Written(entries + [e]) <= payload.Keys && e.path !in Written(entries) && e.path !in Deleted(entries)
    ensures Written(entries) <= payload.Keys
    ensures Composed(baseline, payload, entries + [e]) ==
            if e.op.Delete? then Composed(baseline, payload, entries) - {e.path}
            else Composed(baseline, payload, entries)[e.path := payload[e.path]]
  {
    WrittenMore(entries, e);
    assert Deleted(entries + [e]) == Deleted(entries) + (if e.op.Delete? then {e.path} else {});
  }

  lemma {:induction false} EntriesSoFar(entries: seq<Entry>, i: nat)
    requires UniquePaths(entries) && i < |entries|
    ensures entries[..i + 1] == entries[..i] + [entries[i]] && Written(entries[..i + 1]) <= Written(entries)
    ensures entries[i].path !in Written(entries[..i]) && entries[i].path !in Deleted(entries[..i])
  {
  }

  /** Builds the composition entry by entry. */
  method Compose(baseline: Items, payload: Items, entries: seq<Entry>) returns (composed: Items)
    requires UniquePaths(entries) && Written(entries) <= payload.Keys
    ensures composed == Composed(baseline, payload, entries)
  {
    composed := baseline;
    for i := 0 to |entries|
      invariant Written(entries[..i]) <= payload.Keys && composed == Composed(baseline, payload, entries[..i])
    {
      var e := entries[i];
      EntriesSoFar(entries, i);
      ComposedMore(baseline, payload, entries[..i], e);
      if e.op.Delete? {
        composed := composed - {e.path};
      } else {
        composed := composed[e.path := payload[e.path]];
      }
    }
    assert entries[..|entries|] == entries;
  }

  lemma {:induction false} WrittenStored(baseline: Items, payload: Items, entries: seq<Entry>, maxDepth: nat)
    requires forall e :: e in entries ==> EntryOk(baseline, payload, e, maxDepth)
    ensures Written(entries) <= payload.Keys
  {
    forall p | p in Written(entries)
      ensures p in payload
    {
      var e :| e in entries && !e.op.Delete? && e.path == p;
      assert EntryOk(baseline, payload, e, maxDepth);
    }
  }

  /** Validates a manifest against the frozen baseline and the stored payloads, as both were read. */
  method Validate(baseline: Items, payload: Items, entries: seq<Entry>, maxEntries: nat, maxDepth: nat) returns (ok: bool)
    requires TreeOk(baseline) && PrivateInventory(payload, maxEntries, maxDepth)
    ensures ok <==> Accepts(baseline, payload, entries, maxEntries, maxDepth)
  {
    if |entries| > maxEntries {
      return false;
    }
    ok := CheckEntries(baseline, payload, entries, maxDepth);
    if !ok || !RemovalsComplete(baseline, entries) || !NothingUndeclared(baseline, payload, entries) {
      return false;
    }
    WrittenStored(baseline, payload, entries, maxDepth);
    var composed := Compose(baseline, payload, entries);
    ok := ValidateLinks(composed, maxDepth);
  }

  datatype Reason = AddedPathExists | TypeChanged | BaselineChanged

  datatype Conflict = Conflict(path: Path, reason: Reason)

  /** What an entry finds wrong with the live workspace. */
  ghost function ConflictOf(live: Items, e: Entry): Option<Conflict> {
    if e.op.Add? then (if e.path in live then Some(Conflict(e.path, AddedPathExists)) else None)
    else if e.path !in live || KindOf(live[e.path]) != e.kind then Some(Conflict(e.path, TypeChanged))
    else if Some(PreOf(live, e.path)) != e.preimage then Some(Conflict(e.path, BaselineChanged))
    else None
  }

  ghost function ConflictsOf(live: Items, entries: seq<Entry>): seq<Conflict> {
    if entries == [] then []
    else
      var last := ConflictOf(live, entries[|entries| - 1]);
      ConflictsOf(live, entries[..|entries| - 1]) + if last.Some? then [last.value] else []
  }

  /** Lists the conflicts of a diff with a live workspace, in manifest order. */
  method CheckConflicts(live: Items, entries: seq<Entry>) returns (conflicts: seq<Conflict>)
    requires TreeOk(live)
    ensures conflicts == ConflictsOf(live, entries)
  {
    var preimages := Preimages(live);
    conflicts := [];
    for i := 0 to |entries|
      invariant conflicts == ConflictsOf(live, entries[..i])
    {
      var e := entries[i];
      assert entries[..i + 1][..i] == entries[..i];
      if e.op.Add? {
        if e.path in live {
          conflicts := conflicts + [Conflict(e.path, AddedPathExists)];
        }
      } else if e.path !in live || KindOf(live[e.path]) != e.kind {
        conflicts := conflicts + [Conflict(e.path, TypeChanged)];
      } else if Some(preimages[e.path]) != e.preimage {
        conflicts := conflicts + [Conflict(e.path, BaselineChanged)];
      }
    }
    assert entries[..|entries|] == entries;
  }

  lemma {:induction false} ConflictsListed(live: Items, entries: seq<Entry>, c: Conflict)
    ensures c in ConflictsOf(live, entries) <==> exists e :: e in entries && ConflictOf(live, e) == Some(c)
  {
    if entries != [] {
      var front, last := entries[..|entries| - 1], entries[|entries| - 1];
      ConflictsListed(live, front, c);
      assert entries == front + [last];
    }
  }

  /**
   A validated change or removal finds no conflict exactly when the live workspace holds the same
   content there and, for a directory, the same tree below it; the live file's own mode may differ.
   */
  lemma {:induction false} NoConflictIff(baseline: Items, payload: Items, live: Items, e: Entry, maxDepth: nat)
    requires TreeOk(baseline) && TreeOk(live) && EntryOk(baseline, payload, e, maxDepth) && !e.op.Add?
    ensures ConflictOf(live, e).None? <==>
            e.path in live && SameContent(live[e.path], baseline[e.path]) && SameUnder(live, baseline, e.path)
  {
    if e.path in live && KindOf(live[e.path]) == KindOf(baseline[e.path]) {
      PreimageTells(live, baseline, e.path);
    }
  }
}

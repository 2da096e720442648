/** The diff algebra of workspace views: exporting, validating and composing candidates. */
module WorkspaceView {
  import opened Common
  import opened ViewLinks

  datatype Kind = FileKind | DirKind | LinkKind

  /** Digests are injective, so a digest is what it was computed from. */
  datatype Digest = OfBytes(data: Bytes) | OfDir(mode: nat)

  const Slash: bv8 := 0x2F

  function ComponentText(c: Component): Bytes {
    match c
    case Stay => [0x2E]
    case Up => [0x2E, 0x2E]
    case Down(Ordinary(id)) => [0x6F] + Ticks(id)
    case Down(Reserved(id)) => [0x72] + Ticks(id)
    case Down(Malformed(id)) => [0x6D] + Ticks(id)
  }

  /** The text that stands for the name with a given number. */
  function Ticks(id: nat): Bytes {
    seq(id, _ => 0x31)
  }

  /** The bytes of a link's target, its components joined by slashes. */
  function Text(cs: seq<Component>): Bytes
    decreases |cs|, 1
  {
    if cs == [] then [] else ComponentText(cs[0]) + Tail(cs)
  }

  function Tail(cs: seq<Component>): Bytes
    requires cs != []
    decreases |cs|, 0
  {
    if |cs| == 1 then [] else [Slash] + Text(cs[1..])
  }

  function KindOf(i: Item): Kind {
    match i
    case File(_, _) => FileKind
    case Dir(_) => DirKind
    case Link(_) => LinkKind
  }

  function ModeOf(i: Item): nat {
    match i
    case File(mode, _) => mode
    case Dir(mode) => mode
    case Link(_) => 0x1FF
  }

  function DigestOf(i: Item): Digest {
    match i
    case File(_, data) => OfBytes(data)
    case Dir(mode) => OfDir(mode)
    case Link(target) => OfBytes(Text(target))
  }

  lemma {:induction false} ComponentTextTells(c: Component, d: Component)
    ensures Slash !in ComponentText(c) && ComponentText(c) != []
    ensures ComponentText(c) == ComponentText(d) ==> c == d
  {
    if ComponentText(c) == ComponentText(d) {
      assert ComponentText(c)[0] == ComponentText(d)[0] && |ComponentText(c)| == |ComponentText(d)|;
    }
  }

  /** How many bytes come before the first slash. */
  function Head(s: Bytes): nat {
    if s == [] || s[0] == Slash then 0 else 1 + Head(s[1..])
  }

  lemma {:induction false} HeadIs(a: Bytes, x: Bytes)
    requires Slash !in a && (x == [] || x[0] == Slash)
    ensures Head(a + x) == |a|
  {
    if a != [] {
      assert (a + x)[1..] == a[1..] + x;
      HeadIs(a[1..], x);
    } else {
      assert a + x == x;
    }
  }

  lemma {:induction false} CutAtSlash(a: Bytes, x: Bytes, b: Bytes, y: Bytes)
    requires Slash !in a && Slash !in b && a + x == b + y
    requires (x == [] || x[0] == Slash) && (y == [] || y[0] == Slash)
    ensures a == b && x == y
  {
    HeadIs(a, x);
    HeadIs(b, y);
    assert a == (a + x)[..|a|] && b == (b + y)[..|b|];
    assert x == (a + x)[|a|..] && y == (b + y)[|b|..];
  }

  lemma {:induction false} TextTells(cs: seq<Component>, ds: seq<Component>)
    ensures Text(cs) == Text(ds) <==> cs == ds
    decreases |cs|
  {
    if cs != [] && ds != [] {
      var c, d := ComponentText(cs[0]), ComponentText(ds[0]);
      ComponentTextTells(cs[0], ds[0]);
      ComponentTextTells(ds[0], cs[0]);
      if Text(cs) == Text(ds) {
        CutAtSlash(c, Tail(cs), d, Tail(ds));
        if |cs| > 1 && |ds| > 1 {
          assert Text(cs[1..]) == Tail(cs)[1..] && Text(ds[1..]) == Tail(ds)[1..];
          TextTells(cs[1..], ds[1..]);
        }
        assert cs == [cs[0]] + cs[1..] && ds == [ds[0]] + ds[1..];
      }
    } else {
      ComponentTextTells(if cs == [] then Stay else cs[0], Stay);
      ComponentTextTells(if ds == [] then Stay else ds[0], Stay);
    }
  }

  /** Between entries of one kind, and only there, a digest tells the content. */
  lemma {:induction false} DigestTells(x: Item, y: Item)
    requires KindOf(x) == KindOf(y) && !x.Dir?
    ensures DigestOf(x) == DigestOf(y) <==> SameContent(x, y)
  {
    if x.Link? {
      TextTells(x.target, y.target);
    }
  }

  /** A file and a link may have the same digest, so an entry's kind is checked beside its preimage. */
  lemma {:induction false} KindIsNotInDigest(a: Items, b: Items, p: Path)
    requires p in a && p in b && a[p].File? && b[p].Link? && a[p].data == Text(b[p].target)
    ensures PreOf(a, p) == PreOf(b, p) && !SameContent(a[p], b[p])
  {
  }

  function Parent(p: Path): Path
    requires p != []
  {
    p[..|p| - 1]
  }

  predicate IsDir(items: Items, p: Path) {
    p == [] || (p in items && items[p].Dir?)
  }

  /** Every entry sits in a directory. */
  ghost predicate TreeOk(items: Items) {
    forall p :: p in items ==> p != [] && IsDir(items, Parent(p))
  }

  /** A link's text alone must not climb above the root or point below a reserved name. */
  predicate LexicalOk(dir: Path, cs: seq<Component>)
    decreases |cs|
  {
    if cs == [] then dir == [] || !dir[0].Reserved?
    else match cs[0]
      case Stay => LexicalOk(dir, cs[1..])
      case Up => dir != [] && LexicalOk(dir[..|dir| - 1], cs[1..])
      case Down(n) => LexicalOk(dir + [n], cs[1..])
  }

  predicate ItemOk(p: Path, i: Item, maxDepth: nat) {
    PathOk(p, maxDepth) && ModeOf(i) <= 0x1FF && (i.Link? ==> LexicalOk(Parent(p), i.target))
  }

  /** What an inventory that was read without complaint looks like. */
  ghost predicate Inventory(items: Items, maxEntries: nat, maxDepth: nat) {
    && TreeOk(items) && |items| <= maxEntries && LinksOk(items, maxDepth)
    && forall p :: p in items ==> ItemOk(p, items[p], maxDepth)
  }

  predicate Prefix(p: Path, q: Path) {
    |p| <= |q| && q[..|p|] == p
  }

  lemma {:induction false} AncestorsAreDirs(items: Items, p: Path, q: Path)
    requires TreeOk(items) && q in items && Prefix(p, q) && p != q
    ensures IsDir(items, p)
    decreases |q|
  {
    var up := Parent(q);
    assert Prefix(p, up) by {
      assert up[..|p|] == q[..|p|];
    }
    if up != p {
      AncestorsAreDirs(items, p, up);
    }
  }

  // ----- Merkle preimages -----

  datatype Pre = Leaf(digest: Digest) | Tree(mode: nat, children: map<Name, Child>)

  datatype Child = Child(kind: Kind, mode: nat, pre: Pre)

  predicate Executable(mode: nat) {
    mode % 2 == 1 || (mode / 8) % 2 == 1 || (mode / 64) % 2 == 1
  }

  /** The mode a snapshot gives an entry: write bits gone, any execute bit for all. */
  function SnapshotMode(i: Item): nat {
    match i
    case Link(_) => 0x1FF
    case Dir(_) => 0x16D
    case File(mode, _) => if Executable(mode) then 0x16D else 0x124
  }

  function Below(items: Items, p: Path): set<Path> {
    set q | q in items && |q| > |p| && Prefix(p, q)
  }

  function ChildNames(items: Items, p: Path): set<Name> {
    set q | q in items && |q| == |p| + 1 && Prefix(p, q) :: q[|p|]
  }

  lemma {:induction false} ChildBelow(items: Items, p: Path, n: Name)
    requires n in ChildNames(items, p)
    ensures p + [n] in items && Below(items, p + [n]) < Below(items, p)
  {
    var q :| q in items && |q| == |p| + 1 && Prefix(p, q) && q[|p|] == n;
    assert q == p + [n];
    forall r | r in Below(items, q)
      ensures r in Below(items, p)
    {
      assert r[..|p|] == r[..|q|][..|p|];
    }
    assert q in Below(items, p) && q !in Below(items, q);
  }

  /** The preimage of an entry: contents at the leaves, names, kinds and snapshot modes on the way. */
  ghost function PreOf(items: Items, p: Path): Pre
    requires p in items
    decreases Below(items, p)
  {
    if !items[p].Dir? then Leaf(DigestOf(items[p]))
    else
      Tree(SnapshotMode(items[p]),
           map n | n in ChildNames(items, p) ::
             (ChildBelow(items, p, n); Child(KindOf(items[p + [n]]), SnapshotMode(items[p + [n]]), PreOf(items, p + [n]))))
  }

  /** The same entry as far as a preimage tells: content and kind, with the snapshot's mode. */
  predicate SameAt(a: Items, b: Items, q: Path) {
    && (q in a <==> q in b)
    && (q in a ==> SameContent(a[q], b[q]) && SnapshotMode(a[q]) == SnapshotMode(b[q]))
  }

  predicate SameContent(x: Item, y: Item) {
    && KindOf(x) == KindOf(y)
    && (x.File? ==> x.data == y.data)
    && (x.Link? ==> x.target == y.target)
  }

  ghost predicate SameUnder(a: Items, b: Items, p: Path) {
    forall q :: |q| > |p| && Prefix(p, q) ==> SameAt(a, b, q)
  }

  lemma {:induction false} NothingBelow(items: Items, p: Path, q: Path)
    requires TreeOk(items) && p in items && !items[p].Dir? && |q| > |p| && Prefix(p, q)
    ensures q !in items
  {
    if q in items {
      AncestorsAreDirs(items, p, q);
    }
  }

  lemma {:induction false} ChildOfBoth(a: Items, b: Items, p: Path, n: Name)
    requires SameUnder(a, b, p)
    ensures n in ChildNames(a, p) <==> n in ChildNames(b, p)
  {
    var q := p + [n];
    assert Prefix(p, q) && SameAt(a, b, q);
    if n in ChildNames(a, p) {
      ChildBelow(a, p, n);
      assert q in b && q[|p|] == n;
    }
    if n in ChildNames(b, p) {
      ChildBelow(b, p, n);
      assert q in a && q[|p|] == n;
    }
  }

  lemma {:induction false} UnderChild(a: Items, b: Items, p: Path, n: Name)
    requires SameUnder(a, b, p)
    ensures SameUnder(a, b, p + [n])
  {
    forall q | |q| > |p + [n]| && Prefix(p + [n], q)
      ensures SameAt(a, b, q)
    {
      assert q[..|p|] == q[..|p| + 1][..|p|];
    }
  }

  /**
   Between entries of one kind, equal preimages mean the same content, and the same tree below, up
   to what a snapshot drops. Below an entry its kinds are part of the preimage.
   */
  lemma {:induction false} PreimageTells(a: Items, b: Items, p: Path)
    requires TreeOk(a) && TreeOk(b) && p in a && p in b && KindOf(a[p]) == KindOf(b[p])
    ensures PreOf(a, p) == PreOf(b, p) <==> SameContent(a[p], b[p]) && SameUnder(a, b, p)
    decreases Below(a, p)
  {
    if !a[p].Dir? {
      DigestTells(a[p], b[p]);
      forall q | |q| > |p| && Prefix(p, q)
        ensures SameAt(a, b, q)
      {
        NothingBelow(a, p, q);
        NothingBelow(b, p, q);
      }
    } else {
      forall n | n in ChildNames(a, p) && n in ChildNames(b, p)
        ensures p + [n] in a && p + [n] in b &&
                (KindOf(a[p + [n]]) == KindOf(b[p + [n]]) ==>
                   (PreOf(a, p + [n]) == PreOf(b, p + [n]) <==>
                      SameContent(a[p + [n]], b[p + [n]]) && SameUnder(a, b, p + [n])))
      {
        ChildBelow(a, p, n);
        ChildBelow(b, p, n);
        if KindOf(a[p + [n]]) == KindOf(b[p + [n]]) {
          PreimageTells(a, b, p + [n]);
        }
      }
      if SameUnder(a, b, p) {
        SamePreimages(a, b, p);
      }
      if PreOf(a, p) == PreOf(b, p) {
        SameTrees(a, b, p);
      }
    }
  }

  lemma {:induction false} SamePreimages(a: Items, b: Items, p: Path)
    requires p in a && p in b && a[p].Dir? && b[p].Dir? && SameUnder(a, b, p)
    requires forall n :: n in ChildNames(a, p) && n in ChildNames(b, p) && SameUnder(a, b, p + [n]) ==>
                           p + [n] in a && p + [n] in b &&
                           (SameContent(a[p + [n]], b[p + [n]]) ==> PreOf(a, p + [n]) == PreOf(b, p + [n]))
    ensures PreOf(a, p) == PreOf(b, p)
  {
    forall n
      ensures n in ChildNames(a, p) <==> n in ChildNames(b, p)
      ensures n in ChildNames(a, p) ==> PreOf(a, p).children[n] == PreOf(b, p).children[n]
    {
      ChildOfBoth(a, b, p, n);
      if n in ChildNames(a, p) {
        UnderChild(a, b, p, n);
        assert SameAt(a, b, p + [n]);
      }
    }
    assert PreOf(a, p).children == PreOf(b, p).children;
  }

  lemma {:induction false} SameTrees(a: Items, b: Items, p: Path)
    requires TreeOk(a) && TreeOk(b) && p in a && p in b && a[p].Dir? && b[p].Dir? && PreOf(a, p) == PreOf(b, p)
    requires forall n :: n in ChildNames(a, p) && n in ChildNames(b, p) ==>
                           p + [n] in a && p + [n] in b &&
                           (KindOf(a[p + [n]]) == KindOf(b[p + [n]]) && PreOf(a, p + [n]) == PreOf(b, p + [n]) ==>
                              SameContent(a[p + [n]], b[p + [n]]) && SameUnder(a, b, p + [n]))
    ensures SameUnder(a, b, p)
  {
    assert PreOf(a, p).children.Keys == ChildNames(a, p) && PreOf(b, p).children.Keys == ChildNames(b, p);
    forall q | |q| > |p| && Prefix(p, q)
      ensures SameAt(a, b, q)
    {
      var n := q[|p|];
      var c := p + [n];
      assert q[..|p| + 1] == c;
      if n in ChildNames(a, p) {
        assert PreOf(a, p).children[n] == PreOf(b, p).children[n];
        assert SameUnder(a, b, c);
        assert q == c || Prefix(c, q);
      } else {
        if q in a {
          PresentBelow(a, p, q);
        }
        if q in b {
          PresentBelow(b, p, q);
        }
      }
    }
  }

  lemma {:induction false} PresentBelow(items: Items, p: Path, q: Path)
    requires TreeOk(items) && |q| > |p| && Prefix(p, q) && q in items
    ensures q[|p|] in ChildNames(items, p)
  {
    var c := q[..|p| + 1];
    assert c[..|p|] == q[..|p|];
    if c != q {
      AncestorsAreDirs(items, c, q);
    }
    assert c in items && c[|p|] == q[|p|];
  }

  lemma {:induction false} Deepest(paths: set<Path>) returns (p: Path)
    requires paths != {}
    ensures p in paths && forall q :: q in paths ==> |q| <= |p|
  {
    var some :| some in paths;
    var rest := paths - {some};
    assert paths == rest + {some};
    p := some;
    if rest != {} {
      var deepest := Deepest(rest);
      p := if |deepest| > |some| then deepest else some;
    }
  }

  /** A directory's preimage from its children's. */
  lemma {:induction false} TreePreimage(items: Items, p: Path, digests: map<Path, Pre>)
    requires p in items && items[p].Dir?
    requires forall n :: n in ChildNames(items, p) ==> p + [n] in items && p + [n] in digests
    requires forall n :: n in ChildNames(items, p) ==> digests[p + [n]] == PreOf(items, p + [n])
    ensures PreOf(items, p) ==
            Tree(SnapshotMode(items[p]),
                 map n | n in ChildNames(items, p) :: Child(KindOf(items[p + [n]]), SnapshotMode(items[p + [n]]), digests[p + [n]]))
  {
    var children := map n | n in ChildNames(items, p) :: Child(KindOf(items[p + [n]]), SnapshotMode(items[p + [n]]), digests[p + [n]]);
    assert PreOf(items, p).children == children;
  }

  /** Computes every preimage, deepest entries first, so that a directory finds its children's done. */
  method Preimages(items: Items) returns (digests: map<Path, Pre>)
    ensures digests.Keys == items.Keys
    ensures forall p :: p in items ==> digests[p] == PreOf(items, p)
  {
    digests := map[];
    var rest := items.Keys;
    while rest != {}
      invariant rest <= items.Keys && digests.Keys == items.Keys - rest
      invariant forall p, q :: p in rest && q in items && |q| > |p| ==> q in digests || q in rest
      invariant forall p :: p in digests ==> digests[p] == PreOf(items, p)
    {
      ghost var deepest := Deepest(rest);
      var p :| p in rest && forall q :: q in rest ==> |q| <= |p|;
      if items[p].Dir? {
        forall n | n in ChildNames(items, p)
          ensures p + [n] in digests
        {
          ChildBelow(items, p, n);
        }
        TreePreimage(items, p, digests);
        var children := map n | n in ChildNames(items, p) :: Child(KindOf(items[p + [n]]), SnapshotMode(items[p + [n]]), digests[p + [n]]);
        digests := digests[p := Tree(SnapshotMode(items[p]), children)];
      } else {
        digests := digests[p := Leaf(DigestOf(items[p]))];
      }
      rest := rest - {p};
    }
  }

  // ----- Diffs -----

  datatype Op = Add | Modify | Delete

  datatype Entry = Entry(path: Path, op: Op, kind: Kind, mode: nat, digest: Digest, preimage: Option<Pre>)

  predicate Unchanged(x: Item, y: Item) {
    KindOf(x) == KindOf(y) && ModeOf(x) == ModeOf(y) && DigestOf(x) == DigestOf(y)
  }

  lemma {:induction false} UnchangedIff(x: Item, y: Item)
    ensures Unchanged(x, y) <==> x == y
  {
    if KindOf(x) == KindOf(y) && !x.Dir? {
      DigestTells(x, y);
    }
  }

  predicate KindsKept(baseline: Items, final: Items) {
    forall p :: p in baseline && p in final ==> KindOf(baseline[p]) == KindOf(final[p])
  }

  /** The entry a path contributes to an exported diff, if it changed. */
  ghost function ExportEntry(baseline: Items, final: Items, p: Path): Option<Entry>
    requires p in baseline || p in final
  {
    if p !in final then Some(Entry(p, Delete, KindOf(baseline[p]), 0, OfBytes([]), Some(PreOf(baseline, p))))
    else if p !in baseline then Some(Entry(p, Add, KindOf(final[p]), ModeOf(final[p]), DigestOf(final[p]), None))
    else if Unchanged(baseline[p], final[p]) then None
    else Some(Entry(p, Modify, KindOf(final[p]), ModeOf(final[p]), DigestOf(final[p]), Some(PreOf(baseline, p))))
  }

  predicate UniquePaths(entries: seq<Entry>) {
    forall i, j :: 0 <= i < j < |entries| ==> entries[i].path != entries[j].path
  }

  /** The entries are exactly the changes at some paths. */
  ghost predicate ChangesAt(baseline: Items, final: Items, entries: seq<Entry>, paths: set<Path>)
    requires paths <= baseline.Keys + final.Keys
  {
    && UniquePaths(entries)
    && (forall e :: e in entries ==> e.path in paths && ExportEntry(baseline, final, e.path) == Some(e))
    && (forall p :: p in paths && ExportEntry(baseline, final, p).Some? ==> ExportEntry(baseline, final, p).value in entries)
  }

  /** The entries are exactly the changes between two views. */
  ghost predicate IsExport(baseline: Items, final: Items, entries: seq<Entry>) {
    ChangesAt(baseline, final, entries, baseline.Keys + final.Keys)
  }

  function Deleted(entries: seq<Entry>): set<Path> {
    set e | e in entries && e.op.Delete? :: e.path
  }

  function Written(entries: seq<Entry>): set<Path> {
    set e | e in entries && !e.op.Delete? :: e.path
  }

  /** The directories a candidate needs above its payloads. */
  function Scaffolds(entries: seq<Entry>): set<Path> {
    set p, k | p in Written(entries) && 0 < k < |p| :: p[..k]
  }

  /** How candidate storage holds an entry: with private permissions. */
  function Private(i: Item): Item {
    match i
    case File(_, data) => File(0x180, data)
    case Dir(_) => Dir(0x1C0)
    case Link(target) => Link(target)
  }

  function WithMode(i: Item, mode: nat): Item {
    match i
    case File(_, data) => File(mode, data)
    case Dir(_) => Dir(mode)
    case Link(target) => Link(target)
  }

  function ProperPrefixes(path: Path, k: nat): set<Path> {
    set j | 0 < j < k && j < |path| :: path[..j]
  }

  lemma {:induction false} PrefixMore(path: Path, k: nat)
    requires 0 < k < |path|
    ensures ProperPrefixes(path, k + 1) == ProperPrefixes(path, k) + {path[..k]}
  {
  }

  /** What is stored so far: what was there, and directories of the view. */
  ghost predicate StoredSoFar(final: Items, before: Items, payload: Items) {
    forall p :: p in payload ==> (p in before && payload[p] == before[p]) || (p in final && payload[p] == Private(final[p]))
  }

  method MakeParents(final: Items, path: Path, before: Items) returns (payload: Items)
    requires TreeOk(final) && path in final
    ensures payload.Keys == before.Keys + ProperPrefixes(path, |path|)
    ensures StoredSoFar(final, before, payload)
  {
    payload := before;
    for k := 1 to |path|
      invariant payload.Keys == before.Keys + ProperPrefixes(path, k)
      invariant StoredSoFar(final, before, payload)
    {
      assert Prefix(path[..k], path);
      AncestorsAreDirs(final, path[..k], path);
      PrefixMore(path, k);
      payload := payload[path[..k] := Dir(0x1C0)];
    }
  }

  /** Lays out the candidate: for each changed payload its parents first, then the payload. */
  method WritePayloads(final: Items, entries: seq<Entry>) returns (payload: Items)
    requires TreeOk(final) && forall e :: e in entries && !e.op.Delete? ==> e.path in final
    ensures payload.Keys == Written(entries) + Scaffolds(entries)
    ensures forall p :: p in payload ==> p in final && payload[p] == Private(final[p])
  {
    payload := map[];
    for i := 0 to |entries|
      invariant payload.Keys == Written(entries[..i]) + Scaffolds(entries[..i])
      invariant forall p :: p in payload ==> p in final && payload[p] == Private(final[p])
    {
      var e := entries[i];
      assert entries[..i + 1] == entries[..i] + [e] && e in entries;
      WrittenMore(entries[..i], e);
      if !e.op.Delete? {
        assert e.path in final;
        payload := MakeParents(final, e.path, payload);
        payload := payload[e.path := Private(final[e.path])];
      }
    }
    assert entries[..|entries|] == entries;
  }

  lemma {:induction false} WrittenMore(entries: seq<Entry>, e: Entry)
    ensures Written(entries + [e]) == Written(entries) + (if e.op.Delete? then {} else {e.path})
    ensures Scaffolds(entries + [e]) == Scaffolds(entries) + (if e.op.Delete? then {} else ProperPrefixes(e.path, |e.path|))
  {
  }

  /** The entry for one path, or None when its kind changed. */
  method ExportPath(baseline: Items, final: Items, preimages: map<Path, Pre>, p: Path) returns (r: Option<seq<Entry>>)
    requires p in baseline || p in final
    requires preimages.Keys == baseline.Keys && forall q :: q in baseline ==> preimages[q] == PreOf(baseline, q)
    ensures r.None? <==> p in baseline && p in final && KindOf(baseline[p]) != KindOf(final[p])
    ensures r.Some? ==> r.value == if ExportEntry(baseline, final, p).Some? then [ExportEntry(baseline, final, p).value] else []
  {
    if p in baseline && p in final && KindOf(baseline[p]) != KindOf(final[p]) {
      return None;
    }
    if p !in final {
      return Some([Entry(p, Delete, KindOf(baseline[p]), 0, OfBytes([]), Some(preimages[p]))]);
    }
    if p in baseline && Unchanged(baseline[p], final[p]) {
      return Some([]);
    }
    return Some([Entry(p, if p in baseline then Modify else Add, KindOf(final[p]), ModeOf(final[p]), DigestOf(final[p]),
                       if p in baseline then Some(preimages[p]) else None)]);
  }

  lemma {:induction false} ChangesMore(baseline: Items, final: Items, entries: seq<Entry>, paths: set<Path>, p: Path, more: seq<Entry>)
    requires paths + {p} <= baseline.Keys + final.Keys && p !in paths && ChangesAt(baseline, final, entries, paths)
    requires more == if ExportEntry(baseline, final, p).Some? then [ExportEntry(baseline, final, p).value] else []
    ensures ChangesAt(baseline, final, entries + more, paths + {p})
  {
    forall i, j | 0 <= i < j < |entries + more|
      ensures (entries + more)[i].path != (entries + more)[j].path
    {
      assert i < |entries| ==> entries[i] in entries;
    }
  }

  method ExportEntries(baseline: Items, final: Items) returns (r: Option<seq<Entry>>)
    requires TreeOk(baseline) && TreeOk(final)
    ensures r.Some? <==> KindsKept(baseline, final)
    ensures r.Some? ==> IsExport(baseline, final, r.value)
  {
    var preimages := Preimages(baseline);
    var entries: seq<Entry> := [];
    var all := baseline.Keys + final.Keys;
    var rest := all;
    while rest != {}
      invariant rest <= all && ChangesAt(baseline, final, entries, all - rest)
      invariant forall p :: p in baseline && p in final && p !in rest ==> KindOf(baseline[p]) == KindOf(final[p])
    {
      var p :| p in rest;
      var more := ExportPath(baseline, final, preimages, p);
      if more.None? {
        return None;
      }
      ChangesMore(baseline, final, entries, all - rest, p, more.value);
      assert all - (rest - {p}) == all - rest + {p};
      entries, rest := entries + more.value, rest - {p};
    }
    assert all - rest == all;
    return Some(entries);
  }

  /** Exports the changes between two inventories with the payloads they need. */
  method Export(baseline: Items, final: Items, maxEntries: nat) returns (r: Option<(seq<Entry>, Items)>)
    requires TreeOk(baseline) && TreeOk(final)
    ensures r.Some? ==> KindsKept(baseline, final) && IsExport(baseline, final, r.value.0) && |r.value.0| <= maxEntries
    ensures r.Some? ==> IsPayload(final, r.value.0, r.value.1)
    ensures r.None? && KindsKept(baseline, final) ==> exists entries :: IsExport(baseline, final, entries) && |entries| > maxEntries
  {
    var entries := ExportEntries(baseline, final);
    if entries.None? || |entries.value| > maxEntries {
      return None;
    }
    var payload := WritePayloads(final, entries.value);
    return Some((entries.value, payload));
  }

  /** Candidate storage that holds the changed payloads and their parents, and nothing else. */
  ghost predicate IsPayload(final: Items, entries: seq<Entry>, payload: Items) {
    && payload.Keys == Written(entries) + Scaffolds(entries)
    && forall p :: p in payload ==> p in final && payload[p] == Private(final[p])
  }
}

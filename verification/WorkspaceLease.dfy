/** The write lease of a workspace: a byte log of fencing generations whose last line may be torn. */
module WorkspaceLease {
  import opened Common

  /** The journal holds ASCII bytes. */
  type Bytes = seq<char>

  const MaxJournalBytes: nat := 65_536

  datatype Record = Record(generation: nat, leaseId: Bytes, device: nat, inode: nat)

  // ----- Numbers -----

  predicate IsDigit(c: char) {
    '0' <= c <= '9'
  }

  function Digit(n: nat): char
    requires n < 10
  {
    '0' + n as char
  }

  function Decimal(n: nat): Bytes {
    if n < 10 then [Digit(n)] else Decimal(n / 10) + [Digit(n % 10)]
  }

  function DigitValue(c: char): nat
    requires IsDigit(c)
  {
    c as int - '0' as int
  }

  function Value(s: Bytes): nat
    requires forall i :: 0 <= i < |s| ==> IsDigit(s[i])
  {
    if s == [] then 0 else 10 * Value(s[..|s| - 1]) + DigitValue(s[|s| - 1])
  }

  lemma {:induction false} DecimalValue(n: nat)
    ensures Decimal(n) != [] && (forall i :: 0 <= i < |Decimal(n)| ==> IsDigit(Decimal(n)[i])) && Value(Decimal(n)) == n
  {
    if n < 10 {
      assert [Digit(n)][..0] == [];
    } else {
      DecimalValue(n / 10);
      assert Decimal(n)[..|Decimal(n)| - 1] == Decimal(n / 10);
    }
  }

  // ----- One record as a line -----

  predicate IsHex(c: char) {
    IsDigit(c) || 'a' <= c <= 'f'
  }

  predicate ValidRecord(r: Record) {
    ValidId(r.leaseId)
  }

  predicate ValidId(id: Bytes) {
    |id| == 32 && forall i :: 0 <= i < 32 ==> IsHex(id[i])
  }

  function Encode(r: Record): Bytes {
    "{\"generation\":" + (Decimal(r.generation) + (",\"lease_id\":\"" + (r.leaseId + ("\",\"workspace_device\":" +
    (Decimal(r.device) + (",\"workspace_inode\":" + (Decimal(r.inode) + "}")))))))
  }

  /** What follows a literal. */
  function After(s: Bytes, literal: Bytes): Option<Bytes> {
    if literal <= s then Some(s[|literal|..]) else None
  }

  /** The length of the digits a text starts with. */
  function DigitRun(s: Bytes): (n: nat)
    ensures n <= |s| && forall i :: 0 <= i < n ==> IsDigit(s[i])
  {
    if s == [] || !IsDigit(s[0]) then 0 else 1 + DigitRun(s[1..])
  }

  function Number(s: Bytes): Option<(nat, Bytes)> {
    var n := DigitRun(s);
    if n == 0 then None else Some((Value(s[..n]), s[n..]))
  }

  function Decode(s: Bytes): Option<Record> {
    var a := After(s, "{\"generation\":");
    if a.None? then None else
    var g := Number(a.value);
    if g.None? then None else
    var b := After(g.value.1, ",\"lease_id\":\"");
    if b.None? || |b.value| < 32 then None else
    var c := After(b.value[32..], "\",\"workspace_device\":");
    if c.None? then None else
    var d := Number(c.value);
    if d.None? then None else
    var e := After(d.value.1, ",\"workspace_inode\":");
    if e.None? then None else
    var i := Number(e.value);
    if i.None? || i.value.1 != "}" then None else
    var r := Record(g.value.0, b.value[..32], d.value.0, i.value.0);
    if ValidRecord(r) then Some(r) else None
  }

  lemma {:induction false} AfterLiteral(literal: Bytes, rest: Bytes)
    ensures After(literal + rest, literal) == Some(rest)
  {
  }

  lemma {:induction false} DigitRunOf(digits: Bytes, rest: Bytes)
    requires (forall i :: 0 <= i < |digits| ==> IsDigit(digits[i])) && (rest == [] || !IsDigit(rest[0]))
    ensures DigitRun(digits + rest) == |digits|
  {
    if digits == [] {
      assert digits + rest == rest;
    } else {
      assert (digits + rest)[1..] == digits[1..] + rest;
      DigitRunOf(digits[1..], rest);
    }
  }

  lemma {:induction false} NumberOf(n: nat, rest: Bytes)
    requires rest == [] || !IsDigit(rest[0])
    ensures Number(Decimal(n) + rest) == Some((n, rest))
  {
    DecimalValue(n);
    DigitRunOf(Decimal(n), rest);
    assert (Decimal(n) + rest)[..|Decimal(n)|] == Decimal(n);
  }

  /** Reading a line gives back the record that was written. */
  lemma {:induction false} DecodeEncode(r: Record)
    requires ValidRecord(r)
    ensures Decode(Encode(r)) == Some(r)
  {
    var t7 := Decimal(r.inode) + "}";
    var t6 := ",\"workspace_inode\":" + t7;
    var t5 := Decimal(r.device) + t6;
    var t4 := "\",\"workspace_device\":" + t5;
    var t3 := r.leaseId + t4;
    var t2 := ",\"lease_id\":\"" + t3;
    var t1 := Decimal(r.generation) + t2;
    AfterLiteral("{\"generation\":", t1);
    NumberOf(r.generation, t2);
    AfterLiteral(",\"lease_id\":\"", t3);
    assert t3[..32] == r.leaseId && t3[32..] == t4;
    AfterLiteral("\",\"workspace_device\":", t5);
    NumberOf(r.device, t6);
    AfterLiteral(",\"workspace_inode\":", t7);
    NumberOf(r.inode, "}");
  }

  predicate OneLine(s: Bytes) {
    '\n' !in s
  }

  lemma {:induction false} OneLineMore(a: Bytes, b: Bytes)
    requires OneLine(a) && OneLine(b)
    ensures OneLine(a + b)
  {
  }

  lemma {:induction false} EncodeIsOneLine(r: Record)
    requires ValidRecord(r)
    ensures OneLine(Encode(r))
  {
    DecimalValue(r.generation);
    DecimalValue(r.device);
    DecimalValue(r.inode);
    var t7 := Decimal(r.inode) + "}";
    OneLineMore(Decimal(r.inode), "}");
    var t6 := ",\"workspace_inode\":" + t7;
    OneLineMore(",\"workspace_inode\":", t7);
    var t5 := Decimal(r.device) + t6;
    OneLineMore(Decimal(r.device), t6);
    var t4 := "\",\"workspace_device\":" + t5;
    OneLineMore("\",\"workspace_device\":", t5);
    var t3 := r.leaseId + t4;
    OneLineMore(r.leaseId, t4);
    var t2 := ",\"lease_id\":\"" + t3;
    OneLineMore(",\"lease_id\":\"", t3);
    OneLineMore(Decimal(r.generation), t2);
    OneLineMore("{\"generation\":", Decimal(r.generation) + t2);
  }

  // ----- The whole journal, for any line format that reads back -----

  datatype Format = Format(encode: Record -> Bytes, decode: Bytes -> Option<Record>)

  /** Every valid record is one line that reads back as itself. */
  ghost predicate Faithful(f: Format) {
    forall r :: ValidRecord(r) ==> OneLine(f.encode(r)) && f.decode(f.encode(r)) == Some(r)
  }

  /** The journal's own format. */
  const Json: Format := Format(Encode, Decode)

  lemma {:induction false} JsonIsFaithful()
    ensures Faithful(Json)
  {
    forall r | ValidRecord(r)
      ensures OneLine(Json.encode(r)) && Json.decode(Json.encode(r)) == Some(r)
    {
      EncodeIsOneLine(r);
      DecodeEncode(r);
    }
  }

  function Line(f: Format, r: Record): Bytes {
    f.encode(r) + ['\n']
  }

  /** The bytes of completed records. */
  function Log(f: Format, rs: seq<Record>): Bytes {
    if rs == [] then [] else Line(f, rs[0]) + Log(f, rs[1..])
  }

  /** Generations count up by one from a first one. */
  predicate Chain(rs: seq<Record>, first: nat) {
    forall i :: 0 <= i < |rs| ==> ValidRecord(rs[i]) && rs[i].generation == first + i
  }

  function NewlineAt(s: Bytes): (k: nat)
    ensures k <= |s| && OneLine(s[..k]) && (k < |s| ==> s[k] == '\n')
  {
    if s == [] || s[0] == '\n' then 0
    else
      var k := NewlineAt(s[1..]);
      assert s[..k + 1] == [s[0]] + s[1..][..k];
      k + 1
  }

  /** The bytes up to and with the last newline. */
  function CompleteSize(s: Bytes): (n: nat)
    ensures n <= |s| && OneLine(s[n..]) && (n > 0 ==> s[n - 1] == '\n')
  {
    if s == [] then 0
    else if s[|s| - 1] == '\n' then |s|
    else
      var n := CompleteSize(s[..|s| - 1]);
      assert s[n..] == s[..|s| - 1][n..] + [s[|s| - 1]];
      n
  }

  function Parse(f: Format, s: Bytes, expected: nat): Option<seq<Record>>
    decreases |s|
  {
    if s == [] then Some([])
    else
      var k := NewlineAt(s);
      var r := f.decode(s[..k]);
      if r.None? || r.value.generation != expected then None
      else if k == |s| then Some([r.value])
      else
        var rest := Parse(f, s[k + 1..], expected + 1);
        if rest.None? then None else Some([r.value] + rest.value)
  }

  lemma {:induction false} NewlineOf(line: Bytes, rest: Bytes)
    requires OneLine(line)
    ensures NewlineAt(line + ['\n'] + rest) == |line|
  {
    var s := line + ['\n'] + rest;
    if line != [] {
      assert line[0] in line && s[0] == line[0];
      assert s[1..] == line[1..] + ['\n'] + rest;
      NewlineOf(line[1..], rest);
    }
  }

  lemma {:induction false} CompleteOf(whole: Bytes, tail: Bytes)
    requires OneLine(tail) && (whole == [] || whole[|whole| - 1] == '\n')
    ensures CompleteSize(whole + tail) == |whole|
    decreases |tail|
  {
    if tail == [] {
      assert whole + tail == whole;
    } else {
      var s := whole + tail;
      assert tail[|tail| - 1] in tail && s[|s| - 1] == tail[|tail| - 1];
      assert s[..|s| - 1] == whole + tail[..|tail| - 1];
      CompleteOf(whole, tail[..|tail| - 1]);
    }
  }

  lemma {:induction false} LogEnds(f: Format, rs: seq<Record>)
    ensures Log(f, rs) == [] || Log(f, rs)[|Log(f, rs)| - 1] == '\n'
    ensures rs != [] ==> Log(f, rs) != []
  {
    if rs != [] {
      LogEnds(f, rs[1..]);
    }
  }

  lemma {:induction false} LogMore(f: Format, rs: seq<Record>, r: Record)
    ensures Log(f, rs + [r]) == Log(f, rs) + Line(f, r)
  {
    if rs == [] {
      assert [r][1..] == [];
    } else {
      assert (rs + [r])[1..] == rs[1..] + [r];
      LogMore(f, rs[1..], r);
    }
  }

  lemma {:induction false} ParseLine(f: Format, r: Record, rest: Bytes)
    requires Faithful(f) && ValidRecord(r)
    ensures Parse(f, Line(f, r) + rest, r.generation) ==
            var more := Parse(f, rest, r.generation + 1); if more.None? then None else Some([r] + more.value)
  {
    var s := Line(f, r) + rest;
    var line := f.encode(r);
    assert s == line + ['\n'] + rest;
    NewlineOf(line, rest);
    assert s[..|line|] == line && s[|line| + 1..] == rest;
  }

  lemma {:induction false} ChainRest(rs: seq<Record>, first: nat)
    requires Chain(rs, first) && rs != []
    ensures Chain(rs[1..], first + 1) && ValidRecord(rs[0]) && rs[0].generation == first
  {
    assert forall i :: 0 <= i < |rs[1..]| ==> rs[1..][i] == rs[i + 1];
  }

  /** Reading completed records gives them back. */
  lemma {:induction false} ParseLog(f: Format, rs: seq<Record>, first: nat)
    requires Faithful(f) && Chain(rs, first)
    ensures Parse(f, Log(f, rs), first) == Some(rs)
  {
    if rs != [] {
      var head, rest := rs[0], rs[1..];
      ChainRest(rs, first);
      ParseLine(f, head, Log(f, rest));
      ParseLog(f, rest, first + 1);
      assert rs == [head] + rest;
      assert Log(f, rs) == Line(f, head) + Log(f, rest);
    }
  }

  /**
   Any completed records followed by any proper prefix of one more line: the tail is recognised
   as partial exactly when it is not empty, and what is read is exactly the completed records.
   */
  lemma {:induction false} TornTailIgnored(f: Format, rs: seq<Record>, next: Record, cut: nat)
    requires Faithful(f) && Chain(rs, 1) && ValidRecord(next) && cut < |Line(f, next)|
    ensures var bytes := Log(f, rs) + Line(f, next)[..cut];
            && CompleteSize(bytes) == |Log(f, rs)| && bytes[..CompleteSize(bytes)] == Log(f, rs)
            && Parse(f, bytes[..CompleteSize(bytes)], 1) == Some(rs)
  {
    var tail := Line(f, next)[..cut];
    assert tail == f.encode(next)[..cut];
    assert OneLine(tail);
    LogEnds(f, rs);
    CompleteOf(Log(f, rs), tail);
    assert (Log(f, rs) + tail)[..|Log(f, rs)|] == Log(f, rs);
    ParseLog(f, rs, 1);
  }

  // ----- The journal file -----

  /** Completed records, then the first bytes of one more line. */
  ghost predicate Holds(f: Format, bytes: Bytes, rs: seq<Record>, torn: Record, cut: nat) {
    && Chain(rs, 1) && ValidRecord(torn) && cut < |Line(f, torn)|
    && bytes == Log(f, rs) + Line(f, torn)[..cut]
  }

  lemma {:induction false} HoldsWhole(f: Format, bytes: Bytes, rs: seq<Record>, torn: Record, cut: nat)
    requires Holds(f, bytes, rs, torn, cut)
    ensures cut == 0 <==> bytes == Log(f, rs)
    ensures |bytes| == |Log(f, rs)| + cut
    ensures Holds(f, Log(f, rs), rs, torn, 0)
  {
    assert |Line(f, torn)[..cut]| == cut;
    assert Line(f, torn)[..0] == [];
  }

  lemma {:induction false} AppendWhole(f: Format, rs: seq<Record>, record: Record)
    requires Chain(rs, 1) && ValidRecord(record) && record.generation == |rs| + 1
    ensures Holds(f, Log(f, rs) + Line(f, record), rs + [record], record, 0)
  {
    LogMore(f, rs, record);
    assert Line(f, record)[..0] == [];
  }

  /** Reads lines one after the other, counting generations. */
  method ParseLines(f: Format, payload: Bytes, ghost rs: seq<Record>) returns (found: seq<Record>)
    requires Parse(f, payload, 1) == Some(rs)
    ensures found == rs
  {
    found := [];
    var expected, rest := 1, payload;
    while rest != []
      invariant Parse(f, rest, expected).Some? && found + Parse(f, rest, expected).value == rs
      decreases |rest|
    {
      var line := NewlineAt(rest);
      var value := f.decode(rest[..line]);
      found, expected := found + [value.value], expected + 1;
      rest := if line == |rest| then [] else rest[line + 1..];
    }
  }

  // ----- What acquisitions do to the journal -----

  /** One acquisition, with how much of its line reaches the file and whether that is reported as durable. */
  datatype Attempt = Attempt(leaseId: Bytes, device: nat, inode: nat, written: nat, synced: bool)

  function Min(a: nat, b: nat): nat {
    if a < b then a else b
  }

  function NextRecord(rs: seq<Record>, a: Attempt): Record {
    Record(|rs| + 1, a.leaseId, a.device, a.inode)
  }

  /** The journal and its complete records after one acquisition by the holder of the lock. */
  ghost function Attempted(f: Format, bytes: Bytes, rs: seq<Record>, a: Attempt): (Bytes, seq<Record>) {
    var line := Line(f, NextRecord(rs, a));
    if |bytes| > MaxJournalBytes then (bytes, rs)
    else (Log(f, rs) + line[..Min(a.written, |line|)], if a.written >= |line| then rs + [NextRecord(rs, a)] else rs)
  }

  /** The generation an acquisition grants, if it grants one. */
  ghost function Granted(f: Format, bytes: Bytes, rs: seq<Record>, a: Attempt): Option<nat> {
    var line := Line(f, NextRecord(rs, a));
    if |bytes| <= MaxJournalBytes && a.written >= |line| && a.synced && |Log(f, rs) + line| <= MaxJournalBytes
    then Some(|rs| + 1) else None
  }

  ghost function AttemptedAll(f: Format, bytes: Bytes, rs: seq<Record>, attempts: seq<Attempt>): (Bytes, seq<Record>) {
    if attempts == [] then (bytes, rs)
    else
      var (b, more) := AttemptedAll(f, bytes, rs, attempts[..|attempts| - 1]);
      Attempted(f, b, more, attempts[|attempts| - 1])
  }

  /** What the acquisition at some position of a run is granted. */
  ghost function GrantedAt(f: Format, bytes: Bytes, rs: seq<Record>, attempts: seq<Attempt>, k: nat): Option<nat>
    requires k < |attempts|
  {
    var (b, more) := AttemptedAll(f, bytes, rs, attempts[..k]);
    Granted(f, b, more, attempts[k])
  }

  lemma {:induction false} AttemptedMore(f: Format, bytes: Bytes, rs: seq<Record>, attempts: seq<Attempt>, k: nat)
    requires k < |attempts|
    ensures var (b, more) := AttemptedAll(f, bytes, rs, attempts[..k]);
            AttemptedAll(f, bytes, rs, attempts[..k + 1]) == Attempted(f, b, more, attempts[k])
  {
    assert attempts[..k + 1][..k] == attempts[..k];
  }

  /** Records are never lost or changed, and a granted generation is that of the record it added. */
  lemma {:induction false} AttemptsGrow(f: Format, bytes: Bytes, rs: seq<Record>, attempts: seq<Attempt>, i: nat, j: nat)
    requires i <= j <= |attempts|
    ensures AttemptedAll(f, bytes, rs, attempts[..i]).1 <= AttemptedAll(f, bytes, rs, attempts[..j]).1
    decreases j
  {
    if i < j {
      assert attempts[..j][..j - 1] == attempts[..j - 1];
      AttemptsGrow(f, bytes, rs, attempts, i, j - 1);
    }
  }

  /** No generation is ever granted twice: along any run of acquisitions they strictly increase. */
  lemma {:induction false} GrantsIncrease(f: Format, bytes: Bytes, rs: seq<Record>, attempts: seq<Attempt>, i: nat, j: nat)
    requires i < j < |attempts|
    ensures var before, after := AttemptedAll(f, bytes, rs, attempts[..i]).1, AttemptedAll(f, bytes, rs, attempts[..j]).1;
            var first, second := GrantedAt(f, bytes, rs, attempts, i), GrantedAt(f, bytes, rs, attempts, j);
            && (first.Some? ==> first.value <= |after| && after[first.value - 1] == NextRecord(before, attempts[i]))
            && (first.Some? && second.Some? ==> first.value < second.value)
  {
    AttemptedMore(f, bytes, rs, attempts, i);
    AttemptsGrow(f, bytes, rs, attempts, i + 1, j);
  }

  class LeaseFile {
    const f: Format
    var bytes: Bytes
    // Whether some process holds the advisory lock.
    var locked: bool
    // The records that are complete, and the line whose beginning may follow them.
    ghost var records: seq<Record>
    ghost var torn: Record
    ghost var cut: nat

    ghost predicate Valid()
      reads this
    {
      Faithful(f) && Holds(f, bytes, records, torn, cut)
    }

    constructor ()
      ensures Valid() && f == Json && bytes == [] && records == [] && !locked
    {
      JsonIsFaithful();
      f := Json;
      bytes, locked, records, cut := [], false, [], 0;
      torn := Record(0, seq(32, _ => '0'), 0, 0);
    }

    /** Reads the journal; repairing drops a partial last line for good. */
    method ReadJournal(repair: bool) returns (r: Option<(seq<Record>, bool)>)
      requires Valid()
      modifies this`bytes, this`cut
      ensures Valid() && (!repair || r.None? ==> bytes == old(bytes))
      ensures r.Some? <==> |old(bytes)| <= MaxJournalBytes
      ensures r.Some? ==> r.value.0 == records && r.value.1 == (!repair && old(cut) > 0)
      ensures r.Some? && repair ==> bytes == Log(f, records)
    {
      if |bytes| > MaxJournalBytes {
        return None;
      }
      TornTailIgnored(f, records, torn, cut);
      HoldsWhole(f, bytes, records, torn, cut);
      var size := CompleteSize(bytes);
      var payload := bytes[..size];
      var partial := size != |bytes|;
      if partial && repair {
        bytes, cut, partial := payload, 0, false;
      }
      var found := ParseLines(f, payload, records);
      return Some((found, partial));
    }

    /**
     Appends a line, of which only the first bytes may reach the file before the writer stops. A
     whole line stays in the file even when making it durable is reported as failed.
     */
    method AppendRecord(record: Record, written: nat, synced: bool) returns (ok: bool)
      requires Valid() && cut == 0 && ValidRecord(record) && record.generation == |records| + 1
      modifies this`bytes, this`records, this`torn, this`cut
      ensures Valid() && (ok <==> written >= |Line(f, record)| && synced)
      ensures records == if written >= |Line(f, record)| then old(records) + [record] else old(records)
      ensures bytes == old(bytes) + Line(f, record)[..Min(written, |Line(f, record)|)]
      ensures written >= |Line(f, record)| ==> cut == 0
    {
      HoldsWhole(f, bytes, records, torn, cut);
      AppendWhole(f, records, record);
      var line := Line(f, record);
      if written < |line| {
        bytes := bytes + line[..written];
        torn, cut := record, written;
        return false;
      }
      assert line[..|line|] == line;
      bytes := bytes + line;
      records, torn := records + [record], record;
      return synced;
    }

    /** Repairs the journal and appends the next generation. */
    method Extend(a: Attempt) returns (ok: bool, record: Record)
      requires Valid() && ValidId(a.leaseId)
      modifies this`bytes, this`records, this`torn, this`cut
      ensures Valid() && (ok ==> record == NextRecord(old(records), a))
      ensures (bytes, records) == Attempted(f, old(bytes), old(records), a)
      ensures ok <==> |old(bytes)| <= MaxJournalBytes && a.written >= |Line(f, NextRecord(old(records), a))| && a.synced
      ensures ok ==> bytes == Log(f, records)
    {
      record := Record(1, a.leaseId, a.device, a.inode);
      var journal := ReadJournal(true);
      if journal.None? {
        return false, record;
      }
      var found := journal.value.0;
      HoldsWhole(f, bytes, records, torn, cut);
      if found != [] {
        record := record.(generation := found[|found| - 1].generation + 1);
      }
      assert record == NextRecord(records, a);
      var line := Line(f, record);
      assert line[..|line|] == line;
      LogMore(f, records, record);
      ok := AppendRecord(record, a.written, a.synced);
    }

    /**
     Takes the lock, repairs the journal and appends the next generation. A lease is returned
     only for a new last record; a refusal never changes an earlier record.
     */
    method Acquire(a: Attempt) returns (lease: WriteLease?)
      requires Valid() && ValidId(a.leaseId)
      modifies this
      ensures Valid()
      ensures lease != null ==>
                && fresh(lease) && lease.file == this && !lease.closed && locked
                && lease.record.generation == |old(records)| + 1 && records == old(records) + [lease.record]
      ensures old(locked) ==> lease == null && records == old(records) && bytes == old(bytes) && locked
      ensures !old(locked) ==> (bytes, records) == Attempted(f, old(bytes), old(records), a)
      ensures !old(locked) ==> (lease != null <==> Granted(f, old(bytes), old(records), a).Some?)
      ensures lease == null && !old(locked) ==> !locked
    {
      lease := null;
      if locked {
        return;
      }
      var ok, record := Extend(a);
      if !ok {
        return;
      }
      locked := true;
      lease := new WriteLease(this, record);
      ok := lease.AssertCurrent();
      if !ok {
        lease.Close();
        lease := null;
      }
    }

    /** One process takes a lease and gives it up, or loses it when it dies. */
    method AcquireAndRelease(a: Attempt) returns (generation: Option<nat>)
      requires Valid() && !locked && ValidId(a.leaseId)
      modifies this
      ensures Valid() && !locked
      ensures (bytes, records) == Attempted(f, old(bytes), old(records), a)
      ensures generation == Granted(f, old(bytes), old(records), a)
    {
      var lease := Acquire(a);
      if lease == null {
        return None;
      }
      locked := false;
      return Some(lease.record.generation);
    }

    /**
     Any run of acquisitions, each torn wherever its writer stops and each lease given up or lost
     with its process before the next, with what became of every one of them.
     */
    method Run(attempts: seq<Attempt>) returns (granted: seq<Option<nat>>)
      requires Valid() && !locked && forall a :: a in attempts ==> ValidId(a.leaseId)
      modifies this
      ensures Valid() && !locked
      ensures (bytes, records) == AttemptedAll(f, old(bytes), old(records), attempts)
      ensures |granted| == |attempts|
      ensures forall k :: 0 <= k < |attempts| ==> granted[k] == GrantedAt(f, old(bytes), old(records), attempts, k)
    {
      granted := [];
      for k := 0 to |attempts|
        invariant Valid() && !locked && |granted| == k
        invariant (bytes, records) == AttemptedAll(f, old(bytes), old(records), attempts[..k])
        invariant forall i :: 0 <= i < k ==> granted[i] == GrantedAt(f, old(bytes), old(records), attempts, i)
      {
        AttemptedMore(f, old(bytes), old(records), attempts, k);
        var generation := AcquireAndRelease(attempts[k]);
        granted := granted + [generation];
      }
      assert attempts[..|attempts|] == attempts;
    }
  }


  /** One granted generation; it is good until it is closed or a newer one is appended. */
  class WriteLease {
    const file: LeaseFile
    const record: Record
    var closed: bool

    constructor (file: LeaseFile, record: Record)
      ensures this.file == file && this.record == record && !closed
    {
      this.file, this.record := file, record;
      closed := false;
    }

    /** Passes exactly for the open lease of the last record of a readable, untorn journal. */
    method AssertCurrent() returns (ok: bool)
      requires file.Valid()
      modifies file`bytes, file`cut
      ensures file.Valid() && file.bytes == old(file.bytes)
      ensures ok <==> !closed && |file.bytes| <= MaxJournalBytes && file.bytes == Log(file.f, file.records)
                      && file.records != [] && file.records[|file.records| - 1] == record
    {
      if closed {
        return false;
      }
      var journal := file.ReadJournal(false);
      HoldsWhole(file.f, file.bytes, file.records, file.torn, file.cut);
      if journal.None? || journal.value.1 || journal.value.0 == [] {
        return false;
      }
      return journal.value.0[|journal.value.0| - 1] == record;
    }

    method Close()
      modifies this`closed, file`locked
      ensures closed && (old(closed) ==> file.locked == old(file.locked)) && (!old(closed) ==> !file.locked)
    {
      if !closed {
        closed := true;
        file.locked := false;
      }
    }
  }
}

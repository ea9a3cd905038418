/** The imported audit chain: the importer and the integrity endpoint agree, and the head hash
    pins the whole history. The hash is a parameter; what is needed of it is stated where it
    is used. */
module AuditChain {
  import opened Wrappers

  /** A row of the old audit table. */
  datatype AuditRow = AuditRow(seqNo: int, kind: string, body: string, createdAt: string, prevHash: string, recordHash: string)

  /** A row as imported; the body is kept only when payloads are retained. */
  datatype StoredRow = StoredRow(seqNo: int, kind: string, body: Option<string>, createdAt: string, prevHash: string, recordHash: string)

  datatype ImportError =
    | LinkBroken(at: int)
    | HashMismatch(at: int)
    | BodyNotObject(at: int)
    | DuplicateSeq(at: int)
    | HeadHashDiffers
    | HeadSeqDiffers

  type Hash = string -> string

  /** The unit separator between the fields of a preimage. */
  const SEPARATOR: char := '\U{1f}'

  function Zeros(n: nat): string { if n == 0 then "" else Zeros(n - 1) + "0" }

  const GENESIS: string := Zeros(64)

  function Preimage(kind: string, body: string, createdAt: string, prevHash: string): string {
    kind + [SEPARATOR] + (body + [SEPARATOR] + createdAt + [SEPARATOR] + prevHash)
  }

  function RowHash(h: Hash, row: AuditRow): string {
    h(Preimage(row.kind, row.body, row.createdAt, row.prevHash))
  }

  // ----- the importer -----

  /** The head hash after the rows, or the first error. `previous` is the sequence number before
      the rows, `isObject` the answer of the JSON parser. */
  function CheckFrom(h: Hash, isObject: string -> bool, rows: seq<AuditRow>, prior: string, previous: Option<int>): Result<string, ImportError> {
    if |rows| == 0 then Success(prior)
    else if rows[0].prevHash != prior then Failure(LinkBroken(rows[0].seqNo))
    else if RowHash(h, rows[0]) != rows[0].recordHash then Failure(HashMismatch(rows[0].seqNo))
    else if !isObject(rows[0].body) then Failure(BodyNotObject(rows[0].seqNo))
    else if previous == Some(rows[0].seqNo) then Failure(DuplicateSeq(rows[0].seqNo))
    else CheckFrom(h, isObject, rows[1..], rows[0].recordHash, Some(rows[0].seqNo))
  }

  function Store(row: AuditRow, retain: bool): StoredRow {
    StoredRow(row.seqNo, row.kind, if retain then Some(row.body) else None, row.createdAt, row.prevHash, row.recordHash)
  }

  function StoreAll(rows: seq<AuditRow>, retain: bool): seq<StoredRow> {
    seq(|rows|, i requires 0 <= i < |rows| => Store(rows[i], retain))
  }

  /** The stored rows and the head hash, or the error that undoes the import. `headHash` and
      `headSeq` are what the old database recorded about its head. */
  function Import(h: Hash, isObject: string -> bool, rows: seq<AuditRow>, retain: bool, headHash: Option<string>, headSeq: Option<int>)
    : Result<(seq<StoredRow>, string), ImportError>
  {
    match CheckFrom(h, isObject, rows, GENESIS, None)
    case Failure(error) => Failure(error)
    case Success(head) =>
      if headHash.Some? && headHash.value != head then Failure(HeadHashDiffers)
      else if headSeq.Some? && headSeq.value != (if |rows| > 0 then rows[|rows| - 1].seqNo else 0) then Failure(HeadSeqDiffers)
      else Success((StoreAll(rows, retain), head))
  }

  /** The loop of the importer over the rows in sequence order. */
  method ImportAudit(h: Hash, isObject: string -> bool, rows: seq<AuditRow>, retain: bool, headHash: Option<string>, headSeq: Option<int>)
    returns (r: Result<(seq<StoredRow>, string), ImportError>)
    ensures r == Import(h, isObject, rows, retain, headHash, headSeq)
  {
    var priorHash := GENESIS;
    var previous: Option<int> := None;
    var stored: seq<StoredRow> := [];
    assert rows[0..] == rows;
    for k := 0 to |rows|
      invariant stored == StoreAll(rows[..k], retain)
      invariant previous == if k > 0 then Some(rows[k - 1].seqNo) else None
      invariant CheckFrom(h, isObject, rows, GENESIS, None) == CheckFrom(h, isObject, rows[k..], priorHash, previous)
    {
      var row := rows[k];
      assert rows[k..][1..] == rows[k + 1..];
      if row.prevHash != priorHash {
        return Failure(LinkBroken(row.seqNo));
      }
      var expected := h(Preimage(row.kind, row.body, row.createdAt, row.prevHash));
      if expected != row.recordHash {
        return Failure(HashMismatch(row.seqNo));
      }
      priorHash := row.recordHash;
      if !isObject(row.body) {
        return Failure(BodyNotObject(row.seqNo));
      }
      if previous == Some(row.seqNo) {
        return Failure(DuplicateSeq(row.seqNo));
      }
      stored := stored + [Store(row, retain)];
      previous := Some(row.seqNo);
    }
    assert rows[..|rows|] == rows;
    if headHash.Some? && headHash.value != priorHash {
      return Failure(HeadHashDiffers);
    }
    if headSeq.Some? && headSeq.value != (if |stored| > 0 then rows[|rows| - 1].seqNo else 0) {
      return Failure(HeadSeqDiffers);
    }
    return Success((stored, priorHash));
  }

  // ----- the integrity endpoint -----

  /** The row that a stored row with its body stands for. */
  function Restore(row: StoredRow): AuditRow {
    AuditRow(row.seqNo, row.kind, if row.body.Some? then row.body.value else "", row.createdAt, row.prevHash, row.recordHash)
  }

  datatype Report = Broken(at: int) | Intact(payloadsVerified: bool, entries: nat, head: string)

  function InspectFrom(h: Hash, rows: seq<StoredRow>, previous: string, payloads: bool): Result<(bool, string), int> {
    if |rows| == 0 then Success((payloads, previous))
    else if rows[0].prevHash != previous then Failure(rows[0].seqNo)
    else if rows[0].body.Some? && RowHash(h, Restore(rows[0])) != rows[0].recordHash then Failure(rows[0].seqNo)
    else InspectFrom(h, rows[1..], rows[0].recordHash, payloads && rows[0].body.Some?)
  }

  function Inspect(h: Hash, rows: seq<StoredRow>): Report {
    match InspectFrom(h, rows, GENESIS, true)
    case Failure(at) => Broken(at)
    case Success((payloads, head)) => Intact(payloads, |rows|, head)
  }

  /** The loop of the endpoint over the stored rows. */
  method LegacyAuditIntegrity(h: Hash, rows: seq<StoredRow>) returns (r: Report)
    ensures r == Inspect(h, rows)
  {
    var previous := GENESIS;
    var payloadsVerified := true;
    assert rows[0..] == rows;
    for k := 0 to |rows|
      invariant InspectFrom(h, rows, GENESIS, true) == InspectFrom(h, rows[k..], previous, payloadsVerified)
    {
      var row := rows[k];
      assert rows[k..][1..] == rows[k + 1..];
      if row.prevHash != previous {
        return Broken(row.seqNo);
      }
      if row.body.Some? {
        var expected := h(Preimage(row.kind, row.body.value, row.createdAt, row.prevHash));
        if expected != row.recordHash {
          return Broken(row.seqNo);
        }
      } else {
        payloadsVerified := false;
      }
      previous := row.recordHash;
    }
    return Intact(payloadsVerified, |rows|, previous);
  }

  // ----- the importer and the endpoint agree -----

  lemma {:induction false} CheckedRowsInspect(h: Hash, isObject: string -> bool, rows: seq<AuditRow>, retain: bool, prior: string,
                                              previous: Option<int>, payloads: bool)
    requires CheckFrom(h, isObject, rows, prior, previous).Success?
    ensures InspectFrom(h, StoreAll(rows, retain), prior, payloads)
         == Success((payloads && (retain || |rows| == 0), CheckFrom(h, isObject, rows, prior, previous).value))
  {
    if |rows| > 0 {
      assert StoreAll(rows, retain)[1..] == StoreAll(rows[1..], retain);
      CheckedRowsInspect(h, isObject, rows[1..], retain, rows[0].recordHash, Some(rows[0].seqNo), payloads && retain);
    }
  }

  /** Every chain that the importer accepts is intact to the endpoint, with the same head and
      length, and its payloads are verified exactly when they were retained or there are none. */
  lemma ImportedChainIsIntact(h: Hash, isObject: string -> bool, rows: seq<AuditRow>, retain: bool, headHash: Option<string>, headSeq: Option<int>)
    requires Import(h, isObject, rows, retain, headHash, headSeq).Success?
    ensures var (stored, head) := Import(h, isObject, rows, retain, headHash, headSeq).value;
            Inspect(h, stored) == Intact(retain || |rows| == 0, |rows|, head)
  {
    CheckedRowsInspect(h, isObject, rows, retain, GENESIS, None, true);
  }

  /** The links and hashes of a chain, apart from sequence numbers and body syntax. */
  ghost predicate Linked(h: Hash, rows: seq<AuditRow>, prior: string) {
    forall i :: 0 <= i < |rows| ==> LinkedAt(h, rows, prior, i)
  }

  predicate LinkedAt(h: Hash, rows: seq<AuditRow>, prior: string, i: int)
    requires 0 <= i < |rows|
  {
    rows[i].prevHash == (if i == 0 then prior else rows[i - 1].recordHash) && RowHash(h, rows[i]) == rows[i].recordHash
  }

  function Head(rows: seq<AuditRow>, prior: string): string {
    if |rows| == 0 then prior else rows[|rows| - 1].recordHash
  }

  lemma {:induction false} InspectedIsLinked(h: Hash, rows: seq<AuditRow>, prior: string, payloads: bool)
    ensures InspectFrom(h, StoreAll(rows, true), prior, payloads).Success? <==> Linked(h, rows, prior)
    ensures Linked(h, rows, prior) ==> InspectFrom(h, StoreAll(rows, true), prior, payloads) == Success((payloads, Head(rows, prior)))
  {
    if |rows| > 0 {
      var tail := rows[1..];
      assert StoreAll(rows, true)[1..] == StoreAll(tail, true);
      InspectedIsLinked(h, tail, rows[0].recordHash, payloads);
      assert Linked(h, rows, prior) ==> LinkedAt(h, rows, prior, 0);
      assert forall i :: 0 <= i < |tail| ==> tail[i] == rows[i + 1];
      if LinkedAt(h, rows, prior, 0) {
        assert forall i :: 0 <= i < |tail| ==> LinkedAt(h, tail, rows[0].recordHash, i) == LinkedAt(h, rows, prior, i + 1);
        assert forall i :: 0 < i < |rows| ==> LinkedAt(h, rows, prior, i) == LinkedAt(h, tail, rows[0].recordHash, i - 1);
      }
    }
  }

  lemma {:induction false} PayloadsAllKept(h: Hash, rows: seq<StoredRow>, previous: string, payloads: bool)
    ensures InspectFrom(h, rows, previous, payloads).Success? && InspectFrom(h, rows, previous, payloads).value.0 ==>
              payloads && forall i :: 0 <= i < |rows| ==> rows[i].body.Some?
  {
    if |rows| > 0 {
      PayloadsAllKept(h, rows[1..], rows[0].recordHash, payloads && rows[0].body.Some?);
      assert forall i :: 0 < i < |rows| ==> rows[i] == rows[1..][i - 1];
    }
  }

  function RestoreAll(rows: seq<StoredRow>): seq<AuditRow> {
    seq(|rows|, i requires 0 <= i < |rows| => Restore(rows[i]))
  }

  /** The endpoint reports verified payloads exactly when every body is there and every link and
      hash is right; the head it reports is then the last record hash. */
  lemma VerifiedMeansLinked(h: Hash, rows: seq<StoredRow>)
    ensures (Inspect(h, rows).Intact? && Inspect(h, rows).payloadsVerified)
            <==> (forall i :: 0 <= i < |rows| ==> rows[i].body.Some?) && Linked(h, RestoreAll(rows), GENESIS)
    ensures Inspect(h, rows).Intact? && Inspect(h, rows).payloadsVerified ==>
              Inspect(h, rows).head == Head(RestoreAll(rows), GENESIS)
  {
    PayloadsAllKept(h, rows, GENESIS, true);
    if forall i :: 0 <= i < |rows| ==> rows[i].body.Some? {
      assert StoreAll(RestoreAll(rows), true) == rows;
      InspectedIsLinked(h, RestoreAll(rows), GENESIS, true);
    }
  }

  // ----- the head pins the history -----

  /** Text up to the first separator is determined by the whole. */
  lemma FirstField(a: string, b: string, a': string, b': string)
    requires SEPARATOR !in a && SEPARATOR !in a'
    requires a + [SEPARATOR] + b == a' + [SEPARATOR] + b'
    ensures a == a' && b == b'
  {
    var x, y := a + [SEPARATOR] + b, a' + [SEPARATOR] + b';
    assert forall i :: 0 <= i < |a| ==> x[i] == a[i];
    assert forall i :: 0 <= i < |a'| ==> y[i] == a'[i];
    assert x[|a|] == SEPARATOR && y[|a'|] == SEPARATOR;
    assert |a| == |a'|;
    assert a == x[..|a|] && a' == y[..|a'|];
    assert b == x[|a| + 1..] && b' == y[|a'| + 1..];
  }

  /** Text after the last separator is determined by the whole. */
  lemma LastField(a: string, b: string, a': string, b': string)
    requires SEPARATOR !in b && SEPARATOR !in b'
    requires a + [SEPARATOR] + b == a' + [SEPARATOR] + b'
    ensures a == a' && b == b'
  {
    var x, y := a + [SEPARATOR] + b, a' + [SEPARATOR] + b';
    assert forall i :: |a| < i < |x| ==> x[i] == b[i - |a| - 1];
    assert forall i :: |a'| < i < |y| ==> y[i] == b'[i - |a'| - 1];
    assert x[|a|] == SEPARATOR && y[|a'|] == SEPARATOR;
    assert |a| == |a'|;
    assert a == x[..|a|] && a' == y[..|a'|];
    assert b == x[|a| + 1..] && b' == y[|a'| + 1..];
  }

  /** A preimage determines its four fields when kind, time and previous hash hold no separator;
      the body may hold any. */
  lemma PreimageInjective(a: AuditRow, b: AuditRow)
    requires Clean(a) && Clean(b) && SEPARATOR !in a.prevHash && SEPARATOR !in b.prevHash
    requires Preimage(a.kind, a.body, a.createdAt, a.prevHash) == Preimage(b.kind, b.body, b.createdAt, b.prevHash)
    ensures a.kind == b.kind && a.body == b.body && a.createdAt == b.createdAt && a.prevHash == b.prevHash
  {
    FirstField(a.kind, a.body + [SEPARATOR] + a.createdAt + [SEPARATOR] + a.prevHash,
               b.kind, b.body + [SEPARATOR] + b.createdAt + [SEPARATOR] + b.prevHash);
    LastField(a.body + [SEPARATOR] + a.createdAt, a.prevHash, b.body + [SEPARATOR] + b.createdAt, b.prevHash);
    LastField(a.body, a.createdAt, b.body, b.createdAt);
  }

  predicate Clean(row: AuditRow) {
    SEPARATOR !in row.kind && SEPARATOR !in row.createdAt
  }

  /** What is assumed of the hash: no two texts share one, and none holds the separator. */
  ghost predicate Digest(h: Hash) {
    (forall x, y :: h(x) == h(y) ==> x == y) && forall x :: SEPARATOR !in h(x)
  }

  lemma {:induction false} ZerosAreDigits(n: nat)
    ensures SEPARATOR !in Zeros(n)
  {
    if n > 0 { ZerosAreDigits(n - 1); }
  }

  /** In a linked chain no previous hash holds the separator. */
  lemma LinkedHashesAreClean(h: Hash, rows: seq<AuditRow>, i: int)
    requires Digest(h) && Linked(h, rows, GENESIS) && 0 <= i < |rows|
    ensures SEPARATOR !in rows[i].prevHash
  {
    assert LinkedAt(h, rows, GENESIS, i);
    if i > 0 {
      assert LinkedAt(h, rows, GENESIS, i - 1);
    } else {
      ZerosAreDigits(64);
    }
  }

  /** All but the last row of a linked chain is a linked chain, and the last row links to its head. */
  lemma LinkedPrefix(h: Hash, rows: seq<AuditRow>, prior: string)
    requires |rows| > 0 && Linked(h, rows, prior)
    ensures var n := |rows| - 1;
            Linked(h, rows[..n], prior) && Head(rows[..n], prior) == rows[n].prevHash && RowHash(h, rows[n]) == rows[n].recordHash
  {
    var n := |rows| - 1;
    assert LinkedAt(h, rows, prior, n);
    forall i | 0 <= i < n ensures LinkedAt(h, rows[..n], prior, i) {
      assert LinkedAt(h, rows, prior, i);
    }
  }

  /** Everything about a row but its sequence number, which no hash covers. */
  predicate SameRecord(a: AuditRow, b: AuditRow) {
    a.kind == b.kind && a.body == b.body && a.createdAt == b.createdAt && a.prevHash == b.prevHash && a.recordHash == b.recordHash
  }

  /** No kind or time holds a separator, and no record hashes to the genesis value. */
  ghost predicate WellFormed(rows: seq<AuditRow>) {
    forall i :: 0 <= i < |rows| ==> Clean(rows[i]) && rows[i].recordHash != GENESIS
  }

  /** Two linked chains with one head are the same history, record by record. */
  lemma {:induction false} HeadPinsHistory(h: Hash, a: seq<AuditRow>, b: seq<AuditRow>)
    requires Digest(h) && WellFormed(a) && WellFormed(b)
    requires Linked(h, a, GENESIS) && Linked(h, b, GENESIS) && Head(a, GENESIS) == Head(b, GENESIS)
    ensures |a| == |b| && forall i :: 0 <= i < |a| ==> SameRecord(a[i], b[i])
  {
    if |a| > 0 && |b| > 0 {
      var m, n := |a| - 1, |b| - 1;
      LinkedPrefix(h, a, GENESIS);
      LinkedPrefix(h, b, GENESIS);
      LastRecordPinned(h, a, b);
      HeadPinsHistory(h, a[..m], b[..n]);
      assert forall i :: 0 <= i < m ==> SameRecord(a[..m][i], b[..n][i]);
    }
  }

  lemma LastRecordPinned(h: Hash, a: seq<AuditRow>, b: seq<AuditRow>)
    requires Digest(h) && WellFormed(a) && WellFormed(b) && |a| > 0 && |b| > 0
    requires Linked(h, a, GENESIS) && Linked(h, b, GENESIS) && Head(a, GENESIS) == Head(b, GENESIS)
    ensures SameRecord(a[|a| - 1], b[|b| - 1])
  {
    var m, n := |a| - 1, |b| - 1;
    LinkedHashesAreClean(h, a, m);
    LinkedHashesAreClean(h, b, n);
    assert LinkedAt(h, a, GENESIS, m) && LinkedAt(h, b, GENESIS, n);
    PreimageInjective(a[m], b[n]);
  }

  /** Two imported tables that the endpoint reports with verified payloads and one head hold the
      same history. */
  lemma VerifiedHeadPinsHistory(h: Hash, a: seq<StoredRow>, b: seq<StoredRow>)
    requires Digest(h) && WellFormed(RestoreAll(a)) && WellFormed(RestoreAll(b))
    requires Inspect(h, a).Intact? && Inspect(h, a).payloadsVerified && Inspect(h, b).Intact? && Inspect(h, b).payloadsVerified
    requires Inspect(h, a).head == Inspect(h, b).head
    ensures |a| == |b|
    ensures forall i :: 0 <= i < |a| ==> SameRecord(Restore(a[i]), Restore(b[i]))
  {
    VerifiedMeansLinked(h, a);
    VerifiedMeansLinked(h, b);
    HeadPinsHistory(h, RestoreAll(a), RestoreAll(b));
    forall i | 0 <= i < |a| ensures SameRecord(Restore(a[i]), Restore(b[i])) {
      assert SameRecord(RestoreAll(a)[i], RestoreAll(b)[i]);
    }
  }

  // ----- without payloads -----

  lemma {:induction false} FlagMeansKept(h: Hash, rows: seq<StoredRow>, previous: string, payloads: bool)
    requires InspectFrom(h, rows, previous, payloads).Success?
    ensures InspectFrom(h, rows, previous, payloads).value.0 <==> payloads && forall i :: 0 <= i < |rows| ==> rows[i].body.Some?
  {
    if |rows| > 0 {
      FlagMeansKept(h, rows[1..], rows[0].recordHash, payloads && rows[0].body.Some?);
      assert forall i :: 0 < i < |rows| ==> rows[i] == rows[1..][i - 1];
    }
  }

  /** The inspection does not look at the kind of a row without a body. */
  lemma {:induction false} KindUnseen(h: Hash, rows: seq<StoredRow>, i: nat, kind: string, previous: string, payloads: bool)
    requires i < |rows| && rows[i].body == None
    ensures InspectFrom(h, rows[i := rows[i].(kind := kind)], previous, payloads) == InspectFrom(h, rows, previous, payloads)
  {
    var altered := rows[i := rows[i].(kind := kind)];
    if i == 0 {
      assert altered[1..] == rows[1..];
    } else {
      assert altered[1..] == rows[1..][i - 1 := rows[1..][i - 1].(kind := kind)];
      KindUnseen(h, rows[1..], i - 1, kind, rows[0].recordHash, payloads && rows[0].body.Some?);
    }
  }

  ghost predicate SameHistory(a: seq<StoredRow>, b: seq<StoredRow>) {
    |a| == |b| && forall i :: 0 <= i < |a| ==> SameRecord(Restore(a[i]), Restore(b[i]))
  }

  /** The report on a table tells its history apart from every other well-formed one. */
  ghost predicate ReportPins(h: Hash, rows: seq<StoredRow>) {
    forall other | WellFormed(RestoreAll(other)) && Inspect(h, other) == Inspect(h, rows) :: SameHistory(other, rows)
  }

  /** A table with a row without a body has an altered twin: well-formed, with the same report, and
      with another kind in that row. */
  lemma AlteredTwin(h: Hash, rows: seq<StoredRow>, i: nat)
    requires WellFormed(RestoreAll(rows)) && i < |rows| && rows[i].body == None
    ensures var twin := rows[i := rows[i].(kind := rows[i].kind + "x")];
            WellFormed(RestoreAll(twin)) && Inspect(h, twin) == Inspect(h, rows) && !SameHistory(twin, rows)
  {
    var kind := rows[i].kind + "x";
    var twin := rows[i := rows[i].(kind := kind)];
    KindUnseen(h, rows, i, kind, GENESIS, true);
    assert RestoreAll(rows)[i].kind == rows[i].kind;
    forall k | 0 <= k < |twin| ensures Clean(RestoreAll(twin)[k]) && RestoreAll(twin)[k].recordHash != GENESIS {
      assert Clean(RestoreAll(rows)[k]) && RestoreAll(rows)[k].recordHash != GENESIS;
    }
    assert !SameRecord(Restore(twin[i]), Restore(rows[i]));
  }

  /** The report on an intact table pins its history exactly when every body was kept. */
  lemma ReportPinsExactly(h: Hash, rows: seq<StoredRow>)
    requires Digest(h) && WellFormed(RestoreAll(rows)) && Inspect(h, rows).Intact?
    ensures ReportPins(h, rows) <==> forall i :: 0 <= i < |rows| ==> rows[i].body.Some?
  {
    FlagMeansKept(h, rows, GENESIS, true);
    if i :| 0 <= i < |rows| && rows[i].body == None {
      AlteredTwin(h, rows, i);
    } else {
      forall other | WellFormed(RestoreAll(other)) && Inspect(h, other) == Inspect(h, rows) ensures SameHistory(other, rows) {
        VerifiedHeadPinsHistory(h, other, rows);
      }
    }
  }

  /** An imported chain is pinned by its report exactly when its payloads were retained or it is empty. */
  lemma ImportPinsExactly(h: Hash, isObject: string -> bool, rows: seq<AuditRow>, retain: bool, headHash: Option<string>, headSeq: Option<int>)
    requires Digest(h) && WellFormed(rows) && Import(h, isObject, rows, retain, headHash, headSeq).Success?
    ensures ReportPins(h, StoreAll(rows, retain)) <==> retain || |rows| == 0
  {
    var stored := StoreAll(rows, retain);
    ImportedChainIsIntact(h, isObject, rows, retain, headHash, headSeq);
    forall i | 0 <= i < |stored| ensures Clean(RestoreAll(stored)[i]) && RestoreAll(stored)[i].recordHash != GENESIS {
      assert Clean(rows[i]) && rows[i].recordHash != GENESIS;
    }
    ReportPinsExactly(h, stored);
    assert |rows| > 0 ==> (stored[0].body.Some? <==> retain);
  }

  /** In particular a chain of one record without its payload: any kind gives the same report. */
  lemma LinksAloneDoNotPinContents(h: Hash, row: StoredRow, kind: string)
    requires row.body == None && row.prevHash == GENESIS
    ensures Inspect(h, [row]) == Inspect(h, [row.(kind := kind)]) == Intact(false, 1, row.recordHash)
    ensures Digest(h) && WellFormed(RestoreAll([row])) ==> !ReportPins(h, [row])
  {
    KindUnseen(h, [row], 0, kind, GENESIS, true);
    assert [row][0 := row.(kind := kind)] == [row.(kind := kind)];
    assert [row][1..] == [];
    assert InspectFrom(h, [row][1..], row.recordHash, false) == Success((false, row.recordHash));
    assert [row][0].body == None;
    if Digest(h) && WellFormed(RestoreAll([row])) { ReportPinsExactly(h, [row]); }
  }
}

/** What the importer and the integrity endpoint answer, row by row of the table rather than in the
    order of their loops. */
module AuditRules {
  import opened Wrappers
  import opened AuditChain

  /** The text that a record hash covers: kind, body, time and previous hash, with unit separators. */
  function HashedText(kind: string, body: string, createdAt: string, prevHash: string): string {
    kind + "\U{1f}" + body + "\U{1f}" + createdAt + "\U{1f}" + prevHash
  }

  lemma PreimageText(kind: string, body: string, createdAt: string, prevHash: string)
    ensures Preimage(kind, body, createdAt, prevHash) == HashedText(kind, body, createdAt, prevHash)
  {
    var us := [SEPARATOR];
    assert us == "\U{1f}";
    assert kind + us + (body + us + createdAt + us + prevHash) == kind + us + body + us + createdAt + us + prevHash;
  }

  /** The chain begins with the hash of 64 zeros. */
  predicate IsGenesis(prior: string) {
    |prior| == 64 && forall i :: 0 <= i < 64 ==> prior[i] == '0'
  }

  lemma {:induction false} ZerosAreZeros(n: nat)
    ensures |Zeros(n)| == n && forall i :: 0 <= i < n ==> Zeros(n)[i] == '0'
  {
    if n > 0 {
      ZerosAreZeros(n - 1);
    }
  }

  lemma GenesisIsZeros(prior: string)
    ensures IsGenesis(prior) <==> prior == GENESIS
  {
    ZerosAreZeros(64);
  }

  // ----- the importer -----

  /** What is wrong with row i after the rows before it: the first that applies. */
  function Fault(h: Hash, isObject: string -> bool, rows: seq<AuditRow>, prior: string, previous: Option<int>, i: nat): Option<ImportError>
    requires i < |rows|
  {
    var row := rows[i];
    if row.prevHash != (if i == 0 then prior else rows[i - 1].recordHash) then Some(LinkBroken(row.seqNo))
    else if h(HashedText(row.kind, row.body, row.createdAt, row.prevHash)) != row.recordHash then Some(HashMismatch(row.seqNo))
    else if !isObject(row.body) then Some(BodyNotObject(row.seqNo))
    else if (if i == 0 then previous == Some(row.seqNo) else rows[i - 1].seqNo == row.seqNo) then Some(DuplicateSeq(row.seqNo))
    else None
  }

  /** Row i is the first with a fault, and this is the fault. */
  ghost predicate FirstFault(h: Hash, isObject: string -> bool, rows: seq<AuditRow>, prior: string, previous: Option<int>,
                             i: nat, error: ImportError)
  {
    && i < |rows| && Fault(h, isObject, rows, prior, previous, i) == Some(error)
    && forall j: nat :: j < i ==> Fault(h, isObject, rows, prior, previous, j) == None
  }

  lemma FaultInTail(h: Hash, isObject: string -> bool, rows: seq<AuditRow>, prior: string, previous: Option<int>, i: nat)
    requires 0 < i < |rows|
    ensures Fault(h, isObject, rows, prior, previous, i)
         == Fault(h, isObject, rows[1..], rows[0].recordHash, Some(rows[0].seqNo), i - 1)
  {
  }

  /** The check gives the last record hash when no row has a fault, and otherwise the first fault. */
  lemma {:induction false} CheckExactly(h: Hash, isObject: string -> bool, rows: seq<AuditRow>, prior: string, previous: Option<int>)
    returns (i: nat)
    ensures var r := CheckFrom(h, isObject, rows, prior, previous);
            if r.Success? then
              && (forall j: nat :: j < |rows| ==> Fault(h, isObject, rows, prior, previous, j) == None)
              && r.value == if |rows| == 0 then prior else rows[|rows| - 1].recordHash
            else FirstFault(h, isObject, rows, prior, previous, i, r.error)
  {
    i := 0;
    if |rows| > 0 {
      var row := rows[0];
      PreimageText(row.kind, row.body, row.createdAt, row.prevHash);
      if Fault(h, isObject, rows, prior, previous, 0) == None {
        var k := CheckExactly(h, isObject, rows[1..], row.recordHash, Some(row.seqNo));
        i := k + 1;
        forall j: nat | 0 < j < |rows|
          ensures Fault(h, isObject, rows, prior, previous, j) == Fault(h, isObject, rows[1..], row.recordHash, Some(row.seqNo), j - 1)
        {
          FaultInTail(h, isObject, rows, prior, previous, j);
        }
      }
    }
  }

  /** The row is kept as it is, with its body exactly when payloads are retained. */
  predicate StoredAs(stored: StoredRow, row: AuditRow, retain: bool) {
    && stored.seqNo == row.seqNo && stored.kind == row.kind && stored.createdAt == row.createdAt
    && stored.prevHash == row.prevHash && stored.recordHash == row.recordHash
    && stored.body == if retain then Some(row.body) else None
  }

  function LastSeq(rows: seq<AuditRow>): int { if |rows| == 0 then 0 else rows[|rows| - 1].seqNo }

  /** An import succeeds exactly when no row has a fault and the recorded head, if there is one, is the
      last row's; every row is then stored. Otherwise the first fault is reported, before the head hash,
      before the head sequence. */
  lemma ImportExactly(h: Hash, isObject: string -> bool, rows: seq<AuditRow>, retain: bool, headHash: Option<string>,
                      headSeq: Option<int>, prior: string) returns (i: nat)
    requires IsGenesis(prior)
    ensures var r := Import(h, isObject, rows, retain, headHash, headSeq);
            if exists j: nat :: j < |rows| && Fault(h, isObject, rows, prior, None, j) != None then
              r.Failure? && FirstFault(h, isObject, rows, prior, None, i, r.error)
            else if headHash != None && headHash != Some(Head(rows, prior)) then r == Failure(HeadHashDiffers)
            else if headSeq != None && headSeq != Some(LastSeq(rows)) then r == Failure(HeadSeqDiffers)
            else
              && r.Success? && r.value.1 == Head(rows, prior) && |r.value.0| == |rows|
              && forall k :: 0 <= k < |rows| ==> StoredAs(r.value.0[k], rows[k], retain)
  {
    GenesisIsZeros(prior);
    i := CheckExactly(h, isObject, rows, GENESIS, None);
  }

  // ----- the integrity endpoint -----

  /** Row i does not follow the row before it, or has a body that its hash does not cover. */
  predicate BreaksAt(h: Hash, rows: seq<StoredRow>, previous: string, i: nat)
    requires i < |rows|
  {
    var row := rows[i];
    || row.prevHash != (if i == 0 then previous else rows[i - 1].recordHash)
    || (row.body.Some? && h(HashedText(row.kind, row.body.value, row.createdAt, row.prevHash)) != row.recordHash)
  }

  ghost predicate FirstBreak(h: Hash, rows: seq<StoredRow>, previous: string, i: nat) {
    i < |rows| && BreaksAt(h, rows, previous, i) && forall j: nat :: j < i ==> !BreaksAt(h, rows, previous, j)
  }

  lemma {:induction false} InspectFromExactly(h: Hash, rows: seq<StoredRow>, previous: string, payloads: bool) returns (i: nat)
    ensures var r := InspectFrom(h, rows, previous, payloads);
            if r.Success? then
              && (forall j: nat :: j < |rows| ==> !BreaksAt(h, rows, previous, j))
              && (r.value.0 <==> payloads && forall k :: 0 <= k < |rows| ==> rows[k].body.Some?)
              && r.value.1 == if |rows| == 0 then previous else rows[|rows| - 1].recordHash
            else FirstBreak(h, rows, previous, i) && r.error == rows[i].seqNo
  {
    i := 0;
    if |rows| > 0 {
      var row, tail := rows[0], rows[1..];
      if row.body.Some? {
        PreimageText(row.kind, row.body.value, row.createdAt, row.prevHash);
      }
      if !BreaksAt(h, rows, previous, 0) {
        var k := InspectFromExactly(h, tail, row.recordHash, payloads && row.body.Some?);
        i := k + 1;
        assert forall j: nat :: 0 < j < |rows| ==> rows[j] == tail[j - 1];
        assert forall j: nat :: 0 < j < |rows| ==> (BreaksAt(h, rows, previous, j) <==> BreaksAt(h, tail, row.recordHash, j - 1));
        assert forall j: nat :: j < |tail| ==> (BreaksAt(h, tail, row.recordHash, j) <==> BreaksAt(h, rows, previous, j + 1));
      }
    }
  }

  /** The endpoint reports the first row that breaks the chain. When none does it reports the number of
      rows, the last record hash, and whether every body was there to be checked. */
  lemma InspectExactly(h: Hash, rows: seq<StoredRow>, prior: string) returns (i: nat)
    requires IsGenesis(prior)
    ensures match Inspect(h, rows)
            case Broken(at) => FirstBreak(h, rows, prior, i) && at == rows[i].seqNo
            case Intact(payloads, entries, head) =>
              && (forall j: nat :: j < |rows| ==> !BreaksAt(h, rows, prior, j))
              && (payloads <==> forall k :: 0 <= k < |rows| ==> rows[k].body.Some?)
              && entries == |rows| && head == if |rows| == 0 then prior else rows[|rows| - 1].recordHash
  {
    GenesisIsZeros(prior);
    i := InspectFromExactly(h, rows, GENESIS, true);
  }
}

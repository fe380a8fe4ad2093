/** The document loop of the seed script: each record is normalized inside
    its own `try`; a record that throws is reported and skipped, the rows it
    wrote before throwing stay, and `processedCount` counts only the records
    whose whole block ran. The store keys documents by id, so a record whose
    id is already stored throws at its first write. */
module Ingestion {
  import opened Schema
  import opened Payload
  import opened Normalizer

  /** The store's rows in the order written, and `processedCount`. */
  datatype Batch = Batch(rows: seq<Row>, processedCount: nat)

  const Empty := Batch([], 0)

  /** A document row with this id is stored. */
  predicate HasDocument(rows: seq<Row>, id: string) {
    exists i :: 0 <= i < |rows| && rows[i].DocumentRow? && rows[i].document.id == id
  }

  /** One iteration of the loop. */
  function Step(b: Batch, rec: RawRecord, toInstant: Clock): (r: Batch)
    ensures |b.rows| <= |r.rows| && r.rows[..|b.rows|] == b.rows
    ensures r.processedCount == b.processedCount + (if r.processedCount > b.processedCount then 1 else 0)
    ensures r.processedCount > b.processedCount <==> !HasDocument(b.rows, rec.id) && WellFormed(rec, toInstant)
    ensures HasDocument(b.rows, rec.id) ==> r == b
    ensures !HasDocument(b.rows, rec.id) ==> r.rows == b.rows + Normalize(rec, toInstant).writes
  {
    NormalizeCompletes(rec, toInstant);
    if HasDocument(b.rows, rec.id) then b
    else
      var n := Normalize(rec, toInstant);
      assert (b.rows + n.writes)[..|b.rows|] == b.rows;
      Batch(b.rows + n.writes, b.processedCount + (if n.completes then 1 else 0))
  }

  /** The loop over the records, from batch `b`. */
  function Run(b: Batch, records: seq<RawRecord>, toInstant: Clock): (r: Batch)
    ensures b.processedCount <= r.processedCount <= b.processedCount + |records|
    ensures |b.rows| <= |r.rows| && r.rows[..|b.rows|] == b.rows
    decreases |records|
  {
    if |records| == 0 then b
    else
      var next := Step(b, records[0], toInstant);
      var r := Run(next, records[1..], toInstant);
      assert r.rows[..|b.rows|] == r.rows[..|next.rows|][..|b.rows|];
      r
  }

  /** The whole loop, from an empty store. */
  function Seed(records: seq<RawRecord>, toInstant: Clock): (r: Batch)
    ensures r.processedCount <= |records|
  {
    Run(Empty, records, toInstant)
  }

  /** The loop over `xs + ys` is the loop over `ys` after the loop over `xs`. */
  lemma {:induction false} RunAppend(b: Batch, xs: seq<RawRecord>, ys: seq<RawRecord>, toInstant: Clock)
    ensures Run(b, xs + ys, toInstant) == Run(Run(b, xs, toInstant), ys, toInstant)
    decreases |xs|
  {
    if |xs| == 0 {
      assert xs + ys == ys;
    } else {
      assert (xs + ys)[0] == xs[0];
      assert (xs + ys)[1..] == xs[1..] + ys;
      RunAppend(Step(b, xs[0], toInstant), xs[1..], ys, toInstant);
    }
  }

  /** A record whose document row is rejected -- a size that is not a
      numeral or does not fit in 64 bits, an invalid date, or an id already
      stored -- leaves no trace: the loop is as if it were not there. */
  lemma SkipIsOmit(xs: seq<RawRecord>, bad: RawRecord, ys: seq<RawRecord>, toInstant: Clock)
    requires !DocumentOk(bad, toInstant) || HasDocument(Seed(xs, toInstant).rows, bad.id)
    ensures Seed(xs + [bad] + ys, toInstant) == Seed(xs + ys, toInstant)
  {
    var mid := Seed(xs, toInstant);
    RunAppend(Empty, xs + [bad], ys, toInstant);
    RunAppend(Empty, xs, [bad], toInstant);
    RunAppend(Empty, xs, ys, toInstant);
    assert Run(mid, [bad], toInstant) == Step(mid, bad, toInstant);
    if !HasDocument(mid.rows, bad.id) {
      assert Normalize(bad, toInstant) == Normalized([], false);
      assert mid.rows + [] == mid.rows;
    }
  }

  /** A record that throws after its document row keeps the rows written so
      far, but is not counted. */
  lemma FailedRecordKeepsRows(b: Batch, rec: RawRecord, toInstant: Clock)
    requires !HasDocument(b.rows, rec.id)
    requires DocumentOk(rec, toInstant) && !WellFormed(rec, toInstant)
    ensures Step(b, rec, toInstant).processedCount == b.processedCount
    ensures Step(b, rec, toInstant).rows == b.rows + Normalize(rec, toInstant).writes
    ensures HasDocument(Step(b, rec, toInstant).rows, rec.id)
  {
    var n := Normalize(rec, toInstant);
    var rows := b.rows + n.writes;
    assert rows[|b.rows|] == n.writes[0];
  }

  // ---------------------------------------------------------------------
  // The store's integrity
  // ---------------------------------------------------------------------

  /** No two stored documents share an id. */
  predicate DocumentsDistinct(rows: seq<Row>) {
    forall i, j :: 0 <= i < j < |rows| && rows[i].DocumentRow? && rows[j].DocumentRow? ==>
      rows[i].document.id != rows[j].document.id
  }

  /** The document of row `j` is stored at or before position `j`. */
  predicate DocumentBefore(rows: seq<Row>, j: int)
    requires 0 <= j < |rows|
  {
    exists i :: 0 <= i <= j && rows[i].DocumentRow? && rows[i].document.id == rows[j].DocumentId()
  }

  /** Every row's document was stored no later than the row itself. */
  predicate DocumentsFirst(rows: seq<Row>) {
    forall j :: 0 <= j < |rows| ==> DocumentBefore(rows, j)
  }

  predicate StoreOk(rows: seq<Row>) {
    DocumentsDistinct(rows) && DocumentsFirst(rows)
  }

  /** The shape of the rows one record writes: its document row first, and
      after it only rows belonging to that document. */
  predicate RecordRows(ws: seq<Row>, id: string) {
    && BelongTo(ws, id)
    && (|ws| > 0 ==> ws[0].DocumentRow?)
    && (forall j :: 0 < j < |ws| ==> !ws[j].DocumentRow?)
  }

  lemma NormalizeRecordRows(rec: RawRecord, toInstant: Clock)
    ensures RecordRows(Normalize(rec, toInstant).writes, rec.id)
  {
    NormalizeShape(rec, toInstant);
  }

  /** Appending a new document's rows keeps the store sound. */
  lemma AppendKeepsStore(rows: seq<Row>, ws: seq<Row>, id: string)
    requires StoreOk(rows) && !HasDocument(rows, id) && RecordRows(ws, id)
    ensures StoreOk(rows + ws)
  {
    var all := rows + ws;
    var k := |rows|;
    assert forall j :: k <= j < |all| ==> all[j] == ws[j - k];
    assert forall j :: 0 <= j < k ==> all[j] == rows[j];
    forall i, j | 0 <= i < j < |all| && all[i].DocumentRow? && all[j].DocumentRow?
      ensures all[i].document.id != all[j].document.id
    {
      if i < k <= j {
        assert j == k;
        assert all[j].document.id == id;
      }
    }
    forall j | 0 <= j < |all|
      ensures DocumentBefore(all, j)
    {
      if j < k {
        assert DocumentBefore(rows, j);
        var i :| 0 <= i <= j && rows[i].DocumentRow? && rows[i].document.id == rows[j].DocumentId();
        assert all[i] == rows[i] && all[j] == rows[j];
      } else {
        assert all[k] == ws[0];
        assert all[j].DocumentId() == id;
      }
    }
  }

  /** Appending a document's rows stores no other document. */
  lemma AppendOtherDocuments(rows: seq<Row>, ws: seq<Row>, id: string, other: string)
    requires RecordRows(ws, id) && other != id
    ensures HasDocument(rows + ws, other) <==> HasDocument(rows, other)
  {
    var all := rows + ws;
    if HasDocument(rows, other) {
      var i :| 0 <= i < |rows| && rows[i].DocumentRow? && rows[i].document.id == other;
      assert all[i] == rows[i];
    }
  }

  /** Every iteration keeps the store sound. */
  lemma StepKeepsStore(b: Batch, rec: RawRecord, toInstant: Clock)
    requires StoreOk(b.rows)
    ensures StoreOk(Step(b, rec, toInstant).rows)
  {
    if !HasDocument(b.rows, rec.id) {
      NormalizeRecordRows(rec, toInstant);
      AppendKeepsStore(b.rows, Normalize(rec, toInstant).writes, rec.id);
    }
  }

  lemma {:induction false} RunKeepsStore(b: Batch, records: seq<RawRecord>, toInstant: Clock)
    requires StoreOk(b.rows)
    ensures StoreOk(Run(b, records, toInstant).rows)
    decreases |records|
  {
    if |records| > 0 {
      StepKeepsStore(b, records[0], toInstant);
      RunKeepsStore(Step(b, records[0], toInstant), records[1..], toInstant);
    }
  }

  /** Seeding never stores two documents with one id, and every invoice,
      vendor, customer, payment and line item follows its document. */
  lemma SeedStoreOk(records: seq<RawRecord>, toInstant: Clock)
    ensures StoreOk(Seed(records, toInstant).rows)
  {
    RunKeepsStore(Empty, records, toInstant);
  }

  // ---------------------------------------------------------------------
  // processedCount
  // ---------------------------------------------------------------------

  /** The number of well-formed records. */
  function CountWellFormed(records: seq<RawRecord>, toInstant: Clock): nat {
    if |records| == 0 then 0
    else (if WellFormed(records[0], toInstant) then 1 else 0) + CountWellFormed(records[1..], toInstant)
  }

  predicate IdsDistinct(records: seq<RawRecord>) {
    forall i, j :: 0 <= i < j < |records| ==> records[i].id != records[j].id
  }

  /** A record's rows only add its own id to the stored documents. */
  lemma StepDocuments(b: Batch, rec: RawRecord, toInstant: Clock, id: string)
    requires id != rec.id
    ensures HasDocument(Step(b, rec, toInstant).rows, id) <==> HasDocument(b.rows, id)
  {
    if !HasDocument(b.rows, rec.id) {
      NormalizeRecordRows(rec, toInstant);
      AppendOtherDocuments(b.rows, Normalize(rec, toInstant).writes, rec.id, id);
    }
  }

  /** With distinct ids none of which is stored yet, the loop counts
      exactly the well-formed records. */
  lemma {:induction false} RunCountsWellFormed(b: Batch, records: seq<RawRecord>, toInstant: Clock)
    requires IdsDistinct(records)
    requires forall i :: 0 <= i < |records| ==> !HasDocument(b.rows, records[i].id)
    ensures Run(b, records, toInstant).processedCount == b.processedCount + CountWellFormed(records, toInstant)
    decreases |records|
  {
    if |records| > 0 {
      var next := Step(b, records[0], toInstant);
      var rest := records[1..];
      forall i | 0 <= i < |rest|
        ensures !HasDocument(next.rows, rest[i].id)
      {
        assert rest[i] == records[i + 1];
        StepDocuments(b, records[0], toInstant, rest[i].id);
      }
      assert IdsDistinct(rest) by {
        assert forall i :: 0 <= i < |rest| ==> rest[i] == records[i + 1];
      }
      RunCountsWellFormed(next, rest, toInstant);
    }
  }

  /** Seeding records with distinct ids counts exactly the well-formed
      ones; in particular all of them when all are well formed. */
  lemma SeedCountsWellFormed(records: seq<RawRecord>, toInstant: Clock)
    requires IdsDistinct(records)
    ensures Seed(records, toInstant).processedCount == CountWellFormed(records, toInstant)
    ensures (forall i :: 0 <= i < |records| ==> WellFormed(records[i], toInstant)) ==>
      Seed(records, toInstant).processedCount == |records|
  {
    assert Seed(records, toInstant) == Run(Empty, records, toInstant);
    assert forall i :: 0 <= i < |records| ==> !HasDocument(Empty.rows, records[i].id);
    RunCountsWellFormed(Empty, records, toInstant);
    AllWellFormed(records, toInstant);
  }

  lemma {:induction false} AllWellFormed(records: seq<RawRecord>, toInstant: Clock)
    ensures (forall i :: 0 <= i < |records| ==> WellFormed(records[i], toInstant)) ==>
      CountWellFormed(records, toInstant) == |records|
    decreases |records|
  {
    if |records| > 0 {
      AllWellFormed(records[1..], toInstant);
      assert forall i :: 0 <= i < |records[1..]| ==> records[1..][i] == records[i + 1];
    }
  }
}

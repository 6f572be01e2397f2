/**
  The two tables of the storage service, `documents` and `analyses`
  (backend/db-service/models/Document.js, backend/db-service/models/Analysis.js and the
  `hasOne ... onDelete: 'CASCADE'` association of backend/db-service/models/index.js),
  held by one `Database` object that the controllers change in place.
*/
module Store {
  import opened Common
  import opened JsonValues
  import Errors

  /** The `status` ENUM of a document. */
  datatype DocStatus = Processing | Completed | Failed

  /** The value stored in the ENUM column. */
  function StatusName(s: DocStatus): string
  {
    match s
    case Processing => "processing"
    case Completed => "completed"
    case Failed => "error"
  }

  /** A row of `documents`; `uploadedAt` is the creation time stamp, in milliseconds. */
  datatype DocumentRecord = DocumentRecord(
    id: string,
    name: string,
    size: nat,
    mimeType: string,
    filePath: string,
    uploadedAt: int,
    status: DocStatus,
    extractedText: Option<string>)

  /**
    A row of `analyses` as the controller writes it: its id, the document it belongs
    to, its `createdAt` time stamp and the remaining columns by name.
  */
  datatype AnalysisRow = AnalysisRow(id: string, documentId: string, createdAt: int, columns: map<string, Json>)

  function UploadedAt(d: DocumentRecord): int { d.uploadedAt }

  function CreatedAt(a: AnalysisRow): int { a.createdAt }

  /** The test of `WHERE status = s`. */
  function HasStatus(s: DocStatus): DocumentRecord -> bool
  {
    (d: DocumentRecord) => d.status == s
  }

  /** The test that keeps every row except those of document `id`. */
  function NotOfDocument(id: string): AnalysisRow -> bool
  {
    (a: AnalysisRow) => a.documentId != id
  }

  function DocumentIsNot(id: string): DocumentRecord -> bool
  {
    (d: DocumentRecord) => d.id != id
  }

  function AnalysisIsNot(id: string): AnalysisRow -> bool
  {
    (a: AnalysisRow) => a.id != id
  }

  /**
    The position of the last row that satisfies `p`, searching from the end: the row a
    lookup finds when its key is unique, and the newest row when it is not.
  */
  function FindLast<T>(rows: seq<T>, p: T -> bool): (r: Option<nat>)
    ensures r.Some? ==> r.value < |rows| && p(rows[r.value])
    ensures r.None? ==> forall k :: 0 <= k < |rows| ==> !p(rows[k])
  {
    if rows == [] then None
    else if p(rows[|rows| - 1]) then Some(|rows| - 1)
    else FindLast(rows[..|rows| - 1], p)
  }

  /** A row appended after the search's match, or not matching, does not change it. */
  lemma {:induction false} FindLastAppend<T>(rows: seq<T>, x: T, p: T -> bool)
    requires !p(x)
    ensures FindLast(rows + [x], p) == FindLast(rows, p)
  {
    assert (rows + [x])[..|rows|] == rows;
  }

  /** Tables that agree on `p` row by row give the same position. */
  lemma {:induction false} FindLastAgrees<T>(a: seq<T>, b: seq<T>, p: T -> bool)
    requires |a| == |b| && forall k :: 0 <= k < |a| ==> p(a[k]) == p(b[k])
    ensures FindLast(a, p) == FindLast(b, p)
    decreases |a|
  {
    if a != [] {
      FindLastAgrees(a[..|a| - 1], b[..|b| - 1], p);
    }
  }

  function DocumentHasId(id: string): DocumentRecord -> bool
  {
    (d: DocumentRecord) => d.id == id
  }

  function AnalysisHasId(id: string): AnalysisRow -> bool
  {
    (a: AnalysisRow) => a.id == id
  }

  function AnalysisOfDocument(documentId: string): AnalysisRow -> bool
  {
    (a: AnalysisRow) => a.documentId == documentId
  }

  /** `findByPk(id)` on `documents`: the position of the row with that key. */
  function FindDocument(docs: seq<DocumentRecord>, id: string): (r: Option<nat>)
    ensures r.Some? ==> r.value < |docs| && docs[r.value].id == id
    ensures r.None? ==> forall k :: 0 <= k < |docs| ==> docs[k].id != id
  {
    FindLast(docs, DocumentHasId(id))
  }

  /** `findByPk(id)` on `analyses`. */
  function FindAnalysis(rows: seq<AnalysisRow>, id: string): (r: Option<nat>)
    ensures r.Some? ==> r.value < |rows| && rows[r.value].id == id
    ensures r.None? ==> forall k :: 0 <= k < |rows| ==> rows[k].id != id
  {
    FindLast(rows, AnalysisHasId(id))
  }

  /** `Analysis.findOne({ where: { documentId } })`. */
  function FindAnalysisOf(rows: seq<AnalysisRow>, documentId: string): (r: Option<nat>)
    ensures r.Some? ==> r.value < |rows| && rows[r.value].documentId == documentId
    ensures r.None? ==> forall k :: 0 <= k < |rows| ==> rows[k].documentId != documentId
  {
    FindLast(rows, AnalysisOfDocument(documentId))
  }

  /** The `analysisResult` association of a document: its analysis, if any. */
  function LinkedAnalysis(rows: seq<AnalysisRow>, documentId: string): Option<AnalysisRow>
  {
    match FindAnalysisOf(rows, documentId)
    case None => None
    case Some(k) => Some(rows[k])
  }

  /** The error the database reports when a new row repeats a primary key. */
  function DuplicateKey(): (e: Errors.ThrownError)
    ensures e.name == Errors.UniqueConstraintErrorName
    ensures e.errors == [Errors.ErrorItem(Some("id"), "id must be unique")]
  {
    Errors.ThrownError(Errors.UniqueConstraintErrorName, "Validation error", None, false,
      [Errors.ErrorItem(Some("id"), "id must be unique")],
      "SequelizeUniqueConstraintError: Validation error")
  }

  const DatabaseErrorName := "SequelizeDatabaseError"

  /**
    The error a MySQL server in strict SQL mode reports, through Sequelize, when a value
    is longer than its `VARCHAR` column: not one of the three constraint errors and
    without a status code, so the global handler answers it with 500.
  */
  function DataTooLong(column: string): (e: Errors.ThrownError)
    ensures e.name == DatabaseErrorName && !Errors.IsSequelizeConstraintKind(e.name)
    ensures Errors.StatusOf(e) == 500 && e.errors == []
  {
    var message := "Data too long for column '" + column + "' at row 1";
    Errors.ThrownError(DatabaseErrorName, message, None, false, [], DatabaseErrorName + ": " + message)
  }

  function DocumentId(d: DocumentRecord): string { d.id }

  function AnalysisId(a: AnalysisRow): string { a.id }

  function AnalysisDocument(a: AnalysisRow): string { a.documentId }

  predicate DocumentIdsDistinct(docs: seq<DocumentRecord>)
  {
    DistinctBy(docs, DocumentId)
  }

  predicate AnalysisIdsDistinct(rows: seq<AnalysisRow>)
  {
    DistinctBy(rows, AnalysisId)
  }

  /** `Document.hasOne(Analysis)`: a document has at most one analysis. */
  predicate OneAnalysisPerDocument(rows: seq<AnalysisRow>)
  {
    DistinctBy(rows, AnalysisDocument)
  }

  /** The foreign key `documentId`: every analysis belongs to a stored document. */
  predicate AnalysesReferToDocuments(docs: seq<DocumentRecord>, rows: seq<AnalysisRow>)
  {
    forall k :: 0 <= k < |rows| ==> FindDocument(docs, rows[k].documentId).Some?
  }

  /** A document becomes `completed` only together with its extracted text. */
  predicate CompletedHaveText(docs: seq<DocumentRecord>)
  {
    forall k :: 0 <= k < |docs| && docs[k].status == Completed ==> docs[k].extractedText.Some?
  }

  predicate TablesValid(docs: seq<DocumentRecord>, rows: seq<AnalysisRow>)
  {
    && DocumentIdsDistinct(docs)
    && AnalysisIdsDistinct(rows)
    && OneAnalysisPerDocument(rows)
    && AnalysesReferToDocuments(docs, rows)
    && CompletedHaveText(docs)
  }

  class Database {
    var documents: seq<DocumentRecord>
    var analyses: seq<AnalysisRow>

    predicate Valid()
      reads this
    {
      TablesValid(documents, analyses)
    }

    /** Freshly migrated, empty tables. */
    constructor ()
      ensures Valid() && documents == [] && analyses == []
    {
      documents := [];
      analyses := [];
    }
  }
}

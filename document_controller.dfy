/**
  The document lifecycle of the storage service
  (backend/db-service/controllers/documentController.js): upload, the application of a
  text-extraction result (`processing` to `completed` or `error`), listing, lookup, text
  retrieval, deletion with its cascade, and the status counts.
*/
module DocumentController {
  import opened Common
  import opened Store
  import opened Paging
  import Errors

  /** What multer leaves in `req.file`. */
  datatype UploadedFile = UploadedFile(originalName: string, size: nat, mimeType: string, path: string)

  const NoFileMessage := "Aucun fichier fourni"
  const DocumentNotFoundMessage := "Document non trouvé"
  const TextNotReadyMessage := "Le texte n'est pas encore disponible"

  function DocumentNotFound(): Errors.ThrownError
  {
    Errors.NewAppError(DocumentNotFoundMessage, 404)
  }

  // ----- Lookups after a change of the documents table -----

  lemma FindDocumentAppend(docs: seq<DocumentRecord>, d: DocumentRecord, id: string)
    requires id != d.id
    ensures FindDocument(docs + [d], id) == FindDocument(docs, id)
  {
    FindLastAppend(docs, d, DocumentHasId(id));
  }

  /** Only the ids matter to `findByPk`. */
  lemma FindDocumentSameIds(a: seq<DocumentRecord>, b: seq<DocumentRecord>, id: string)
    requires |a| == |b| && forall k :: 0 <= k < |a| ==> a[k].id == b[k].id
    ensures FindDocument(a, id) == FindDocument(b, id)
  {
    FindLastAgrees(a, b, DocumentHasId(id));
  }

  /** A document whose key is not deleted is still found after the deletion. */
  lemma FindDocumentAfterDelete(docs: seq<DocumentRecord>, gone: string, id: string)
    requires id != gone && FindDocument(docs, id).Some?
    ensures FindDocument(Filter(docs, DocumentIsNot(gone)), id).Some?
  {
    var k := FindDocument(docs, id).value;
    assert DocumentIsNot(gone)(docs[k]);
    var rest := Filter(docs, DocumentIsNot(gone));
    assert docs[k] in rest;
    var j :| 0 <= j < |rest| && rest[j] == docs[k];
  }

  lemma FilterKeepsCompletedText(docs: seq<DocumentRecord>, keep: DocumentRecord -> bool)
    requires CompletedHaveText(docs)
    ensures CompletedHaveText(Filter(docs, keep))
  {
    var r := Filter(docs, keep);
    forall k | 0 <= k < |r| && r[k].status == Completed ensures r[k].extractedText.Some? {
      assert r[k] in docs;
    }
  }

  // ----- uploadDocument -----

  /** The `VARCHAR` widths of the `documents` table's text columns. */
  const IdWidth := 255
  const NameWidth := 255
  const TypeWidth := 100
  const FilePathWidth := 500

  /**
    The first column, in the table's order, whose value would not fit in the row that
    `Document.create` inserts for the upload.
  */
  function OverlongColumn(id: string, f: UploadedFile): (c: Option<string>)
    ensures c.None? <==>
      |id| <= IdWidth && |f.originalName| <= NameWidth && |f.mimeType| <= TypeWidth
      && |f.path| <= FilePathWidth
    ensures c == Some("id") <==> |id| > IdWidth
    ensures c == Some("name") <==> |id| <= IdWidth && |f.originalName| > NameWidth
  {
    if |id| > IdWidth then Some("id")
    else if |f.originalName| > NameWidth then Some("name")
    else if |f.mimeType| > TypeWidth then Some("type")
    else if |f.path| > FilePathWidth then Some("filePath")
    else None
  }

  /**
    `uploadDocument`: without a file, 400 and nothing stored. Otherwise the record is
    created with status `processing` (and the background extraction starts). The
    insertion fails when a value is longer than its column (checked as the row is built)
    or when the drawn id is already a key; then the uploaded file is removed and the
    error is thrown on.
  */
  method UploadDocument(db: Database, file: Option<UploadedFile>, freshId: string, now: int)
    returns (r: Result<DocumentRecord, Errors.ThrownError>, unlink: Option<string>)
    requires db.Valid()
    modifies db
    ensures db.Valid() && db.analyses == old(db.analyses)
    ensures file.None? ==> r == Err(Errors.NewAppError(NoFileMessage, 400)) && unlink == None
    ensures file.Some? && OverlongColumn(freshId, file.value).Some? ==>
      r == Err(DataTooLong(OverlongColumn(freshId, file.value).value)) && unlink == Some(file.value.path)
    ensures file.Some? && OverlongColumn(freshId, file.value).None? && FindDocument(old(db.documents), freshId).Some?
      ==> r == Err(DuplicateKey()) && unlink == Some(file.value.path)
    ensures r.Err? ==> db.documents == old(db.documents)
    ensures r.Ok? <==>
      file.Some? && OverlongColumn(freshId, file.value).None? && FindDocument(old(db.documents), freshId).None?
    ensures r.Ok? ==>
      && r.value == DocumentRecord(freshId, file.value.originalName, file.value.size,
           file.value.mimeType, file.value.path, now, Processing, None)
      && db.documents == old(db.documents) + [r.value]
      && unlink == None
  {
    if file.None? {
      return Err(Errors.NewAppError(NoFileMessage, 400)), None;
    }
    var f := file.value;
    var overlong := OverlongColumn(freshId, f);
    if overlong.Some? {
      return Err(DataTooLong(overlong.value)), Some(f.path);
    }
    if FindDocument(db.documents, freshId).Some? {
      return Err(DuplicateKey()), Some(f.path);
    }
    var d := DocumentRecord(freshId, f.originalName, f.size, f.mimeType, f.path, now, Processing, None);
    var docs := db.documents;
    forall k | 0 <= k < |db.analyses| ensures FindDocument(docs + [d], db.analyses[k].documentId).Some? {
      FindDocumentAppend(docs, d, db.analyses[k].documentId);
    }
    DistinctByAppend(docs, d, DocumentId);
    db.documents := docs + [d];
    r, unlink := Ok(d), None;
  }

  // ----- extractTextFromPDF -----

  /** A document after its extraction: the text and `completed`, or only `error`. */
  function AfterExtraction(d: DocumentRecord, outcome: Result<string, string>): (e: DocumentRecord)
    ensures e.id == d.id && e.name == d.name && e.filePath == d.filePath && e.uploadedAt == d.uploadedAt
    ensures outcome.Ok? ==> e.status == Completed && e.extractedText == Some(outcome.value)
    ensures outcome.Err? ==> e.status == Failed && e.extractedText == d.extractedText
  {
    match outcome
    case Ok(text) => d.(extractedText := Some(text), status := Completed)
    case Err(_) => d.(status := Failed)
  }

  /**
    The result half of `extractTextFromPDF(documentId)`; reading the file and parsing the
    PDF give `outcome`. A document deleted in the meantime is left alone.
  */
  method ApplyExtractionResult(db: Database, id: string, outcome: Result<string, string>)
    requires db.Valid()
    modifies db
    ensures db.Valid() && db.analyses == old(db.analyses)
    ensures FindDocument(old(db.documents), id).None? ==> db.documents == old(db.documents)
    ensures FindDocument(old(db.documents), id).Some? ==>
      var k := FindDocument(old(db.documents), id).value;
      db.documents == old(db.documents)[k := AfterExtraction(old(db.documents)[k], outcome)]
  {
    var found := FindDocument(db.documents, id);
    if found.None? {
      return;
    }
    var k := found.value;
    var docs := db.documents;
    var updated := docs[k := AfterExtraction(docs[k], outcome)];
    forall a | 0 <= a < |db.analyses| ensures FindDocument(updated, db.analyses[a].documentId).Some? {
      FindDocumentSameIds(docs, updated, db.analyses[a].documentId);
    }
    assert DocumentIdsDistinct(updated) by {
      forall i, j | 0 <= i < j < |updated| ensures updated[i].id != updated[j].id {
        assert updated[i].id == docs[i].id && updated[j].id == docs[j].id;
      }
    }
    db.documents := updated;
  }

  // ----- getAllDocuments -----

  /** A listed document with its `analysisResult` association. */
  datatype DocumentView = DocumentView(doc: DocumentRecord, analysis: Option<AnalysisRow>)

  datatype DocumentPage = DocumentPage(documents: seq<DocumentView>, pagination: Pagination)

  /** `where: status ? { status } : {}`. */
  function Matching(docs: seq<DocumentRecord>, status: Option<DocStatus>): (r: seq<DocumentRecord>)
    ensures forall i :: 0 <= i < |r| ==> r[i] in docs && (status.Some? ==> r[i].status == status.value)
    ensures forall i :: 0 <= i < |docs| && (status.None? || docs[i].status == status.value) ==> docs[i] in r
  {
    if status.None? then docs else Filter(docs, HasStatus(status.value))
  }

  function Views(docs: seq<DocumentRecord>, analyses: seq<AnalysisRow>): (r: seq<DocumentView>)
    ensures |r| == |docs|
    ensures forall i :: 0 <= i < |r| ==> r[i] == DocumentView(docs[i], LinkedAnalysis(analyses, docs[i].id))
  {
    seq(|docs|, i requires 0 <= i < |docs| => DocumentView(docs[i], LinkedAnalysis(analyses, docs[i].id)))
  }

  /**
    The documents that page `page` of the listing is to show: the matching documents,
    newest upload first, from position `(page - 1) * limit` on, at most `limit` of them.
  */
  function ListingWindow(docs: seq<DocumentRecord>, status: Option<DocStatus>, page: nat, limit: nat)
    : seq<DocumentRecord>
    requires page >= 1
  {
    PageOf(SortDesc(Matching(docs, status), UploadedAt), page, limit)
  }

  /**
    `getAllDocuments` on a query the pagination schema has accepted: exactly the
    documents of its window of the matching documents, at most `limit`, all of the
    requested status, newest upload first, each with its analysis; the pagination
    block counts every matching document.
  */
  function ListDocuments(
    docs: seq<DocumentRecord>, analyses: seq<AnalysisRow>, page: nat, limit: nat, status: Option<DocStatus>)
    : (r: DocumentPage)
    requires page >= 1 && limit >= 1
    ensures |r.documents| <= limit
    ensures |r.documents| == |ListingWindow(docs, status, page, limit)|
    ensures forall i :: 0 <= i < |r.documents| ==> r.documents[i].doc == ListingWindow(docs, status, page, limit)[i]
    ensures forall i :: 0 <= i < |r.documents| ==>
      && r.documents[i].doc in docs
      && (status.Some? ==> r.documents[i].doc.status == status.value)
      && r.documents[i].analysis == LinkedAnalysis(analyses, r.documents[i].doc.id)
    ensures forall i, j :: 0 <= i < j < |r.documents| ==>
      r.documents[i].doc.uploadedAt >= r.documents[j].doc.uploadedAt
    ensures r.pagination.total == |Matching(docs, status)|
    ensures r.pagination.totalPages == CeilDiv(|Matching(docs, status)|, limit)
    ensures r.pagination.hasNext <==> page * limit < |Matching(docs, status)|
    ensures r.pagination.hasPrev <==> page > 1
    ensures r.pagination == MakePagination(page, limit, |Matching(docs, status)|)
  {
    var matching := Matching(docs, status);
    var sorted := SortDesc(matching, UploadedAt);
    var window := Window(sorted, (page - 1) * limit, limit);
    SortedWindow(matching, UploadedAt, (page - 1) * limit, limit);
    HasNextIffRowsRemain(page, limit, |matching|);
    DocumentPage(Views(window, analyses), MakePagination(page, limit, |sorted|))
  }

  /** The documents of a listing response, in the order shown. */
  function ShownDocuments(views: seq<DocumentView>): (r: seq<DocumentRecord>)
    ensures |r| == |views|
    ensures forall i :: 0 <= i < |r| ==> r[i] == views[i].doc
  {
    seq(|views|, i requires 0 <= i < |views| => views[i].doc)
  }

  /** The documents shown by listing pages 1 to `k`, one page after the other. */
  function ListedDocuments(
    docs: seq<DocumentRecord>, analyses: seq<AnalysisRow>, status: Option<DocStatus>, limit: nat, k: nat)
    : seq<DocumentRecord>
    requires limit >= 1
  {
    if k == 0 then []
    else
      var shown := ShownDocuments(ListDocuments(docs, analyses, k, limit, status).documents);
      ListedDocuments(docs, analyses, status, limit, k - 1) + shown
  }

  lemma {:induction false} ListedDocumentsArePages(
    docs: seq<DocumentRecord>, analyses: seq<AnalysisRow>, status: Option<DocStatus>, limit: nat, k: nat)
    requires limit >= 1
    ensures ListedDocuments(docs, analyses, status, limit, k)
      == Pages(SortDesc(Matching(docs, status), UploadedAt), limit, k)
  {
    if k > 0 {
      ListedDocumentsArePages(docs, analyses, status, limit, k - 1);
      ListedDocumentsStep(docs, analyses, status, limit, k);
    }
  }

  /** Page `k` adds exactly its window to the documents shown before it. */
  lemma ListedDocumentsStep(
    docs: seq<DocumentRecord>, analyses: seq<AnalysisRow>, status: Option<DocStatus>, limit: nat, k: nat)
    requires k >= 1 && limit >= 1
    ensures ListedDocuments(docs, analyses, status, limit, k)
      == ListedDocuments(docs, analyses, status, limit, k - 1) + PageOf(SortDesc(Matching(docs, status), UploadedAt), k, limit)
  {
    var shown := ShownDocuments(ListDocuments(docs, analyses, k, limit, status).documents);
    assert shown == ListingWindow(docs, status, k, limit);
  }

  /**
    Listing pages 1 to `totalPages` one after the other shows every matching document
    exactly once, newest upload first.
  */
  lemma ListingPagesCoverMatching(
    docs: seq<DocumentRecord>, analyses: seq<AnalysisRow>, status: Option<DocStatus>, limit: nat)
    requires limit >= 1
    ensures var listed := ListedDocuments(docs, analyses, status, limit, CeilDiv(|Matching(docs, status)|, limit));
      && multiset(listed) == multiset(Matching(docs, status))
      && (forall i, j :: 0 <= i < j < |listed| ==> listed[i].uploadedAt >= listed[j].uploadedAt)
  {
    var sorted := SortDesc(Matching(docs, status), UploadedAt);
    ListedDocumentsArePages(docs, analyses, status, limit, CeilDiv(|Matching(docs, status)|, limit));
    PagesPartition(sorted, limit);
  }

  // ----- getDocument and getDocumentText -----

  /** `getDocument`: the document with its analysis, or 404. */
  function GetDocument(docs: seq<DocumentRecord>, analyses: seq<AnalysisRow>, id: string)
    : (r: Result<DocumentView, Errors.ThrownError>)
    ensures r.Err? <==> (forall k :: 0 <= k < |docs| ==> docs[k].id != id)
    ensures r.Err? ==> r.error == DocumentNotFound()
    ensures r.Ok? ==> r.value.doc in docs && r.value.doc.id == id && r.value.analysis == LinkedAnalysis(analyses, id)
  {
    match FindDocument(docs, id)
    case None => Err(DocumentNotFound())
    case Some(k) => Ok(DocumentView(docs[k], LinkedAnalysis(analyses, id)))
  }

  datatype DocumentText = DocumentText(id: string, name: string, extractedText: Option<string>)

  /** `getDocumentText`: 404 for an unknown id, 400 until the document is `completed`. */
  function GetDocumentText(docs: seq<DocumentRecord>, id: string): (r: Result<DocumentText, Errors.ThrownError>)
    ensures (forall k :: 0 <= k < |docs| ==> docs[k].id != id) ==> r == Err(DocumentNotFound())
    ensures FindDocument(docs, id).Some? && docs[FindDocument(docs, id).value].status != Completed ==>
      r == Err(Errors.NewAppError(TextNotReadyMessage, 400))
    ensures FindDocument(docs, id).Some? && docs[FindDocument(docs, id).value].status == Completed ==>
      var d := docs[FindDocument(docs, id).value];
      r == Ok(DocumentText(id, d.name, d.extractedText))
    ensures r.Ok? ==>
      exists k :: (0 <= k < |docs| && docs[k].id == id && docs[k].status == Completed &&
        r.value == DocumentText(id, docs[k].name, docs[k].extractedText))
  {
    match FindDocument(docs, id)
    case None => Err(DocumentNotFound())
    case Some(k) =>
      if docs[k].status != Completed then Err(Errors.NewAppError(TextNotReadyMessage, 400))
      else Ok(DocumentText(docs[k].id, docs[k].name, docs[k].extractedText))
  }

  /**
    The text route answers exactly for the documents that `getDocument` finds and that
    are `completed`, with that document's name and text; an unknown id is a 404 on both.
  */
  lemma TextAgreesWithDocument(docs: seq<DocumentRecord>, analyses: seq<AnalysisRow>, id: string)
    ensures GetDocumentText(docs, id).Ok? <==>
      GetDocument(docs, analyses, id).Ok? && GetDocument(docs, analyses, id).value.doc.status == Completed
    ensures GetDocumentText(docs, id).Ok? ==>
      var d := GetDocument(docs, analyses, id).value.doc;
      GetDocumentText(docs, id).value == DocumentText(d.id, d.name, d.extractedText)
    ensures GetDocument(docs, analyses, id).Err? <==> GetDocumentText(docs, id) == Err(DocumentNotFound())
  {
    if FindDocument(docs, id).Some? {
      assert docs[FindDocument(docs, id).value].id == id;
    }
  }

  /** In a consistent database the text of a `completed` document is always there. */
  lemma TextOfCompletedIsPresent(docs: seq<DocumentRecord>, id: string)
    requires CompletedHaveText(docs)
    requires GetDocumentText(docs, id).Ok?
    ensures GetDocumentText(docs, id).value.extractedText.Some?
  {
  }

  // ----- deleteDocument -----

  /**
    `deleteDocument`: 404 for an unknown id; otherwise the stored file is to be removed
    (`removeFile`; a failure to remove it is only logged, so nothing below depends on
    it), the record is destroyed and the database cascade deletes the analysis that
    belongs to it.
  */
  method DeleteDocument(db: Database, id: string)
    returns (r: Result<(), Errors.ThrownError>, removeFile: Option<string>)
    requires db.Valid()
    modifies db
    ensures db.Valid()
    ensures FindDocument(old(db.documents), id).None? ==>
      r == Err(DocumentNotFound()) && removeFile == None
      && db.documents == old(db.documents) && db.analyses == old(db.analyses)
    ensures FindDocument(old(db.documents), id).Some? ==>
      && r == Ok(())
      && removeFile == Some(old(db.documents)[FindDocument(old(db.documents), id).value].filePath)
      && db.documents == Filter(old(db.documents), DocumentIsNot(id))
      && db.analyses == Filter(old(db.analyses), NotOfDocument(id))
  {
    var found := FindDocument(db.documents, id);
    if found.None? {
      return Err(DocumentNotFound()), None;
    }
    removeFile := Some(db.documents[found.value].filePath);
    var docs, rows := db.documents, db.analyses;
    var keptDocs := Filter(docs, DocumentIsNot(id));
    var keptRows := Filter(rows, NotOfDocument(id));
    FilterKeepsDistinct(docs, DocumentId, DocumentIsNot(id));
    FilterKeepsDistinct(rows, AnalysisId, NotOfDocument(id));
    FilterKeepsDistinct(rows, AnalysisDocument, NotOfDocument(id));
    FilterKeepsCompletedText(docs, DocumentIsNot(id));
    forall k | 0 <= k < |keptRows| ensures FindDocument(keptDocs, keptRows[k].documentId).Some? {
      var row := keptRows[k];
      assert NotOfDocument(id)(row);
      var i :| 0 <= i < |rows| && rows[i] == row;
      FindDocumentAfterDelete(docs, id, row.documentId);
    }
    db.documents := keptDocs;
    db.analyses := keptRows;
    r := Ok(());
  }

  // ----- getStats -----

  /** One row of `GROUP BY status`. */
  datatype StatusCount = StatusCount(status: DocStatus, count: nat)

  datatype Stats = Stats(
    totalDocuments: nat,
    completedDocuments: nat,
    totalAnalyses: nat,
    documentsByStatus: seq<StatusCount>)

  function CountStatus(docs: seq<DocumentRecord>, s: DocStatus): nat
  {
    |Filter(docs, HasStatus(s))|
  }

  function SumCounts(groups: seq<StatusCount>): nat
  {
    if groups == [] then 0 else groups[0].count + SumCounts(groups[1..])
  }

  /** The three status counts add up to the number of documents. */
  lemma {:induction false} StatusCountsPartition(docs: seq<DocumentRecord>)
    ensures CountStatus(docs, Processing) + CountStatus(docs, Completed) + CountStatus(docs, Failed) == |docs|
    decreases |docs|
  {
    if docs != [] {
      StatusCountsPartition(docs[1..]);
    }
  }

  function Group(docs: seq<DocumentRecord>, s: DocStatus): seq<StatusCount>
  {
    var n := CountStatus(docs, s);
    if n == 0 then [] else [StatusCount(s, n)]
  }

  lemma SumCountsConcat(a: seq<StatusCount>, b: seq<StatusCount>)
    ensures SumCounts(a + b) == SumCounts(a) + SumCounts(b)
  {
    if a != [] {
      assert (a + b)[1..] == a[1..] + b;
      SumCountsConcat(a[1..], b);
    } else {
      assert a + b == b;
    }
  }

  /** One group per status, in the order processing, completed, failed. */
  function StatusGroups(docs: seq<DocumentRecord>): seq<StatusCount>
  {
    Group(docs, Processing) + Group(docs, Completed) + Group(docs, Failed)
  }

  lemma StatusGroupsAddUp(docs: seq<DocumentRecord>)
    ensures SumCounts(StatusGroups(docs)) == |docs|
  {
    var p, c, f := Group(docs, Processing), Group(docs, Completed), Group(docs, Failed);
    GroupSum(docs, Processing);
    GroupSum(docs, Completed);
    GroupSum(docs, Failed);
    SumCountsConcat(p, c);
    SumCountsConcat(p + c, f);
    StatusCountsPartition(docs);
  }

  lemma GroupSum(docs: seq<DocumentRecord>, s: DocStatus)
    ensures SumCounts(Group(docs, s)) == CountStatus(docs, s)
  {
    if CountStatus(docs, s) > 0 {
      assert SumCounts([StatusCount(s, CountStatus(docs, s))][1..]) == 0;
    }
  }

  lemma StatusGroupsAreExact(docs: seq<DocumentRecord>)
    ensures forall g :: g in StatusGroups(docs) ==> g.count > 0 && g.count == CountStatus(docs, g.status)
    ensures forall s: DocStatus :: CountStatus(docs, s) > 0 ==> exists g :: g in StatusGroups(docs) && g.status == s
  {
    var groups := StatusGroups(docs);
    forall s: DocStatus | CountStatus(docs, s) > 0
      ensures exists g :: g in groups && g.status == s
    {
      var g := StatusCount(s, CountStatus(docs, s));
      assert g in Group(docs, s);
      match s
      case Processing => assert g in groups;
      case Completed => assert g in groups;
      case Failed => assert g in groups;
    }
  }

  /**
    `getStats`: the number of documents, of `completed` ones, of analyses, and one
    group per status that occurs, with its count; the groups add up to the total.
  */
  function GetStats(docs: seq<DocumentRecord>, analyses: seq<AnalysisRow>): (r: Stats)
    ensures r.totalDocuments == |docs| && r.totalAnalyses == |analyses|
    ensures r.completedDocuments == CountStatus(docs, Completed)
    ensures SumCounts(r.documentsByStatus) == r.totalDocuments
    ensures forall g :: g in r.documentsByStatus ==> g.count > 0 && g.count == CountStatus(docs, g.status)
    ensures forall s: DocStatus :: CountStatus(docs, s) > 0 ==> exists g :: g in r.documentsByStatus && g.status == s
  {
    StatusGroupsAddUp(docs);
    StatusGroupsAreExact(docs);
    Stats(|docs|, CountStatus(docs, Completed), |analyses|, StatusGroups(docs))
  }
}

/**
  The analysis endpoints of the storage service
  (backend/db-service/controllers/analysisController.js): creating the analysis of a
  processed document through the language model, reading one, listing them and
  deleting one.
*/
module AnalysisController {
  import opened Common
  import opened JsonValues
  import opened Store
  import opened Paging
  import Errors
  import Llm
  import AnalysisModel

  const DocumentNotFoundMessage := "Document non trouvé"
  const NotProcessedMessage := "Le document n'est pas encore traité"
  const NoTextMessage := "Aucun texte disponible pour ce document"
  const AnalysisNotFoundMessage := "Analyse non trouvée"
  const ExistingMessage := "Analyse déjà existante"
  const GeneratedMessage := "Analyse générée avec succès"

  function AnalysisNotFound(): Errors.ThrownError
  {
    Errors.NewAppError(AnalysisNotFoundMessage, 404)
  }

  /** Reading `analysis.document.id` when the join found no document. */
  const MissingDocumentError: Errors.ThrownError := Errors.ThrownError(
    "TypeError", "Cannot read properties of null (reading 'id')", None, false, [],
    "TypeError: Cannot read properties of null (reading 'id')")

  // ----- createAnalysis -----

  /**
    The three checks `createAnalysis` makes on the document before anything else: it
    exists (404), it is `completed` (400) and its text is not empty (400).
  */
  function ReadyDocument(docs: seq<DocumentRecord>, documentId: string): (r: Result<DocumentRecord, Errors.ThrownError>)
    ensures (forall k :: 0 <= k < |docs| ==> docs[k].id != documentId) ==>
      r == Err(Errors.NewAppError(DocumentNotFoundMessage, 404))
    ensures r.Err? ==> r.error.statusCode.Some? && r.error.statusCode.value in {400, 404}
    ensures r.Ok? <==>
      FindDocument(docs, documentId).Some?
      && docs[FindDocument(docs, documentId).value].status == Completed
      && docs[FindDocument(docs, documentId).value].extractedText.Some?
      && docs[FindDocument(docs, documentId).value].extractedText.value != ""
    ensures r.Ok? ==> r.value in docs && r.value.id == documentId
  {
    match FindDocument(docs, documentId)
    case None => Err(Errors.NewAppError(DocumentNotFoundMessage, 404))
    case Some(k) =>
      var d := docs[k];
      if d.status != Completed then Err(Errors.NewAppError(NotProcessedMessage, 400))
      else if d.extractedText.None? || d.extractedText.value == "" then Err(Errors.NewAppError(NoTextMessage, 400))
      else Ok(d)
  }

  /** An action item as it is stored in the `actionItems` JSON column. */
  function ActionJson(a: Llm.ActionDraft): Json
  {
    JObj(map["id" := JStr(a.id), "title" := a.title, "description" := a.description,
             "priority" := a.priority, "category" := a.category])
  }

  /** The attributes `Analysis.create` receives besides `documentId`. */
  function ColumnsOf(g: Llm.Generated): (m: map<string, Json>)
    ensures m.Keys == {"summary", "keyPoints", "actionItems", "confidence", "processingTime", "tokensUsed"}
    ensures m["summary"] == g.summary && m["keyPoints"] == JArr(g.keyPoints)
    ensures m["actionItems"].JArr? && |m["actionItems"].items| == |g.actionItems|
    ensures forall k :: 0 <= k < |g.actionItems| ==> m["actionItems"].items[k] == ActionJson(g.actionItems[k])
    ensures m["confidence"] == g.confidence && m["processingTime"] == JNum(g.processingTime)
  {
    map[
      "summary" := g.summary,
      "keyPoints" := JArr(g.keyPoints),
      "actionItems" := JArr(seq(|g.actionItems|, k requires 0 <= k < |g.actionItems| => ActionJson(g.actionItems[k]))),
      "confidence" := g.confidence,
      "processingTime" := JNum(g.processingTime),
      "tokensUsed" := g.tokensUsed]
  }

  /**
    The generated summary is never `null` (the demo text, a truthy parsed value or
    `''`), so the row `Analysis.create` makes of it always passes the NOT NULL check.
  */
  lemma GeneratedRowIsAccepted(
    text: string, name: string,
    llm: string -> Llm.LlmOutcome, parse: string -> Option<map<string, Json>>, ids: nat -> string,
    elapsedMs: real)
    ensures AnalysisModel.WithColumnDefaults(ColumnsOf(Llm.GenerateAnalysis(text, name, llm, parse, ids, elapsedMs))).Ok?
  {
    var outcome := llm(Llm.BuildPrompt(text, name));
    if outcome.Reply? && Llm.ParseResponse(outcome.reply, parse, ids).Ok? {
      Llm.ParseResponseDefaults(outcome.reply, parse, ids);
    }
  }

  /** The row stored for a generated analysis; `documentName` takes its column default. */
  function NewRow(id: string, documentId: string, now: int, g: Llm.Generated): (a: AnalysisRow)
    requires g.summary != JNull
    ensures a.id == id && a.documentId == documentId && a.createdAt == now
    ensures "summary" in a.columns && a.columns["summary"] == g.summary
    ensures "confidence" in a.columns && a.columns["confidence"] == g.confidence
    ensures "documentName" in a.columns && a.columns["documentName"] == JStr("Document sans nom")
  {
    var cols := AnalysisModel.WithColumnDefaults(ColumnsOf(g));
    AnalysisRow(id, documentId, now, cols.value)
  }

  /** The answer of `createAnalysis`: 200 for an existing analysis, 201 for a new one. */
  datatype Created = Created(status: int, message: string, analysis: AnalysisRow, document: DocumentRecord)

  /** The outcome of `createAnalysis` and the `analyses` table after it. */
  datatype CreateOutcome = CreateOutcome(result: Result<Created, Errors.ThrownError>, rows: seq<AnalysisRow>)

  /** `llmService.generateAnalysis` as the controller calls it: the document text and name in, the analysis out. */
  type Generator = (string, string) -> Llm.Generated

  /** The service of `Llm`, with its completion API, parser, action ids and clock fixed. */
  function LlmGenerator(
    llm: string -> Llm.LlmOutcome, parse: string -> Option<map<string, Json>>, ids: nat -> string,
    elapsedMs: real): Generator
  {
    (text: string, name: string) => Llm.GenerateAnalysis(text, name, llm, parse, ids, elapsedMs)
  }

  /** What the service generates for a document that passed the checks. */
  function GeneratedFor(d: DocumentRecord, generate: Generator): Llm.Generated
    requires d.extractedText.Some?
  {
    generate(d.extractedText.value, d.name)
  }

  /**
    `createAnalysis(documentId)` on the tables `docs` and `rows`. After the document
    checks, an existing analysis of the document is returned as it is; otherwise the
    analysis is generated by `generate` and stored under `freshId` at time `now`.
    `Analysis.create` validates before it inserts: a `null` summary is refused with
    the validation error, and a `freshId` that is already a key makes the insertion
    fail; either error is thrown on.
  */
  function Create(
    docs: seq<DocumentRecord>, rows: seq<AnalysisRow>, documentId: string,
    generate: Generator, freshId: string, now: int): CreateOutcome
  {
    match ReadyDocument(docs, documentId)
    case Err(e) => CreateOutcome(Err(e), rows)
    case Ok(d) =>
      match FindAnalysisOf(rows, documentId)
      case Some(j) => CreateOutcome(Ok(Created(200, ExistingMessage, rows[j], d)), rows)
      case None =>
        var g := GeneratedFor(d, generate);
        match AnalysisModel.WithColumnDefaults(ColumnsOf(g))
        case Err(e) => CreateOutcome(Err(e), rows)
        case Ok(_) =>
          if FindAnalysis(rows, freshId).Some? then CreateOutcome(Err(DuplicateKey()), rows)
          else
            var row := NewRow(freshId, documentId, now, g);
            CreateOutcome(Ok(Created(201, GeneratedMessage, row, d)), rows + [row])
  }

  /**
    What `createAnalysis` answers: the document check's error, 200 with the analysis the
    document already has, the validation error for a `null` generated summary, the
    duplicate-key error, or 201 with a new row of this document that is appended to
    the table; only the 201 changes the table.
  */
  lemma CreateCases(
    docs: seq<DocumentRecord>, rows: seq<AnalysisRow>, documentId: string,
    generate: Generator, freshId: string, now: int)
    ensures var o := Create(docs, rows, documentId, generate, freshId, now);
      var ready := ReadyDocument(docs, documentId);
      && (ready.Err? ==> o.result == Err(ready.error))
      && (o.result.Ok? ==> o.result.value.document == ready.value)
      && (o.result.Ok? ==> o.result.value.analysis.documentId == documentId)
      && (o.result.Ok? && o.result.value.status == 200 <==>
            ready.Ok? && FindAnalysisOf(rows, documentId).Some?)
      && (o.result.Ok? && o.result.value.status == 200 ==>
            o.result.value.analysis == rows[FindAnalysisOf(rows, documentId).value])
      && (o.result.Ok? ==> o.result.value.status in {200, 201})
      && (o.result == Err(AnalysisModel.SummaryNullError) <==>
            ready.Ok? && FindAnalysisOf(rows, documentId).None?
            && GeneratedFor(ready.value, generate).summary == JNull)
      && (o.result == Err(DuplicateKey()) <==>
            ready.Ok? && FindAnalysisOf(rows, documentId).None?
            && GeneratedFor(ready.value, generate).summary != JNull
            && FindAnalysis(rows, freshId).Some?)
      && (o.result.Ok? && o.result.value.status == 201 ==>
            && ready.Ok?
            && FindAnalysisOf(rows, documentId).None? && FindAnalysis(rows, freshId).None?
            && o.result.value.analysis.id == freshId && o.result.value.analysis.createdAt == now
            && o.rows == rows + [o.result.value.analysis])
      && (!(o.result.Ok? && o.result.value.status == 201) ==> o.rows == rows)
  {
  }

  /** The analysis stored is the one the service generated for the document's text and name. */
  lemma CreateStoresGeneratedAnalysis(
    docs: seq<DocumentRecord>, rows: seq<AnalysisRow>, documentId: string,
    generate: Generator, freshId: string, now: int)
    requires Create(docs, rows, documentId, generate, freshId, now).result.Ok?
    requires Create(docs, rows, documentId, generate, freshId, now).result.value.status == 201
    ensures var g := generate(ReadyDocument(docs, documentId).value.extractedText.value, ReadyDocument(docs, documentId).value.name);
      && g.summary != JNull
      && Create(docs, rows, documentId, generate, freshId, now).result.value.analysis == NewRow(freshId, documentId, now, g)
  {
  }

  /**
    With the service of `Llm`, a ready document without an analysis gets a new row
    under a new key: the NOT NULL check never refuses what that service generates.
  */
  lemma CreateWithLlmStoresRow(
    docs: seq<DocumentRecord>, rows: seq<AnalysisRow>, documentId: string,
    llm: string -> Llm.LlmOutcome, parse: string -> Option<map<string, Json>>, ids: nat -> string,
    elapsedMs: real, freshId: string, now: int)
    requires ReadyDocument(docs, documentId).Ok? && FindAnalysisOf(rows, documentId).None?
    requires FindAnalysis(rows, freshId).None?
    ensures var o := Create(docs, rows, documentId, LlmGenerator(llm, parse, ids, elapsedMs), freshId, now);
      o.result.Ok? && o.result.value.status == 201
  {
    var d := ReadyDocument(docs, documentId).value;
    GeneratedRowIsAccepted(d.extractedText.value, d.name, llm, parse, ids, elapsedMs);
    assert GeneratedFor(d, LlmGenerator(llm, parse, ids, elapsedMs)) ==
      Llm.GenerateAnalysis(d.extractedText.value, d.name, llm, parse, ids, elapsedMs);
  }

  /** `createAnalysis` keeps the tables consistent. */
  lemma CreateKeepsTablesValid(
    docs: seq<DocumentRecord>, rows: seq<AnalysisRow>, documentId: string,
    generate: Generator, freshId: string, now: int)
    requires TablesValid(docs, rows)
    ensures TablesValid(docs, Create(docs, rows, documentId, generate, freshId, now).rows)
  {
    CreateCases(docs, rows, documentId, generate, freshId, now);
    var o := Create(docs, rows, documentId, generate, freshId, now);
    if o.result.Ok? && o.result.value.status == 201 {
      AppendKeepsTablesValid(docs, rows, o.result.value.analysis);
    }
  }

  /** A new analysis row of a stored document that has none, under a new key. */
  lemma AppendKeepsTablesValid(docs: seq<DocumentRecord>, rows: seq<AnalysisRow>, row: AnalysisRow)
    requires TablesValid(docs, rows)
    requires FindDocument(docs, row.documentId).Some?
    requires FindAnalysis(rows, row.id).None? && FindAnalysisOf(rows, row.documentId).None?
    ensures TablesValid(docs, rows + [row])
  {
    var after := rows + [row];
    DistinctByAppend(rows, row, AnalysisId);
    DistinctByAppend(rows, row, AnalysisDocument);
    forall k | 0 <= k < |after| ensures FindDocument(docs, after[k].documentId).Some? {
      if k < |rows| {
        assert after[k] == rows[k];
      }
    }
  }

  /**
    Asking twice for the analysis of a document generates it once: after a successful
    first call, a second one (whatever the service generates, the key and the time)
    answers 200 with the row the first call returned and changes nothing.
  */
  lemma {:induction false} CreateIsIdempotent(
    docs: seq<DocumentRecord>, rows: seq<AnalysisRow>, documentId: string,
    generate: Generator, freshId: string, now: int,
    generate2: Generator, freshId2: string, later: int)
    requires Create(docs, rows, documentId, generate, freshId, now).result.Ok?
    ensures var first := Create(docs, rows, documentId, generate, freshId, now);
      Create(docs, first.rows, documentId, generate2, freshId2, later)
        == CreateOutcome(Ok(Created(200, ExistingMessage, first.result.value.analysis, first.result.value.document)), first.rows)
  {
    var first := Create(docs, rows, documentId, generate, freshId, now);
    CreateCases(docs, rows, documentId, generate, freshId, now);
    if first.result.value.status == 201 {
      var n := |first.rows| - 1;
      assert first.rows[n] == first.result.value.analysis;
      assert FindAnalysisOf(first.rows, documentId) == Some(n);
    }
  }

  /** `createAnalysis` on the database object; see `Create`. */
  method CreateAnalysis(db: Database, documentId: string, generate: Generator, freshId: string, now: int)
    returns (r: Result<Created, Errors.ThrownError>)
    requires db.Valid()
    modifies db
    ensures db.Valid() && db.documents == old(db.documents)
    ensures CreateOutcome(r, db.analyses) == Create(old(db.documents), old(db.analyses), documentId, generate, freshId, now)
  {
    CreateKeepsTablesValid(db.documents, db.analyses, documentId, generate, freshId, now);
    var inserted: Option<AnalysisRow>;
    r, inserted := CreateSteps(db.documents, db.analyses, documentId, generate, freshId, now);
    if inserted.Some? {
      db.analyses := db.analyses + [inserted.value];
    }
  }

  /**
    The steps of `createAnalysis` up to `Analysis.create`: the document checks, the
    lookup of an existing analysis, the generation, the validation, and the row to
    insert if any.
  */
  method CreateSteps(
    docs: seq<DocumentRecord>, rows: seq<AnalysisRow>, documentId: string,
    generate: Generator, freshId: string, now: int)
    returns (r: Result<Created, Errors.ThrownError>, inserted: Option<AnalysisRow>)
    ensures var o := Create(docs, rows, documentId, generate, freshId, now);
      && r == o.result
      && o.rows == if inserted.Some? then rows + [inserted.value] else rows
  {
    inserted := None;
    var ready := ReadyDocument(docs, documentId);
    if ready.Err? {
      return Err(ready.error), None;
    }
    var d := ready.value;
    var existing := FindAnalysisOf(rows, documentId);
    if existing.Some? {
      return Ok(Created(200, ExistingMessage, rows[existing.value], d)), None;
    }
    var g := generate(d.extractedText.value, d.name);
    var columns := AnalysisModel.WithColumnDefaults(ColumnsOf(g));
    if columns.Err? {
      return Err(columns.error), None;
    }
    if FindAnalysis(rows, freshId).Some? {
      return Err(DuplicateKey()), None;
    }
    var row := NewRow(freshId, documentId, now, g);
    r, inserted := Ok(Created(201, GeneratedMessage, row, d)), Some(row);
  }

  // ----- getAnalysis and getAllAnalyses -----

  /** An analysis with the document it belongs to. */
  datatype AnalysisView = AnalysisView(analysis: AnalysisRow, document: DocumentRecord)

  /** The `include: document` join of one row; a row without its document fails like the controller does. */
  function ViewOf(docs: seq<DocumentRecord>, row: AnalysisRow): (r: Result<AnalysisView, Errors.ThrownError>)
    ensures r.Ok? <==> FindDocument(docs, row.documentId).Some?
    ensures r.Err? ==> r.error == MissingDocumentError
    ensures r.Ok? ==> r.value.analysis == row && r.value.document in docs && r.value.document.id == row.documentId
  {
    match FindDocument(docs, row.documentId)
    case None => Err(MissingDocumentError)
    case Some(k) => Ok(AnalysisView(row, docs[k]))
  }

  /** `getAnalysis(id)`: 404 for an unknown id, else the analysis with its document. */
  function GetAnalysis(docs: seq<DocumentRecord>, rows: seq<AnalysisRow>, id: string)
    : (r: Result<AnalysisView, Errors.ThrownError>)
    ensures (forall k :: 0 <= k < |rows| ==> rows[k].id != id) <==> r == Err(AnalysisNotFound())
    ensures r.Ok? ==>
      (r.value.analysis in rows && r.value.analysis.id == id &&
       r.value.document.id == r.value.analysis.documentId && r.value.document in docs)
  {
    match FindAnalysis(rows, id)
    case None => Err(AnalysisNotFound())
    case Some(k) => ViewOf(docs, rows[k])
  }

  /** Under the foreign key, a stored analysis is always found with its document. */
  lemma GetAnalysisOfStoredRow(docs: seq<DocumentRecord>, rows: seq<AnalysisRow>, id: string)
    requires TablesValid(docs, rows)
    requires exists k :: 0 <= k < |rows| && rows[k].id == id
    ensures GetAnalysis(docs, rows, id).Ok?
  {
  }

  /** The rows of one page, joined in order; the first row without a document fails the request. */
  function Views(docs: seq<DocumentRecord>, rows: seq<AnalysisRow>): (r: Result<seq<AnalysisView>, Errors.ThrownError>)
    ensures r.Ok? <==> forall k :: 0 <= k < |rows| ==> FindDocument(docs, rows[k].documentId).Some?
    ensures r.Err? ==> r.error == MissingDocumentError
    ensures r.Ok? ==> |r.value| == |rows| && forall k :: 0 <= k < |rows| ==> Ok(r.value[k]) == ViewOf(docs, rows[k])
  {
    if rows == [] then Ok([])
    else match (ViewOf(docs, rows[0]), Views(docs, rows[1..]))
      case (Ok(v), Ok(vs)) =>
        assert forall k :: 1 <= k < |rows| ==> rows[k] == rows[1..][k - 1];
        Ok([v] + vs)
      case (Err(e), _) => Err(e)
      case (_, Err(e)) => Err(e)
  }

  datatype AnalysisPage = AnalysisPage(analyses: seq<AnalysisView>, pagination: Pagination)

  /**
    The analyses that page `page` of the listing is to show: newest first, from
    position `(page - 1) * limit` on, at most `limit` of them.
  */
  function AnalysisWindow(rows: seq<AnalysisRow>, page: nat, limit: nat): seq<AnalysisRow>
    requires page >= 1
  {
    PageOf(SortDesc(rows, CreatedAt), page, limit)
  }

  /**
    `getAllAnalyses` for a positive page and limit: exactly the analyses of its window,
    newest first, at most `limit` of them, each with the document it belongs to; the
    pagination counts all analyses. A row of the window without its document fails
    the request.
  */
  function ListAnalyses(docs: seq<DocumentRecord>, rows: seq<AnalysisRow>, page: nat, limit: nat)
    : (r: Result<AnalysisPage, Errors.ThrownError>)
    requires page >= 1 && limit >= 1
    ensures AnalysesReferToDocuments(docs, rows) ==> r.Ok?
    ensures r.Ok? <==> forall i :: 0 <= i < |AnalysisWindow(rows, page, limit)| ==>
      FindDocument(docs, AnalysisWindow(rows, page, limit)[i].documentId).Some?
    ensures r.Err? ==> r.error == MissingDocumentError
    ensures r.Ok? ==>
      var w := AnalysisWindow(rows, page, limit);
      && |r.value.analyses| == |w|
      && forall i :: 0 <= i < |w| ==>
           && FindDocument(docs, w[i].documentId).Some?
           && r.value.analyses[i] == AnalysisView(w[i], docs[FindDocument(docs, w[i].documentId).value])
    ensures r.Ok? ==>
      && |r.value.analyses| <= limit
      && (forall i :: 0 <= i < |r.value.analyses| ==>
            r.value.analyses[i].analysis in rows && r.value.analyses[i].document.id == r.value.analyses[i].analysis.documentId)
      && (forall i, j :: 0 <= i < j < |r.value.analyses| ==>
            r.value.analyses[i].analysis.createdAt >= r.value.analyses[j].analysis.createdAt)
      && r.value.pagination == MakePagination(page, limit, |rows|)
  {
    var sorted := SortDesc(rows, CreatedAt);
    var window := Window(sorted, (page - 1) * limit, limit);
    SortedWindow(rows, CreatedAt, (page - 1) * limit, limit);
    assert window == AnalysisWindow(rows, page, limit);
    WindowRowsHaveDocuments(docs, rows, window);
    match Views(docs, window)
    case Err(e) => Err(e)
    case Ok(views) =>
      ViewsKeepRows(docs, window, views);
      Ok(AnalysisPage(views, MakePagination(page, limit, |sorted|)))
  }

  /** Under the foreign key, every row of a window drawn from the table has its document. */
  lemma WindowRowsHaveDocuments(docs: seq<DocumentRecord>, rows: seq<AnalysisRow>, window: seq<AnalysisRow>)
    requires forall i :: 0 <= i < |window| ==> window[i] in rows
    ensures AnalysesReferToDocuments(docs, rows) ==>
      forall i :: 0 <= i < |window| ==> FindDocument(docs, window[i].documentId).Some?
  {
    if AnalysesReferToDocuments(docs, rows) {
      forall i | 0 <= i < |window| ensures FindDocument(docs, window[i].documentId).Some? {
        var k :| 0 <= k < |rows| && rows[k] == window[i];
      }
    }
  }

  lemma ViewsKeepRows(docs: seq<DocumentRecord>, window: seq<AnalysisRow>, views: seq<AnalysisView>)
    requires Views(docs, window) == Ok(views)
    ensures |views| == |window|
    ensures forall i :: 0 <= i < |views| ==> views[i].analysis == window[i] && views[i].document.id == window[i].documentId
    ensures forall i :: 0 <= i < |views| ==>
      && FindDocument(docs, window[i].documentId).Some?
      && views[i] == AnalysisView(window[i], docs[FindDocument(docs, window[i].documentId).value])
  {
    forall i | 0 <= i < |views|
      ensures FindDocument(docs, window[i].documentId).Some?
      ensures views[i] == AnalysisView(window[i], docs[FindDocument(docs, window[i].documentId).value])
    {
      assert Ok(views[i]) == ViewOf(docs, window[i]);
    }
  }

  /** The analyses of a listing response, in the order shown. */
  function ShownAnalyses(views: seq<AnalysisView>): (r: seq<AnalysisRow>)
    ensures |r| == |views|
    ensures forall i :: 0 <= i < |r| ==> r[i] == views[i].analysis
  {
    seq(|views|, i requires 0 <= i < |views| => views[i].analysis)
  }

  /** The analyses shown by listing pages 1 to `k`, one page after the other. */
  function ListedAnalyses(docs: seq<DocumentRecord>, rows: seq<AnalysisRow>, limit: nat, k: nat): seq<AnalysisRow>
    requires limit >= 1 && AnalysesReferToDocuments(docs, rows)
  {
    if k == 0 then []
    else ListedAnalyses(docs, rows, limit, k - 1) + ShownAnalyses(ListAnalyses(docs, rows, k, limit).value.analyses)
  }

  lemma {:induction false} ListedAnalysesArePages(docs: seq<DocumentRecord>, rows: seq<AnalysisRow>, limit: nat, k: nat)
    requires limit >= 1 && AnalysesReferToDocuments(docs, rows)
    ensures ListedAnalyses(docs, rows, limit, k) == Pages(SortDesc(rows, CreatedAt), limit, k)
  {
    var shown := seq(k + 1, j requires 0 <= j <= k => ListedAnalyses(docs, rows, limit, j));
    forall j | 1 <= j < |shown|
      ensures shown[j] == shown[j - 1] + PageOf(SortDesc(rows, CreatedAt), j, limit)
    {
      assert shown[j] == ListedAnalyses(docs, rows, limit, j) && shown[j - 1] == ListedAnalyses(docs, rows, limit, j - 1);
      ListedAnalysesStep(docs, rows, limit, j);
    }
    RunningPagesArePages(shown, SortDesc(rows, CreatedAt), limit, k);
  }

  /** Page `k` adds exactly its window to the analyses shown before it. */
  lemma ListedAnalysesStep(docs: seq<DocumentRecord>, rows: seq<AnalysisRow>, limit: nat, k: nat)
    requires k >= 1 && limit >= 1 && AnalysesReferToDocuments(docs, rows)
    ensures ListedAnalyses(docs, rows, limit, k)
      == ListedAnalyses(docs, rows, limit, k - 1) + PageOf(SortDesc(rows, CreatedAt), k, limit)
  {
    var shown := ShownAnalyses(ListAnalyses(docs, rows, k, limit).value.analyses);
    assert shown == AnalysisWindow(rows, k, limit);
  }

  /**
    Under the foreign key, listing pages 1 to `totalPages` one after the other shows
    every analysis exactly once, newest first.
  */
  lemma ListingPagesCoverAnalyses(docs: seq<DocumentRecord>, rows: seq<AnalysisRow>, limit: nat)
    requires limit >= 1 && AnalysesReferToDocuments(docs, rows)
    ensures var listed := ListedAnalyses(docs, rows, limit, CeilDiv(|rows|, limit));
      && multiset(listed) == multiset(rows)
      && (forall i, j :: 0 <= i < j < |listed| ==> listed[i].createdAt >= listed[j].createdAt)
  {
    ListedAnalysesArePages(docs, rows, limit, CeilDiv(|rows|, limit));
    PagesPartition(SortDesc(rows, CreatedAt), limit);
  }

  // ----- deleteAnalysis -----

  /** `deleteAnalysis(id)`: 404 for an unknown id, else that row alone is destroyed. */
  method DeleteAnalysis(db: Database, id: string) returns (r: Result<(), Errors.ThrownError>)
    requires db.Valid()
    modifies db
    ensures db.Valid() && db.documents == old(db.documents)
    ensures FindAnalysis(old(db.analyses), id).None? ==> r == Err(AnalysisNotFound()) && db.analyses == old(db.analyses)
    ensures FindAnalysis(old(db.analyses), id).Some? ==> r == Ok(()) && db.analyses == Filter(old(db.analyses), AnalysisIsNot(id))
  {
    if FindAnalysis(db.analyses, id).None? {
      return Err(AnalysisNotFound());
    }
    var rows := db.analyses;
    var kept := Filter(rows, AnalysisIsNot(id));
    FilterKeepsDistinct(rows, AnalysisId, AnalysisIsNot(id));
    FilterKeepsDistinct(rows, AnalysisDocument, AnalysisIsNot(id));
    forall k | 0 <= k < |kept| ensures FindDocument(db.documents, kept[k].documentId).Some? {
      var j :| 0 <= j < |rows| && rows[j] == kept[k];
    }
    db.analyses := kept;
    r := Ok(());
  }

  /** Deleting an analysis removes exactly that row: it is gone and every other row stays. */
  lemma DeleteAnalysisRemovesOnlyIt(rows: seq<AnalysisRow>, id: string)
    ensures forall a :: a in Filter(rows, AnalysisIsNot(id)) <==> a in rows && a.id != id
  {
    forall a | a in rows && a.id != id ensures a in Filter(rows, AnalysisIsNot(id)) {
      var j :| 0 <= j < |rows| && rows[j] == a;
      assert AnalysisIsNot(id)(rows[j]);
    }
  }
}

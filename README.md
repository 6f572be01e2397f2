# Document analysis platform — a verified model of its core

The platform stores uploaded PDF documents, extracts their text, and asks a language model for an analysis: a summary, key points, action items and a confidence score. This project models the parts of it that decide things:

- **Storage service (Node/Express, Sequelize).**
  - The analysis controller. It builds the prompt, extracts the JSON span from the model's reply, applies defaults, and falls back to a demonstration analysis. `createAnalysis` is idempotent per document. It also covers the listing, lookup and deletion of analyses.
  - The document controller. It covers upload, applying the extraction result, the filtered and paginated listing, the status-gated text, deletion with its cascade, and the statistics.
  - The `Analysis` model's column defaults, short summary and word count.
  - The Joi schemas, both for analysis bodies and for the pagination query, and the `validate`/`validateParams` middleware.
  - The global error handler and `AppError`.
  - The multer upload middleware.
- **Python analysis service (Flask).** It builds the Gemini prompt, strips code fences from the reply, cleans action items, normalises the result, builds the error response, and checks the request of `POST /api/analyze`.
- **Front end (React).** The `AnalysisContext` reducer, and the search, pagination, page-after-delete and confidence-colour logic of the history page.

The modules are laid out as follows:

- Each source file becomes one module: `AnalysisModel`, `Llm`, `AnalysisController`, `DocumentController`, `AnalysisSchema`, `Validation`, `Errors`, `Upload`, `IaService`, `AnalysisContext` and `HistoryPage`.
- They share these modules:
  - `Common`: `Option`, `Result` and an order-preserving `Filter`.
  - `JsonValues`: JSON values, plus JavaScript and Python truthiness.
  - `Text`: white space as JavaScript's `\s` and Python's `str.strip` see it, trimming, lower-casing, and decimal rendering.
  - `Paging`: `Math.ceil`, `LIMIT`/`OFFSET` windows, the `pagination` block, and a stable descending sort standing for `ORDER BY … DESC`.
  - `Store`: the two tables as a `Database` class, with the invariants that are kept:
    - distinct keys;
    - one analysis per document;
    - the foreign key;
    - a completed document has text.
  - `Joi`: the subset of Joi's rules and messages that the schemas use.

State that the source changes in place is modelled by imperative Dafny:

- the database tables;
- `req.query`, `req.body` and `req.params`;
- the response whose `send` is wrapped;
- the Python `result` dict and the `cleaned_actions` loop.

Each such method is proved equal to a pure specification function, and the properties are lemmas about those functions.

These enter as parameters:

- the completion API and Gemini (prompt → reply or failure);
- `JSON.parse` and `json.loads` (text → value or error);
- PyPDF2 and pdf-parse (bytes → text or error);
- random ids, clocks and elapsed times;
- `process.env`;
- in `createAnalysis`, the service's `generateAnalysis` (document text and name → analysis). `CreateWithLlmStoresRow` instantiates it with the modelled service.

Two details of the service's `parseResponse`:

- `parseResponse` takes the span from the first `{` to the last `}` (the regular expression is greedy). It does not take a balanced object.
- `parseResponse` runs inside the same `try` as the HTTP call. A reply that cannot be parsed therefore yields the demonstration analysis, not an error.

## Model

| member | source | states |
|---|---|---|
| AnalysisModel.ShortSummary | backend/db-service/models/Analysis.js:57-61 | a summary of at most `maxLength` characters is returned unchanged; a longer one becomes its first `maxLength` characters followed by `...` |
| AnalysisModel.ShortSummaryBounds | backend/db-service/models/Analysis.js:58-59 | the short summary is at most `maxLength + 3` long and always starts with a prefix of the summary |
| AnalysisModel.ShortSummaryIdempotent | backend/db-service/models/Analysis.js:57-61 | shortening a short summary again changes nothing |
| AnalysisModel.SplitFilterIsWords | backend/db-service/models/Analysis.js:64 | `split(/\s+/)` followed by dropping empty pieces yields exactly the maximal runs of non-white-space characters |
| AnalysisModel.WordCountCountsWords | backend/db-service/models/Analysis.js:63-65 | the word count is the number of maximal non-white-space runs |
| AnalysisModel.WordCountZeroIffBlank | backend/db-service/models/Analysis.js:63-65 | the word count is 0 exactly when the summary is empty or only white space |
| AnalysisModel.WordCountIgnoresLeadingSpace | backend/db-service/models/Analysis.js:64 | leading white space does not change the word count |
| AnalysisModel.WordCountIgnoresTrailingSpace | backend/db-service/models/Analysis.js:64 | trailing white space does not change the word count |
| AnalysisModel.WordCountIgnoresRepeatedSpace | backend/db-service/models/Analysis.js:64 | any run of white space counts like a single space |
| AnalysisModel.WithColumnDefaults | backend/db-service/models/Analysis.js:11-44 | a row is accepted exactly when `summary` is present and not null; given columns keep their values and absent ones get `'Document sans nom'`, `[]`, `[]`, 0, 0 |
| AnalysisModel.ColumnDefaultsIdempotent | backend/db-service/models/Analysis.js:11-44 | filling in the defaults twice is the same as once |
| AnalysisModel.StoredRowIsComplete | backend/db-service/models/Analysis.js:17-20 | a stored row has a non-null summary and every defaulted column |
| Llm.PromptEmbedsPrefix | backend/db-service/controllers/analysisController.js:56-91 | the prompt is the head naming the document, then exactly the first min(8000, \|text\|) characters of the text, then a space, the truncation marker exactly when the text is longer than 8000, and the fixed instructions |
| Llm.PromptLength | backend/db-service/controllers/analysisController.js:63 | the prompt grows with the text only up to 8000 characters |
| Llm.PromptIgnoresTextBeyondLimit | backend/db-service/controllers/analysisController.js:63 | two long texts that share their first 8000 characters give the same prompt |
| Llm.JsonSpan | backend/db-service/controllers/analysisController.js:96 | a span exists exactly when a `{` precedes a `}`; it runs from the first `{` to the last `}` |
| Llm.ParseFailure | backend/db-service/controllers/analysisController.js:119-122 | every failure inside `parseResponse` becomes an `AppError` with status 500 and the fixed message |
| Llm.NormaliseItems | backend/db-service/controllers/analysisController.js:105-111 | the items are mapped one for one and in order, each with its own fresh id; a `null` item makes the mapping throw |
| Llm.ParseResponse | backend/db-service/controllers/analysisController.js:93-123 | success exactly when there is content, a JSON span, the span parses, and `actionItems` can be mapped; every other case is the 500 error |
| Llm.ParseResponseDefaults | backend/db-service/controllers/analysisController.js:105-118 | a falsy summary becomes `''`; a non-array `keyPoints` becomes `[]`; a falsy confidence (0 included) becomes 80; missing or null `actionItems` becomes `[]`; items keep their count and order; each of title, description, priority and category is kept when truthy (whatever its value) and otherwise defaults to `''`, `''`, `'medium'` and `'General'` |
| Llm.ParseResponseFailures | backend/db-service/controllers/analysisController.js:96-102 | content without a `{…}` span, or with a span that does not parse, gives the 500 error |
| Llm.DemoAnalysis | backend/db-service/controllers/analysisController.js:126-148 | the demonstration analysis has confidence 75, 150 tokens, the four fixed key points, one action item (medium, `Analyse`), a summary quoting the document name, and the elapsed time in seconds |
| Llm.GenerateAnalysis | backend/db-service/controllers/analysisController.js:13-54 | a failed call or any `parseResponse` error yields the demonstration analysis; otherwise the result is the parsed draft with the elapsed time and `total_tokens` (or 0); the function never fails |
| Llm.GeneratedConfidenceIsTruthy | backend/db-service/controllers/analysisController.js:13-54 | whatever the API and the parser do, the generated confidence is truthy |
| Llm.GenerationIgnoresTextBeyondLimit | backend/db-service/controllers/analysisController.js:56-91 | the generated analysis depends on the text only through its first 8000 characters |
| AnalysisController.ReadyDocument | backend/db-service/controllers/analysisController.js:156-168 | an unknown document gives 404; otherwise success exactly when the document is `completed` and its text is non-empty, and the other cases give 400 |
| AnalysisController.ColumnsOf | backend/db-service/controllers/analysisController.js:206-214 | the attributes given to `Analysis.create` carry the generated summary, key points, confidence and processing time, and one stored action per generated one, in order |
| AnalysisController.GeneratedRowIsAccepted | backend/db-service/controllers/analysisController.js:206-214 | the generated summary is never null, so the new row always passes the model's NOT NULL check |
| AnalysisController.NewRow | backend/db-service/controllers/analysisController.js:206-214 | the stored row has the fresh id, the document id, the creation time, the generated summary and confidence, and the default document name |
| AnalysisController.CreateCases | backend/db-service/controllers/analysisController.js:152-249 | `createAnalysis` returns one of: the document check's error; 200 with the document's existing analysis and no change; the validation error exactly when the generated summary is `null`; the duplicate-key error; or 201 with a new row for this document appended to the table. Only the 201 changes the table |
| AnalysisController.CreateStoresGeneratedAnalysis | backend/db-service/controllers/analysisController.js:195-214 | the row stored on 201 is the analysis generated from the document's text and name |
| AnalysisController.CreateWithLlmStoresRow | backend/db-service/controllers/analysisController.js:195-214 | with the language-model service, a ready document that has no analysis always gets its new row under a new key: the NOT NULL check never refuses what the service generates |
| AnalysisController.CreateKeepsTablesValid | backend/db-service/controllers/analysisController.js:171-214 | creating an analysis keeps the keys distinct, one analysis per document, and the foreign key |
| AnalysisController.AppendKeepsTablesValid | backend/db-service/controllers/analysisController.js:206-214 | appending a new row, for a stored document that has no analysis yet and under a new key, keeps the tables valid |
| AnalysisController.CreateIsIdempotent | backend/db-service/controllers/analysisController.js:171-193 | after a successful call, a second call (whatever the service generates, and with any key or time) answers 200 with the same row and changes nothing |
| AnalysisController.CreateAnalysis | backend/db-service/controllers/analysisController.js:152-249 | the method on the database returns the result and leaves the table that `Create` specifies; the documents are untouched and the tables stay valid |
| AnalysisController.ViewOf | backend/db-service/controllers/analysisController.js:255-278 | the join finds the analysis's document; without one, reading `analysis.document.id` throws a `TypeError` |
| AnalysisController.GetAnalysis | backend/db-service/controllers/analysisController.js:252-293 | 404 exactly for an unknown id; otherwise the stored analysis with that id, together with its document |
| AnalysisController.GetAnalysisOfStoredRow | backend/db-service/controllers/analysisController.js:252-293 | under the foreign key, every stored analysis is found together with its document |
| AnalysisController.Views | backend/db-service/controllers/analysisController.js:300-310 | the rows of a page are joined one for one and in order; the first row without a document fails the request |
| AnalysisController.ListAnalyses | backend/db-service/controllers/analysisController.js:296-349 | exactly the analyses at positions [(page-1)·limit, page·limit) of the table ordered newest first, each joined to the document its `documentId` names; the page fails with a 500 exactly when one of its own rows has no document, so an orphan row on another page does not affect it; the pagination block is built from page, limit and the count of all analyses |
| AnalysisController.ListedAnalysesArePages | backend/db-service/controllers/analysisController.js:296-311 | the analyses returned by pages 1 … k, one after the other, are the first k pages of the table ordered newest first |
| AnalysisController.ListingPagesCoverAnalyses | backend/db-service/controllers/analysisController.js:296-311 | when every analysis has its document, pages 1 … totalPages return every analysis exactly once, newest first |
| AnalysisController.ViewsKeepRows | backend/db-service/controllers/analysisController.js:300-310 | the joined page holds the window's rows in order |
| AnalysisController.DeleteAnalysis | backend/db-service/controllers/analysisController.js:352-367 | an unknown id gives 404 and no change; otherwise exactly the rows with that id are removed, and the tables stay valid |
| AnalysisController.DeleteAnalysisRemovesOnlyIt | backend/db-service/controllers/analysisController.js:355-361 | after the deletion, a row is kept exactly when it was stored and has another id |
| DocumentController.OverlongColumn | backend/db-service/models/Document.js:5-35 | the row of an upload fits exactly when `id` and `name` have at most 255 characters, `type` at most 100 and `filePath` at most 500; the column named is the first one, in table order, that overflows |
| DocumentController.UploadDocument | backend/db-service/controllers/documentController.js:8-52 | without a file: 400 and nothing stored. A value too long for its column: a 500 database error is rethrown and the uploaded file is unlinked. A duplicate key: the same, with the unique-constraint error. The insert succeeds exactly when a file is given, every value fits and the id is new; the document is then appended with status `processing` and no text |
| DocumentController.AfterExtraction | backend/db-service/controllers/documentController.js:70-84 | a successful extraction sets the text and `completed`; a failure sets `error` and keeps the text |
| DocumentController.ApplyExtractionResult | backend/db-service/controllers/documentController.js:55-86 | a no-op for a document that no longer exists; otherwise only that document is replaced by its post-extraction version |
| DocumentController.Matching | backend/db-service/controllers/documentController.js:94-97 | with a status filter, exactly the documents of that status; without one, all of them |
| DocumentController.Views | backend/db-service/controllers/documentController.js:100-112 | each listed document comes with its `analysisResult` association |
| DocumentController.ListDocuments | backend/db-service/controllers/documentController.js:89-145 | exactly the documents at positions [(page-1)·limit, page·limit) of those with the requested status ordered newest upload first, each with its analysis; the pagination block echoes `page` and `limit`, `total` is the number matching, `totalPages` = ceil(total / limit), `hasNext` ⇔ page·limit < total, `hasPrev` ⇔ page > 1 |
| DocumentController.ListedDocumentsArePages | backend/db-service/controllers/documentController.js:89-114 | the documents returned by pages 1 … k, one after the other, are the first k pages of the matching documents ordered newest upload first |
| DocumentController.ListingPagesCoverMatching | backend/db-service/controllers/documentController.js:89-114 | pages 1 … totalPages of the listing return every matching document exactly once, newest upload first |
| DocumentController.GetDocument | backend/db-service/controllers/documentController.js:148-183 | 404 exactly for an unknown id; otherwise the document with its analysis |
| DocumentController.GetDocumentText | backend/db-service/controllers/documentController.js:186-209 | 404 for an unknown id; 400 exactly when the document is not `completed`; a `completed` document gives its id, name and stored text |
| DocumentController.TextAgreesWithDocument | backend/db-service/controllers/documentController.js:148-209 | the text route succeeds exactly for the documents `getDocument` finds that are `completed`, with that document's name and text, and both answer 404 for the same ids |
| DocumentController.TextOfCompletedIsPresent | backend/db-service/controllers/documentController.js:197-208 | in a valid database, the text returned for a completed document is present |
| DocumentController.DeleteDocument | backend/db-service/controllers/documentController.js:212-235 | 404 for an unknown id; otherwise the file path is returned for removal (a failed removal is ignored), the document is removed, its analyses go with it through the cascade, and the tables stay valid |
| DocumentController.StatusCountsPartition | backend/db-service/controllers/documentController.js:238-261 | the counts of the three statuses add up to the number of documents |
| DocumentController.GetStats | backend/db-service/controllers/documentController.js:238-261 | totals of documents and analyses; `completedDocuments` equals the group count for `completed`; one group per occurring status with its count; the groups sum to the total |
| Store.FindDocument | backend/db-service/controllers/documentController.js:151-162 | `findByPk` finds a document with that id exactly when one is stored |
| Store.FindAnalysisOf | backend/db-service/controllers/analysisController.js:171-173 | `findOne({ where: { documentId } })` finds an analysis of the document exactly when one is stored |
| Store.DataTooLong | backend/db-service/middleware/errorHandler.js:5-6 | a value longer than its column is none of the three Sequelize constraint errors and has no status code, so it is answered with 500 |
| Store.DuplicateKey | backend/db-service/middleware/errorHandler.js:35-44 | a repeated primary key is a `SequelizeUniqueConstraintError` on path `id` |
| Paging.HasNextIffRowsRemain | backend/db-service/controllers/analysisController.js:339-346 | `hasNext` ⇔ page·limit < total and `hasPrev` ⇔ page > 1, that is, `page < totalPages` |
| Paging.HasNextIffNextPageNonEmpty | backend/db-service/controllers/analysisController.js:339-346 | `hasNext` holds exactly when the next page is non-empty |
| Paging.SortDesc | backend/db-service/controllers/analysisController.js:309 | `ORDER BY … DESC` gives the same rows, sorted by descending key |
| Paging.SortedWindow | backend/db-service/controllers/analysisController.js:300-310 | a `LIMIT`/`OFFSET` window of the sorted rows is sorted and holds only stored rows |
| Paging.PagesPartition | backend/db-service/controllers/documentController.js:100-114 | pages 1 … ceil(n / size), concatenated, give back the rows |
| Errors.NewAppError | backend/db-service/middleware/errorHandler.js:98-106 | `AppError` keeps the message and the status code, and is operational |
| Errors.FieldErrors | backend/db-service/middleware/errorHandler.js:23-26 | one `{field, message}` per underlying error, in order |
| Errors.HandleError | backend/db-service/middleware/errorHandler.js:4-80 | the three Sequelize errors give 400 `Données invalides` with field errors, 409 naming the first path or `unknown`, and 400 `Référence invalide`. Any other error gives `statusCode` or else 500, with `message` or else the default, and the fixed text for 429. The stack is included exactly in development with status ≥ 500, and the uploaded file is unlinked. `success` is always false |
| Errors.RespondToAppError | backend/db-service/middleware/errorHandler.js:91-95 | a rejected controller promise carrying an `AppError` is answered with its own status and message |
| Joi.OnlyDetails | backend/db-service/middleware/validation.js:9-11 | a `valid(...)` key passes exactly when its value is one of the listed strings. Otherwise the first detail is `any.only`. Joi checks the list before the base type, so a non-string adds a second detail, `string.base`, and the empty string adds `string.empty` |
| Validation.PaginationAcceptsIff | backend/db-service/middleware/validation.js:6-12 | a query passes exactly when: `page` is an integer ≥ 1; `limit` is an integer in 1..100; `sortBy`, `sortOrder` and `status` each take one of their listed values (when present) |
| Validation.PaginationDefaults | backend/db-service/middleware/validation.js:6-12 | defaults are page 1, limit 10, `createdAt` and `DESC`; `status` appears only when given, and unknown keys are stripped |
| Validation.AcceptedPaginationIsUsable | backend/db-service/middleware/validation.js:7-11 | an accepted query gives a whole page ≥ 1, a whole limit in 1..100, and a valid status |
| Validation.FieldErrorsOf | backend/db-service/middleware/validation.js:26-29 | one `{field: path joined by '.', message}` per failing detail, in order |
| Validation.Validate | backend/db-service/middleware/validation.js:16-47 | any failing detail gives 400 listing every failure, and the request is untouched; on success only the chosen source is replaced by the validated value |
| Validation.IdParams | backend/db-service/routes/analyses.js:90-92 | `id` passes exactly when it is a non-empty string; at most one detail is reported |
| Validation.ValidateParams | backend/db-service/middleware/validation.js:50-65 | a failure gives 400 with the list of messages and leaves `req.params` alone; on success `req.params` is replaced and nothing else changes |
| AnalysisSchema.ActionItemAcceptsIff | backend/db-service/routes/analyses.js:31-39 | an action item passes exactly when: title is 3..200; description is 10..1000; category is 2..100; priority is low, medium or high; id is optional |
| AnalysisSchema.ActionItemValue | backend/db-service/routes/analyses.js:31-39 | a validated item keeps only the schema's keys and always has a priority |
| AnalysisSchema.ActionItemsValue | backend/db-service/routes/analyses.js:31-39 | every item of the array is validated, one for one |
| AnalysisSchema.KeyPointsAcceptsIff | backend/db-service/routes/analyses.js:27 | `keyPoints` passes exactly when it is an array of 1..20 strings of length 3..500 |
| AnalysisSchema.ActionItemsAcceptsIff | backend/db-service/routes/analyses.js:31-39 | `actionItems` passes exactly when it is an array of at most 10 acceptable items |
| AnalysisSchema.TagsAcceptsIff | backend/db-service/routes/analyses.js:48 | `tags` passes exactly when it is an array of at most 10 strings of length ≤ 50 |
| AnalysisSchema.ContentAcceptsIff | backend/db-service/routes/analyses.js:18-30 | `documentName` (3..255) and `summary` (10..5000) are required, `keyPoints` is required, and `documentId` is optional or null |
| AnalysisSchema.ActionAcceptsIff | backend/db-service/routes/analyses.js:31-43 | `actionItems` is checked when present, and `confidence` must be an integer in [0, 100] with both ends accepted |
| AnalysisSchema.MetadataAcceptsIff | backend/db-service/routes/analyses.js:44-48 | when present: `processingTime` in (0, 300]; `modelUsed` ≤ 100 characters; `tokensUsed` an integer ≥ 0; `category` ≤ 100 characters or null; `tags` as above |
| AnalysisSchema.BodyAcceptsIff | backend/db-service/routes/analyses.js:17-49 | a body passes `analysisSchema` exactly when every key meets its rules |
| AnalysisSchema.BodyDefaults | backend/db-service/routes/analyses.js:31-48 | absent `actionItems`, `processingTime`, `modelUsed`, `tokensUsed` and `tags` become `[]`, 0, `'unknown'`, 0 and `[]` |
| AnalysisSchema.BodyKeys | backend/db-service/routes/analyses.js:17-49 | unknown keys are stripped, and the keys passed through keep their values |
| AnalysisSchema.AcceptedItemsHavePriority | backend/db-service/routes/analyses.js:35 | every action item of an accepted body has a priority that is low, medium or high |
| AnalysisSchema.CleanedItemsHavePriority | backend/db-service/routes/analyses.js:35 | validating acceptable items gives each of them one of the three priorities |
| AnalysisSchema.PartialUpdateIsRefused | backend/db-service/routes/analyses.js:101-107 | a `PUT` body missing a required key is refused, just as `POST` refuses it |
| Upload.FileFilter | backend/db-service/middleware/upload.js:25-32 | a file is accepted exactly when its MIME type is `application/pdf`; otherwise the error carries the PDF-only message |
| Upload.MaxFileSize | backend/db-service/middleware/upload.js:39 | the size limit is `parseInt(MAX_FILE_SIZE)`, with 50 MiB when unset; it is never 0 |
| Upload.MaxFileSizeOfDecimal | backend/db-service/middleware/upload.js:39 | a positive decimal `MAX_FILE_SIZE` is the limit used |
| Upload.MaxFileSizeFallsBack | backend/db-service/middleware/upload.js:39 | `NaN` and 0 fall back to 50 MiB |
| Upload.Receive | backend/db-service/middleware/upload.js:35-42 | no part gives no file; an accepted file is the only part, in the `document` field, a PDF, and within the limit; a thrown error is the filter's |
| Upload.HandleUploadError | backend/db-service/middleware/upload.js:45-79 | every multer error gives 400 with its code's message; the filter's error gives 400 with its message; any other error is forwarded unchanged |
| Upload.MulterMessagesDistinct | backend/db-service/middleware/upload.js:46-68 | the three known codes and the rest get four different messages |
| Upload.ReceiveFailuresAreAnswered | backend/db-service/middleware/upload.js:45-79 | every way receiving can fail is answered with 400 and never reaches the global handler |
| Upload.ValidateFilePresence | backend/db-service/middleware/upload.js:82-90 | 400 exactly when there is no file; otherwise the request goes on |
| Upload.RemovalOnSend | backend/db-service/middleware/upload.js:96-102 | the stored file is removed exactly when the status is ≥ 400 and a path is present |
| Upload.Response.Send | backend/db-service/middleware/upload.js:96-104 | the wrapped `send` sends the data and removes the file according to the decision rule |
| Upload.UploadRoute | backend/db-service/routes/documents.js:39-46 | the upload middlewares in route order: the request reaches the controller exactly when multer has stored a file |
| Upload.MiddlewareRejectionsRemoveNothing | backend/db-service/middleware/upload.js:45-107 | every answer of `handleUploadError` and `validateFilePresence` is a 400 sent while no file is stored, so nothing is unlinked; the request reaches the controller exactly when a file was received, and then any later status ≥ 400 unlinks exactly that file and a success unlinks nothing |
| IaService.GeminiPromptEmbedsPrefix | backend/ia-service/app.py:33-54 | the prompt carries exactly the first min(15000, \|text\|) characters, right after the instructions |
| IaService.GeminiPromptIgnoresTail | backend/ia-service/app.py:51 | characters beyond the 15000th never reach Gemini |
| IaService.StripFencesIsTrimmed | backend/ia-service/app.py:61-70 | the stripped reply has no surrounding white space |
| IaService.JsonFenceRoundTrip | backend/ia-service/app.py:61-70 | a trimmed text fenced as ```` ```json ```` … ```` ``` ```` comes back as it was |
| IaService.BareFenceRoundTrip | backend/ia-service/app.py:61-70 | the same holds for a bare ```` ``` ```` fence |
| IaService.UnfencedReplyIsStripped | backend/ia-service/app.py:61-70 | a reply without fences is only stripped |
| IaService.CleanAction | backend/ia-service/app.py:83-92 | a cleaned action has exactly the five keys; given values are kept; the default id is `action-{i+1}`; the priority is always high, medium or low |
| IaService.CleanActionsShape | backend/ia-service/app.py:80-96 | one cleaned action per dict entry (non-dicts are dropped), each with the five keys and a valid priority |
| IaService.CleanActionsOfDicts | backend/ia-service/app.py:80-96 | when every entry is a dict, entry `i` is cleaned in place with index `i` |
| IaService.CleanActionIdempotent | backend/ia-service/app.py:83-92 | cleaning a cleaned action again changes nothing |
| IaService.CleanActionsIdempotent | backend/ia-service/app.py:80-96 | cleaning a cleaned list again changes nothing |
| IaService.NormaliseIsWellFormed | backend/ia-service/app.py:74-104 | after normalisation, `keyPoints` and `actionItems` are lists, every action is clean, `confidence` is a number, `summary` is truthy, and `processingTime` is set |
| IaService.NormaliseKeepsOtherKeys | backend/ia-service/app.py:74-104 | keys other than the five rewritten ones pass through untouched |
| IaService.NormaliseIdempotent | backend/ia-service/app.py:74-104 | normalising a normalised answer again changes nothing |
| IaService.ErrorResponse | backend/ia-service/app.py:116-123 | the error response is well formed: the summary carries the failure, there is one key point and no actions, confidence is 0, and the keys are exactly these five |
| IaService.AnalysisIsWellFormed | backend/ia-service/app.py:27-113 | whatever Gemini and the decoder do, the answer is well formed; nothing is raised |
| IaService.AnalysisOfFencedReply | backend/ia-service/app.py:56-104 | a fenced JSON object reply is decoded from the text inside the fence and then normalised |
| IaService.AnalyzeWithGemini | backend/ia-service/app.py:27-113 | the step-by-step function returns the specified analysis, which is well formed |
| IaService.StripReply | backend/ia-service/app.py:61-70 | the reassigned `response_text` is the fence-stripped reply |
| IaService.DropFences | backend/ia-service/app.py:63-68 | the three `if`s remove the fences in their order |
| IaService.NormaliseInPlace | backend/ia-service/app.py:74-104 | the dict updated key by key equals the normalised result |
| IaService.CleanActionList | backend/ia-service/app.py:80-96 | the loop builds exactly the cleaned action list |
| IaService.CleanOne | backend/ia-service/app.py:83-92 | the loop body builds the cleaned action |
| IaService.AnalyzeDocument | backend/ia-service/app.py:126-151 | 400 in order for: no `file`; an empty file name; a name not ending in `.pdf`; blank extracted text. 500 with the message when extraction fails. Otherwise 200 with the analysis. Every body is well formed |
| AnalysisContext.InitialState | frontend/src/context/AnalysisContext.tsx:32-46 | empty lists, no current analysis, not loading, no error, page 1, limit 10, total 0, no next or previous page |
| AnalysisContext.AddPutsNewestFirst | frontend/src/context/AnalysisContext.tsx:81-85 | the new analysis comes first, followed by the first four earlier ones in order; there are at most five, and nothing else changes |
| AnalysisContext.RecentStaysBounded | frontend/src/context/AnalysisContext.tsx:81-85 | no run of actions ever shows more than five recent analyses |
| AnalysisContext.DeleteRemovesEveryCopy | frontend/src/context/AnalysisContext.tsx:87-92 | every entry with the id leaves both lists; the others stay in their order; nothing else changes |
| AnalysisContext.DeleteIsIdempotent | frontend/src/context/AnalysisContext.tsx:87-92 | deleting twice is the same as deleting once |
| AnalysisContext.FilterAbsentId | frontend/src/context/AnalysisContext.tsx:90-91 | filtering out an id that does not occur changes nothing |
| AnalysisContext.AddThenDelete | frontend/src/context/AnalysisContext.tsx:81-92 | adding an analysis with a new id and deleting it leaves the earlier recent analyses that were kept |
| AnalysisContext.SetErrorStopsLoading | frontend/src/context/AnalysisContext.tsx:53-54 | `SET_ERROR` records the error, stops loading, and keeps both lists |
| AnalysisContext.LoadsClearLoadingAndError | frontend/src/context/AnalysisContext.tsx:56-79 | each successful load replaces only its own field (plus the pagination, for the full list) and clears loading and error |
| AnalysisContext.SetLoadingChangesOnlyTheFlag | frontend/src/context/AnalysisContext.tsx:50-51 | `SET_LOADING` sets the flag and nothing else |
| AnalysisContext.UnknownActionIsIgnored | frontend/src/context/AnalysisContext.tsx:94-95 | an unknown action leaves the state unchanged |
| AnalysisContext.LoadSequenceEndsIdle | frontend/src/context/AnalysisContext.tsx:106-115 | `loadAllAnalyses` ends not loading, and with an error exactly when the request failed |
| HistoryPage.ParseArrayField | frontend/src/components/HistoryPage.tsx:24-34 | an array is returned unchanged; a string that fails to parse, and anything else, give `[]` |
| HistoryPage.ParseArrayFieldIsArrayUnlessParsedOtherwise | frontend/src/components/HistoryPage.tsx:24-34 | the result is an array unless a string parsed to something else |
| HistoryPage.BlankSearchShowsAll | frontend/src/components/HistoryPage.tsx:37 | a blank search term shows every analysis in order |
| HistoryPage.SearchShowsExactlyMatches | frontend/src/components/HistoryPage.tsx:39-46 | otherwise the shown list is the order-preserving subsequence of analyses whose name, summary or short summary contains the lower-cased term |
| HistoryPage.SearchIgnoresTermCase | frontend/src/components/HistoryPage.tsx:40-45 | a term and its lower-cased form show the same analyses |
| HistoryPage.PageShowsItsSlice | frontend/src/components/HistoryPage.tsx:49-53 | page p shows the filtered analyses at positions [(p-1)·5, p·5): never more than five |
| HistoryPage.PagesPartitionFiltered | frontend/src/components/HistoryPage.tsx:49-55 | pages 1 … ceil(n / 5) show every filtered analysis exactly once, in order |
| HistoryPage.PageBeyondLastIsEmpty | frontend/src/components/HistoryPage.tsx:49-55 | a page after the last one is empty |
| HistoryPage.OnSearchInput | frontend/src/components/HistoryPage.tsx:61-63 | changing the search term resets the page to 1 |
| HistoryPage.PageAfterDelete | frontend/src/components/HistoryPage.tsx:72-74 | the page goes back by one exactly when it showed one item and was not the first |
| HistoryPage.DeletingLoneItemMovesBack | frontend/src/components/HistoryPage.tsx:65-79 | deleting the only item of page p > 1 empties that page, and the page moved to is the new last page, which is full |
| HistoryPage.DeletingOneOfSeveralKeepsPage | frontend/src/components/HistoryPage.tsx:72-74 | deleting one of several items on a page keeps the page, and it is still non-empty |
| HistoryPage.ConfidenceColor | frontend/src/components/HistoryPage.tsx:96-100 | ≥ 80 is green, 60 up to 80 is yellow, below 60 is red |
| HistoryPage.ConfidenceColorMonotone | frontend/src/components/HistoryPage.tsx:96-100 | a higher confidence never gets a worse colour |

## Left out

- Network, language-model and PDF libraries are parameters of the model: the completion API (axios), Gemini, pdf-parse, PyPDF2 and `fs.readFile`. Their internal behaviour is not modelled.
- `JSON.parse` and `json.loads` are parameters too. Numbers are `real`, so NaN, Infinity and the int/float distinction are not modelled.
- Clocks and rounding are not modelled. `Date.now`, `time.time`, `round(…, 1)` and `new Date()` timestamps arrive as given values.
- Random ids and upload file names are not modelled. `Math.random().toString(36)` ids and uuid file names are passed in as fresh values.
- Concurrency is not modelled:
  - the background text extraction that `uploadDocument` starts without awaiting it (only applying its result is modelled);
  - the race between checking for an existing analysis and creating one;
  - the asynchronous provider functions of the front end, beyond the dispatch sequence of `loadAllAnalyses`.
- Logging (`console.error`, `app.logger`) is not modelled. It has no effect on results.
- Infrastructure is not part of this model: database configuration, server start-up, the gateway, the rate limiter's configuration, migrations and seeding.
- The `storeAnalysis`, `updateAnalysis`, `searchAnalyses` and `getStats` handlers imported by backend/db-service/routes/analyses.js are not part of this model. The analysis controller does not define them, so only their routes' validation is modelled.
- The `Analysis` model declares no `documentId` or `tokensUsed` column, yet the controller writes both. The stored row keeps every attribute the controller passes, whatever its JSON type.
- AnalysisController.CreateWithLlmStoresRow: column types are not modelled, and the store accepts any JSON value in any column. The MySQL table has FLOAT `confidence` and `processingTime` columns and a TEXT `summary`. A value such a column refuses makes the insert fail, and the controller then answers 500. An example is a truthy non-numeric confidence such as `"85%"` from the language model. The 201 this lemma promises therefore holds only for values the columns accept.
- DocumentController.UploadDocument: column widths are counted in the model's characters, where MySQL counts characters of the column's character set. The server is taken to run in strict SQL mode (the default since MySQL 5.7); without it, an overlong value is truncated and the insert succeeds. A duplicate key is reported only when every value fits, since the row's values are checked before the key.
- Store.DuplicateKey: the error's `fields` path is fixed as `id`. Sequelize's MySQL dialect reports the name of the violated index (for example `PRIMARY`), so the 409 message text may differ.
- AnalysisModel.ShortSummary: lengths and cut points are counted in Unicode code points, while JavaScript's `length` and `substring` count UTF-16 code units. A summary with characters outside the Basic Multilingual Plane (emoji, for instance) is therefore cut at a different place. The same holds for ShortSummaryBounds.
- Llm.PromptEmbedsPrefix: the 8000-character limit is counted in code points, not in the UTF-16 code units `substring` counts. The same holds for Llm.PromptLength and Llm.GenerationIgnoresTextBeyondLimit. The 15000-character limit of IaService is exact, because Python counts code points too.
- AnalysisSchema.BodyAcceptsIff: Joi's `min`/`max` string lengths are counted in code points rather than UTF-16 code units. The same holds for the other AnalysisSchema length rules: ActionItemAcceptsIff, ActionItemsAcceptsIff, ActionAcceptsIff, KeyPointsAcceptsIff, TagsAcceptsIff, ContentAcceptsIff and MetadataAcceptsIff.
- HistoryPage.SearchShowsExactlyMatches: `toLowerCase` is modelled for ASCII and Latin-1 letters only. Other scripts (Greek or Cyrillic, for instance) are compared without case folding, and substring search is over code points.
- HistoryPage.SearchIgnoresTermCase: holds for the modelled lower-casing (ASCII and Latin-1), not for full Unicode case folding.
- Front-end rendering, the mocked upload flow, fetch wrappers, date formatting and the colour and icon helpers repeated in other components are not part of this model.
- AnalysisController.ListAnalyses: requires page ≥ 1 and limit ≥ 1. The analysis listing route does not validate its query, and other values make the offset or `Math.ceil` meaningless.
- DocumentController.ListDocuments: requires page ≥ 1 and limit ≥ 1, which the pagination schema guarantees on that route (see Validation.AcceptedPaginationIsUsable). `sortBy`/`sortOrder` are validated but not used by the controller, so the order is always `uploadedAt DESC`.
- Joi is modelled only as far as the schemas use it:
  - a string is converted to a number only when it is an optional sign followed by decimal digits (no decimals, exponents or white space);
  - messages follow Joi's default templates for the rules in use;
  - other conversions and options are not modelled.
- DocumentController.ListingPagesCoverMatching: the model breaks ties between equal `uploadedAt` values by table order, because SortDesc is stable. `ORDER BY uploadedAt DESC` leaves the order of tied rows unspecified, and each page is a separate query. With tied timestamps (DATETIME has second precision) a document can therefore appear on two pages or on none. The guarantee holds for the source only when the timestamps are distinct. The same applies to the windows of DocumentController.ListDocuments.
- AnalysisController.ListingPagesCoverAnalyses: ties between equal `createdAt` values are broken by table order in the same way. The source guarantees the partition only for distinct timestamps, and the same applies to the windows of AnalysisController.ListAnalyses.
- Upload.Receive: multer's streaming is reduced to checking the parts in arrival order. Disk storage and the partial file of an aborted upload are not modelled.
- Timing-dependent values like `processingTime` are compared only through the given elapsed time. The FLOAT columns are not rounded.

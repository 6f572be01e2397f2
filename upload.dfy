/**
  The upload middleware of the storage service (backend/db-service/middleware/upload.js):
  the PDF-only file filter, the limits given to multer (one file, `MAX_FILE_SIZE` or
  50 MiB), the translation of upload errors into 400 answers, the presence check and
  the rule by which `cleanupOnError` deletes the stored file when an error is sent.
  Disk storage and the generated file names are not modelled.
*/
module Upload {
  import opened Common
  import Text
  import Joi
  import Errors

  const PdfMime := "application/pdf"
  const PdfOnlyMessage := "Seuls les fichiers PDF sont autorisés"
  const NoFileMessage := "Aucun fichier fourni"
  const FileTooLargeMessage := "Le fichier est trop volumineux (max 50MB)"
  const TooManyFilesMessage := "Trop de fichiers (max 1 fichier)"
  const UnexpectedFieldMessage := "Champ de fichier inattendu"
  const GenericUploadMessage := "Erreur lors de l'upload du fichier"

  /** The multipart field `upload.single('document')` reads. */
  const FieldName := "document"
  const DefaultMaxFileSize: int := 50 * 1024 * 1024
  const MaxFiles: nat := 1

  /** A file part of the multipart request as multer sees it. */
  datatype IncomingFile = IncomingFile(fieldname: string, originalname: string, mimetype: string, size: nat)

  /** `fileFilter`: the file is taken exactly when its MIME type is `application/pdf`. */
  function FileFilter(mimetype: string): (r: Result<bool, Errors.ThrownError>)
    ensures r.Ok? <==> mimetype == PdfMime
    ensures r.Ok? ==> r.value
    ensures r.Err? ==> r.error.message == PdfOnlyMessage && r.error.statusCode == None
  {
    if mimetype == PdfMime then Ok(true) else Err(Errors.PlainError(PdfOnlyMessage))
  }

  // ----- parseInt(process.env.MAX_FILE_SIZE) || 50 * 1024 * 1024 -----

  function DigitValue(c: char): (d: Option<nat>)
    ensures d.Some? ==> d.value < 16
  {
    if '0' <= c <= '9' then Some(c as int - '0' as int)
    else if 'a' <= c <= 'f' then Some(c as int - 'a' as int + 10)
    else if 'A' <= c <= 'F' then Some(c as int - 'A' as int + 10)
    else None
  }

  predicate IsDigitIn(c: char, radix: nat)
  {
    DigitValue(c).Some? && DigitValue(c).value < radix
  }

  /** The length of the longest prefix of `s` made of digits of `radix`. */
  function DigitsPrefix(s: string, radix: nat): (n: nat)
    ensures n <= |s|
    ensures forall i :: 0 <= i < n ==> IsDigitIn(s[i], radix)
    ensures n < |s| ==> !IsDigitIn(s[n], radix)
  {
    if s != [] && IsDigitIn(s[0], radix) then 1 + DigitsPrefix(s[1..], radix) else 0
  }

  /** One more digit `d` after the value `high`. */
  function Shift(high: nat, radix: nat, d: nat): nat
  {
    high * radix + d
  }

  function RadixValue(s: string, radix: nat): nat
    requires forall i :: 0 <= i < |s| ==> IsDigitIn(s[i], radix)
  {
    if s == [] then 0
    else
      var init := s[..|s| - 1];
      assert forall i :: 0 <= i < |init| ==> init[i] == s[i];
      assert IsDigitIn(s[|s| - 1], radix);
      Shift(RadixValue(init, radix), radix, DigitValue(s[|s| - 1]).value)
  }

  /**
    JavaScript `parseInt(s)` without a radix: leading white space is skipped, then an
    optional sign, then a `0x`/`0X` prefix switches to base 16; the longest run of
    digits that follows is the value, and without one the result is `NaN` (`None`).
  */
  function ParseInt(s: string): Option<int>
  {
    var t := Text.TrimStart(Text.JavaScript, s);
    var magnitude := ParseMagnitude(if t != [] && (t[0] == '-' || t[0] == '+') then t[1..] else t);
    if magnitude.None? then None
    else
      var m: int := magnitude.value;
      if t != [] && t[0] == '-' then Some(-m) else Some(m)
  }

  /** The digits after the sign, in base 16 after a `0x` or `0X` prefix, else in base 10. */
  function ParseMagnitude(u: string): Option<nat>
  {
    var hex := |u| >= 2 && u[0] == '0' && (u[1] == 'x' || u[1] == 'X');
    var radix := if hex then 16 else 10;
    var body := if hex then u[2..] else u;
    var n := DigitsPrefix(body, radix);
    if n == 0 then None else Some(RadixValue(body[..n], radix))
  }

  /** The `fileSize` limit: `NaN` (also from an unset variable) and 0 fall back to 50 MiB. */
  function MaxFileSize(env: Option<string>): (limit: int)
    ensures env.None? ==> limit == DefaultMaxFileSize
    ensures limit != 0
  {
    var parsed := if env.Some? then ParseInt(env.value) else None;
    if parsed.Some? && parsed.value != 0 then parsed.value else DefaultMaxFileSize
  }

  lemma {:induction false} DecimalIsJoiValue(s: string)
    requires forall i :: 0 <= i < |s| ==> '0' <= s[i] <= '9'
    ensures forall i :: 0 <= i < |s| ==> IsDigitIn(s[i], 10)
    ensures RadixValue(s, 10) == Joi.DigitsValue(s)
    decreases |s|
  {
    if s != [] {
      DecimalIsJoiValue(s[..|s| - 1]);
    }
  }

  lemma {:induction false} DecimalPrefixIsWhole(s: string)
    requires forall i :: 0 <= i < |s| ==> '0' <= s[i] <= '9'
    ensures DigitsPrefix(s, 10) == |s|
    decreases |s|
  {
    if s != [] {
      DecimalPrefixIsWhole(s[1..]);
    }
  }

  /** A string of decimal digits parses to its value. */
  lemma ParseIntOfDecimal(s: string)
    requires s != [] && forall i :: 0 <= i < |s| ==> '0' <= s[i] <= '9'
    ensures ParseInt(s) == Some(Joi.DigitsValue(s))
  {
    LeadingDigitIsNotSkipped(s);
    assert s[0] != '-' && s[0] != '+';
    MagnitudeOfDecimal(s);
  }

  /** White-space skipping stops at once on a leading digit. */
  lemma LeadingDigitIsNotSkipped(s: string)
    requires s != [] && '0' <= s[0] <= '9'
    ensures Text.TrimStart(Text.JavaScript, s) == s
  {
    assert !Text.IsSpace(Text.JavaScript, s[0]);
  }

  lemma MagnitudeOfDecimal(s: string)
    requires s != [] && forall i :: 0 <= i < |s| ==> '0' <= s[i] <= '9'
    ensures ParseMagnitude(s) == Some(Joi.DigitsValue(s))
  {
    assert !(|s| >= 2 && s[1] == 'x') && !(|s| >= 2 && s[1] == 'X') by {
      if |s| >= 2 {
        assert '0' <= s[1] <= '9';
      }
    }
    DecimalPrefixIsWhole(s);
    assert s[..|s|] == s;
    DecimalIsJoiValue(s);
  }

  /** `MAX_FILE_SIZE` written as a positive decimal number is the limit used. */
  lemma MaxFileSizeOfDecimal(n: nat)
    requires n > 0
    ensures MaxFileSize(Some(Text.NatToString(n))) == n
  {
    ParseIntOfDecimal(Text.NatToString(n));
    Joi.DigitsValueOfNatToString(n);
  }

  /** `MAX_FILE_SIZE=0` and a value that does not start with a number leave the default. */
  lemma MaxFileSizeFallsBack(env: string)
    requires ParseInt(env).None? || ParseInt(env) == Some(0)
    ensures MaxFileSize(Some(env)) == DefaultMaxFileSize
  {
  }

  // ----- What multer does with those options -----

  /** The errors an upload can end with: a `MulterError` with its code, or a thrown error. */
  datatype UploadFailure = MulterError(code: string) | Thrown(err: Errors.ThrownError)

  /**
    `upload.single('document')` with `limits: { fileSize, files: 1 }` over the file parts
    in the order they arrive: the first part must come in the `document` field and pass
    the filter and the size limit; a second file exceeds the file count. Without any
    part the request goes on without a file.
  */
  function Receive(parts: seq<IncomingFile>, limit: int): (r: Result<Option<IncomingFile>, UploadFailure>)
    ensures r == Ok(None) <==> parts == []
    ensures r.Ok? && r.value.Some? ==>
      && |parts| == MaxFiles && r.value.value == parts[0]
      && parts[0].fieldname == FieldName && parts[0].mimetype == PdfMime && parts[0].size <= limit
    ensures r.Err? && r.error.Thrown? ==> r.error.err.message == PdfOnlyMessage
  {
    if parts == [] then Ok(None)
    else
      var p := parts[0];
      if p.fieldname != FieldName then Err(MulterError("LIMIT_UNEXPECTED_FILE"))
      else if FileFilter(p.mimetype).Err? then Err(Thrown(FileFilter(p.mimetype).error))
      else if p.size > limit then Err(MulterError("LIMIT_FILE_SIZE"))
      else if |parts| > MaxFiles then Err(MulterError("LIMIT_FILE_COUNT"))
      else Ok(Some(p))
  }

  // ----- handleUploadError -----

  /** What an error middleware does: answer with a status and a message, or call `next(error)`. */
  datatype UploadReply = Respond(status: int, message: string) | Forward(failure: UploadFailure)

  function MulterMessage(code: string): string
  {
    if code == "LIMIT_FILE_SIZE" then FileTooLargeMessage
    else if code == "LIMIT_FILE_COUNT" then TooManyFilesMessage
    else if code == "LIMIT_UNEXPECTED_FILE" then UnexpectedFieldMessage
    else GenericUploadMessage
  }

  /**
    `handleUploadError`: every multer error is a 400 (with a message per code), the
    filter's error is a 400 with its own message, and anything else is passed on unchanged.
  */
  function HandleUploadError(failure: UploadFailure): (r: UploadReply)
    ensures failure.MulterError? ==> r == Respond(400, MulterMessage(failure.code))
    ensures failure.Thrown? && failure.err.message == PdfOnlyMessage ==> r == Respond(400, PdfOnlyMessage)
    ensures r.Forward? <==> failure.Thrown? && failure.err.message != PdfOnlyMessage
    ensures r.Forward? ==> r.failure == failure
  {
    match failure
    case MulterError(code) => Respond(400, MulterMessage(code))
    case Thrown(err) => if err.message == PdfOnlyMessage then Respond(400, err.message) else Forward(failure)
  }

  /** The four branches of the `switch` answer with four different messages. */
  lemma MulterMessagesDistinct(a: string, b: string)
    requires a in {"LIMIT_FILE_SIZE", "LIMIT_FILE_COUNT", "LIMIT_UNEXPECTED_FILE"}
    requires b !in {"LIMIT_FILE_SIZE", "LIMIT_FILE_COUNT", "LIMIT_UNEXPECTED_FILE"} || b != a
    ensures MulterMessage(a) != MulterMessage(b)
  {
  }

  /** Every way `Receive` can fail is answered with a 400; none reaches the global handler. */
  lemma ReceiveFailuresAreAnswered(parts: seq<IncomingFile>, limit: int)
    requires Receive(parts, limit).Err?
    ensures HandleUploadError(Receive(parts, limit).error).Respond?
    ensures HandleUploadError(Receive(parts, limit).error).status == 400
  {
  }

  // ----- validateFilePresence -----

  /** `validateFilePresence`: 400 without a file, `next()` (`None`) with one. */
  function ValidateFilePresence(file: Option<IncomingFile>): (r: Option<UploadReply>)
    ensures r.None? <==> file.Some?
    ensures r.Some? ==> r.value == Respond(400, NoFileMessage)
  {
    if file.None? then Some(Respond(400, NoFileMessage)) else None
  }

  // ----- cleanupOnError -----

  /**
    The file `cleanupOnError` unlinks when a response is sent: the stored path, exactly
    when the status is an error (at least 400) and the request carries a non-empty path.
  */
  function RemovalOnSend(statusCode: int, storedPath: Option<string>): (removed: Option<string>)
    ensures removed.Some? <==> statusCode >= 400 && storedPath.Some? && storedPath.value != ""
    ensures removed.Some? ==> removed == storedPath
  {
    if statusCode >= 400 && storedPath.Some? && storedPath.value != "" then storedPath else None
  }

  /**
    The response object after `cleanupOnError` has wrapped its `send`: the actual `send`
    and `fs.unlink` are recorded as the bodies sent and the paths removed.
  */
  class Response {
    var statusCode: int
    var sent: seq<string>
    var removed: seq<string>

    constructor ()
      ensures statusCode == 200 && sent == [] && removed == []
    {
      statusCode := 200;
      sent := [];
      removed := [];
    }

    method Status(code: int)
      modifies this
      ensures statusCode == code && sent == old(sent) && removed == old(removed)
    {
      statusCode := code;
    }

    /** The replaced `res.send(data)`: maybe unlink the file, then send as before. */
    method Send(data: string, storedPath: Option<string>)
      modifies this
      ensures statusCode == old(statusCode)
      ensures sent == old(sent) + [data]
      ensures var r := RemovalOnSend(old(statusCode), storedPath);
        removed == old(removed) + (if r.Some? then [r.value] else [])
    {
      var r := RemovalOnSend(statusCode, storedPath);
      if r.Some? {
        removed := removed + [r.value];
      }
      sent := sent + [data];
    }
  }

  // ----- The upload route -----

  /**
    What the middlewares of `POST /upload` leave behind: the `req.file.path` multer has
    set, if any, and the answer they send, if any (`None`: the request reaches the
    controller).
  */
  datatype RouteOutcome = RouteOutcome(storedPath: Option<string>, answer: Option<UploadReply>)

  /**
    `cleanupOnError`, `uploadSingle`, `handleUploadError` and `validateFilePresence` in
    route order, for the incoming file parts; `storedAt` is where disk storage puts an
    accepted file.
  */
  function UploadRoute(parts: seq<IncomingFile>, limit: int, storedAt: string): (o: RouteOutcome)
    ensures o.answer.None? <==> o.storedPath.Some?
  {
    match Receive(parts, limit)
    case Err(failure) => RouteOutcome(None, Some(HandleUploadError(failure)))
    case Ok(None) => RouteOutcome(None, ValidateFilePresence(None))
    case Ok(Some(file)) => RouteOutcome(Some(storedAt), ValidateFilePresence(Some(file)))
  }

  /**
    The cleanup never fires on the upload middlewares' own rejections: each of them is
    answered while `req.file` is unset, so nothing is unlinked. It fires on the answers
    that come later: once a file is stored, any error status the controller sends
    removes exactly that file, and a success removes nothing.
  */
  lemma MiddlewareRejectionsRemoveNothing(parts: seq<IncomingFile>, limit: int, storedAt: string, laterStatus: int)
    ensures var o := UploadRoute(parts, limit, storedAt);
      o.answer.Some? && o.answer.value.Respond? ==>
        o.answer.value.status == 400 && RemovalOnSend(o.answer.value.status, o.storedPath).None?
    ensures var o := UploadRoute(parts, limit, storedAt);
      o.answer.None? <==> Receive(parts, limit).Ok? && Receive(parts, limit).value.Some?
    ensures var o := UploadRoute(parts, limit, storedAt);
      o.answer.None? && storedAt != "" ==>
        (RemovalOnSend(laterStatus, o.storedPath) == Some(storedAt) <==> laterStatus >= 400)
  {
  }
}

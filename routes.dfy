/** The router's upload configuration: multer with in-memory storage, a
    16 MiB size limit and a mimetype allowlist, applied only to the two routes
    that take a multipart upload; and how an admitted upload reaches the
    handlers behind those routes. */
module Routes {
  import opened Common
  import MessageController

  /** `limits.fileSize`: 16 MiB. */
  const FileSizeLimit: nat := 16 * 1024 * 1024

  /** The mimetypes the file filter lets through, compared exactly. */
  const AllowedMimes: seq<string> := [
    "application/pdf",
    "application/msword",
    "application/vnd.openxmlformats-officedocument.wordprocessingml.document",
    "application/vnd.ms-excel",
    "application/vnd.openxmlformats-officedocument.spreadsheetml.sheet",
    "text/plain",
    "image/jpeg",
    "image/png",
    "image/gif",
    "image/webp",
    "audio/mpeg",
    "audio/wav",
    "audio/ogg",
    "video/mp4",
    "video/avi",
    "video/mov"
  ]

  const InvalidTypeMessage: string :=
    "Invalid file type. Only documents, images, audio, and video files are allowed."

  /** The two arguments the filter passes to multer's callback `cb`. */
  datatype FilterResult = FilterResult(error: Option<string>, accept: bool)

  /** `fileFilter(req, file, cb)`: accept a listed mimetype, otherwise refuse
      with an error. */
  function FileFilter(mimetype: string): (r: FilterResult)
    ensures r.accept <==> mimetype in AllowedMimes
    ensures r.accept ==> r.error.None?
    ensures !r.accept ==> r.error == Some(InvalidTypeMessage)
  {
    if mimetype in AllowedMimes then FilterResult(None, true)
    else FilterResult(Some(InvalidTypeMessage), false)
  }

  /** There is no wildcard and no case folding. */
  lemma FilterIsExact()
    ensures FileFilter("image/png").accept
    ensures !FileFilter("image/*").accept
    ensures !FileFilter("IMAGE/PNG").accept
    ensures !FileFilter("image/svg+xml").accept
    ensures |AllowedMimes| == 16 && FileSizeLimit == 16777216
  {
    assert AllowedMimes[7] == "image/png";
  }

  /** What multer does with the `file` part of a request: no part leaves
      `req.file` unset; a refused or oversized part ends the request with an
      error before the handler runs. */
  datatype UploadOutcome =
    | NoFile
    | Stored(file: UploadedFile)
    | Refused(error: Option<string>)

  function Upload(part: Option<UploadedFile>): (r: UploadOutcome)
    ensures part.None? <==> r == NoFile
    ensures r.Stored? <==> part.Some? && part.value.mimetype in AllowedMimes && part.value.Size() <= FileSizeLimit
    ensures r.Stored? ==> r.file == part.value
    ensures part.Some? && part.value.mimetype !in AllowedMimes ==> r == Refused(Some(InvalidTypeMessage))
  {
    match part
    case None => NoFile
    case Some(f) =>
      var verdict := FileFilter(f.mimetype);
      if !verdict.accept then Refused(verdict.error)
      else if f.Size() > FileSizeLimit then Refused(None)
      else Stored(f)
  }

  /** The routes of the router, and whether the upload middleware runs
      before the handler. */
  datatype Route = Route(verb: string, path: string, upload: bool)

  const Table: seq<Route> := [
    Route("GET", "/ping", false),
    Route("GET", "/status", false),
    Route("POST", "/message", false),
    Route("POST", "/message/group", false),
    Route("POST", "/document", false),
    Route("POST", "/document/upload", true),
    Route("POST", "/analyze-base64", false),
    Route("POST", "/convert-to-base64", true),
    Route("GET", "/logs", false),
    Route("GET", "/qr/status", false),
    Route("GET", "/qr/image", false),
    Route("POST", "/qr/logout", false),
    Route("POST", "/qr/regenerate", false),
    Route("POST", "/qr/clear-auth", false)
  ]

  /** Only the two multipart routes pass through the upload filter. */
  lemma UploadRoutes(i: nat)
    requires i < |Table|
    ensures Table[i].upload <==> Table[i].path == "/document/upload" || Table[i].path == "/convert-to-base64"
  {
  }

  /** The outcome of a request through an upload route: refused by multer,
      or handled. */
  datatype Routed<T> = UploadRefused(error: Option<string>) | Reached(handled: T)

  /** `POST /document/upload`: the upload middleware, then
      `sendDocumentMessageFormData`. */
  function DocumentUpload(phoneNumber: JsValue, caption: JsValue, part: Option<UploadedFile>,
                          isConnected: bool, result: Attempt<string>): (r: Routed<MessageController.Handled>)
    ensures r.UploadRefused? <==> Upload(part).Refused?
    ensures r.Reached? ==> r.handled == MessageController.SendDocumentMessageFormData(
      phoneNumber, caption, if part.Some? then Some(part.value) else None, isConnected, result)
  {
    match Upload(part)
    case Refused(e) => UploadRefused(e)
    case NoFile => Reached(MessageController.SendDocumentMessageFormData(phoneNumber, caption, None, isConnected, result))
    case Stored(f) => Reached(MessageController.SendDocumentMessageFormData(phoneNumber, caption, Some(f), isConnected, result))
  }

  /** A document that reaches the service through the upload route has an
      allowed mimetype and at most 16 MiB of content. */
  lemma UploadedDocumentsAreAdmissible(phoneNumber: JsValue, caption: JsValue, part: Option<UploadedFile>,
                                       isConnected: bool, result: Attempt<string>)
    ensures var r := DocumentUpload(phoneNumber, caption, part, isConnected, result);
      r.Reached? && r.handled.call.Some? ==>
        && r.handled.call.value.mimetype.Str? && r.handled.call.value.mimetype.s in AllowedMimes
        && |r.handled.call.value.buffer| <= FileSizeLimit
  {
  }

  /** `POST /convert-to-base64`: the upload middleware, then
      `convertFileToBase64`. */
  function ConvertUpload(part: Option<UploadedFile>): (r: Routed<MessageController.Response>)
    ensures r.UploadRefused? <==> Upload(part).Refused?
    ensures r.Reached? ==> r.handled == MessageController.ConvertFileToBase64(part)
  {
    match Upload(part)
    case Refused(e) => UploadRefused(e)
    case NoFile => Reached(MessageController.ConvertFileToBase64(None))
    case Stored(f) => Reached(MessageController.ConvertFileToBase64(Some(f)))
  }
}

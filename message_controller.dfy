/** The message controller: the HTTP handlers for text, document, analysis and
    conversion requests. Each handler is an ordered chain of early returns over
    the request body and the service's `isConnected` flag, ending in at most one
    call on the service. The handler's outcome is returned as a value: the
    service call it made, if any, and the JSON response. What the service call
    returns (its result message, or the error it threw) is a parameter. */
module MessageController {
  import opened Common
  import opened StrUtil
  import opened DataUrl
  import Base64

  /** A call a handler makes on the WhatsApp service. */
  datatype ServiceCall =
      /** `whatsappService.sendMessage(phoneNumber, message)` */
    | SendPersonal(phoneNumber: JsValue, message: string)
      /** `whatsappService.sendGroupMessage(groupId, message)` */
    | SendGroup(groupId: JsValue, message: string)
      /** `whatsappService.sendDocumentMessage(phoneNumber, { buffer, mimetype, originalname }, caption)` */
    | SendDocument(phoneNumber: JsValue, buffer: seq<byte>, mimetype: JsValue, originalname: JsValue, caption: JsValue)

  /** The `data` object of a successful response (timestamps are not modelled). */
  datatype Data =
    | NoData
    | TextSent(recipient: JsValue, message: string)
      /** `sentName` and `sentType` are the response's `filename` and `mimetype` */
    | DocumentSent(phoneNumber: JsValue, sentName: JsValue, sentType: JsValue, fileSize: nat, caption: JsValue)
    | Analysis(filename: string, mimetype: string, fileSize: nat, isDataUrl: bool)
    | Converted(fileName: string, fileSize: nat, mimeType: string, base64: string)

  /** A JSON response: status code, `success`, `error` (empty on success),
      `message`, `data`. */
  datatype Response = Response(status: nat, success: bool, error: string, message: string, data: Data)

  /** What a handler did: the service call it made, and its response. */
  datatype Handled = Handled(call: Option<ServiceCall>, response: Response)

  const MissingFieldsError: string := "Missing required fields"
  const InvalidFormatError: string := "Invalid message format"
  const InvalidFormatMessage: string := "Message must be a non-empty string"
  const UnavailableError: string := "Service unavailable"
  const UnavailableMessage: string := "WhatsApp is not connected. Please check connection status."
  const SendFailedError: string := "Failed to send message"
  const GroupSendFailedError: string := "Failed to send group message"
  const NoFileError: string := "No file provided"
  const NoFileMessage: string := "Please provide a base64 file to analyze"
  const AnalyzeFailedError: string := "Failed to analyze base64 file"
  const AnalyzedMessage: string := "Base64 file analyzed successfully"
  const NoUploadError: string := "No file uploaded"
  const NoUploadMessage: string := "Please upload a file to convert to base64"
  const ConvertedMessage: string := "File converted to base64 successfully"

  function Failure(status: nat, error: string, message: string): Response {
    Response(status, false, error, message, NoData)
  }

  /** The 503 answer every sending handler gives while disconnected. */
  const Unavailable: Response := Failure(503, UnavailableError, UnavailableMessage)

  /** `a || b` where `b` is a string. */
  function Or(a: JsValue, b: string): (r: JsValue)
    ensures Truthy(a) ==> r == a
    ensures !Truthy(a) ==> r == Str(b)
    ensures Truthy(r) <==> Truthy(a) || b != ""
  {
    if Truthy(a) then a else Str(b)
  }

  /** The message field is usable: a string with something besides whitespace. */
  predicate UsableText(message: JsValue) {
    message.Str? && !IsBlank(message.s)
  }

  /** The checks both text handlers make before sending, in order: both
      fields present (400), the message a non-blank string (400), the service
      connected (503). None when every check passes. `recipientField` is the
      name of the recipient field in the error text. */
  function TextRequestError(recipientField: string, recipient: JsValue, message: JsValue, isConnected: bool): (r: Option<Response>)
    ensures r.None? <==> Truthy(recipient) && UsableText(message) && isConnected
    ensures !Truthy(recipient) || !Truthy(message) ==>
      r == Some(Failure(400, MissingFieldsError, recipientField + " and message are required"))
    ensures Truthy(recipient) && Truthy(message) && !UsableText(message) ==>
      r == Some(Failure(400, InvalidFormatError, InvalidFormatMessage))
    ensures Truthy(recipient) && UsableText(message) && !isConnected ==> r == Some(Unavailable)
  {
    if !Truthy(recipient) || !Truthy(message) then
      Some(Failure(400, MissingFieldsError, recipientField + " and message are required"))
    else if !message.Str? || Trim(message.s) == "" then
      TrimEmptyIffBlank(if message.Str? then message.s else "");
      Some(Failure(400, InvalidFormatError, InvalidFormatMessage))
    else if !isConnected then
      TrimEmptyIffBlank(message.s);
      Some(Unavailable)
    else
      TrimEmptyIffBlank(message.s);
      None
  }

  /** The response once the service has been called: 200 with the service's
      message, or 500 with the error it threw. */
  function AfterSend(result: Attempt<string>, failure: string, data: Data): (r: Response)
    ensures r.success <==> result.Returned?
    ensures result.Returned? ==> r == Response(200, true, "", result.value, data)
    ensures result.Threw? ==> r == Failure(500, failure, result.message)
  {
    match result
    case Returned(message) => Response(200, true, "", message, data)
    case Threw(message) => Failure(500, failure, message)
  }

  /** `sendPersonalMessage`. The service is called only when every check
      passes, and then with the trimmed message, which is never empty. */
  function SendPersonalMessage(phoneNumber: JsValue, message: JsValue, isConnected: bool, result: Attempt<string>): (h: Handled)
    ensures h.call.Some? <==> TextRequestError("phoneNumber", phoneNumber, message, isConnected).None?
    ensures h.call.None? ==> h.response == TextRequestError("phoneNumber", phoneNumber, message, isConnected).value
    ensures h.call.Some? ==>
      && h.call.value == SendPersonal(phoneNumber, Trim(message.s))
      && h.call.value.message != []
      && h.response == AfterSend(result, SendFailedError, TextSent(phoneNumber, Trim(message.s)))
  {
    match TextRequestError("phoneNumber", phoneNumber, message, isConnected)
    case Some(refusal) => Handled(None, refusal)
    case None =>
      var text := Trim(message.s);
      TrimEmptyIffBlank(message.s);
      Handled(Some(SendPersonal(phoneNumber, text)), AfterSend(result, SendFailedError, TextSent(phoneNumber, text)))
  }

  /** `sendGroupMessage`: the same chain as the personal handler, naming
      `groupId`. */
  function SendGroupMessage(groupId: JsValue, message: JsValue, isConnected: bool, result: Attempt<string>): (h: Handled)
    ensures h.call.Some? <==> TextRequestError("groupId", groupId, message, isConnected).None?
    ensures h.call.None? ==> h.response == TextRequestError("groupId", groupId, message, isConnected).value
    ensures h.call.Some? ==>
      && h.call.value == SendGroup(groupId, Trim(message.s))
      && h.call.value.message != []
      && h.response == AfterSend(result, GroupSendFailedError, TextSent(groupId, Trim(message.s)))
  {
    match TextRequestError("groupId", groupId, message, isConnected)
    case Some(refusal) => Handled(None, refusal)
    case None =>
      var text := Trim(message.s);
      TrimEmptyIffBlank(message.s);
      Handled(Some(SendGroup(groupId, text)), AfterSend(result, GroupSendFailedError, TextSent(groupId, text)))
  }

  /** A text request that fails a check never reaches the service, and the
      first failing check decides the status: 400 before 503. */
  lemma {:induction false} TextCheckOrder(phoneNumber: JsValue, message: JsValue, isConnected: bool, result: Attempt<string>)
    ensures var h := SendPersonalMessage(phoneNumber, message, isConnected, result);
      && (!Truthy(phoneNumber) || !UsableText(message) ==> h.call.None? && h.response.status == 400)
      && (Truthy(phoneNumber) && UsableText(message) && !isConnected ==> h.call.None? && h.response.status == 503)
  {
    var h := SendPersonalMessage(phoneNumber, message, isConnected, result);
    if !Truthy(phoneNumber) || !UsableText(message) {
      if message.Str? && !Truthy(message) {
        assert message.s == [];
      }
    }
  }

  /** `sendDocumentMessage`: both fields present (400), then connected (503),
      and only then is the file parsed; a request `filename` or `mimetype`
      overrides the extracted one when truthy. */
  function SendDocumentMessage(phoneNumber: JsValue, file: JsValue, caption: JsValue, filename: JsValue, mimetype: JsValue,
                               isConnected: bool, decode: string -> seq<byte>, result: Attempt<string>): (h: Handled)
    ensures !Truthy(phoneNumber) || !Truthy(file) ==>
      h == Handled(None, Failure(400, MissingFieldsError, "phoneNumber and file are required"))
    ensures Truthy(phoneNumber) && Truthy(file) && !isConnected ==> h == Handled(None, Unavailable)
    ensures Truthy(phoneNumber) && Truthy(file) && isConnected && !file.Str? ==>
      h == Handled(None, Failure(500, SendFailedError, InvalidBase64Error))
    ensures h.call.Some? <==> Truthy(phoneNumber) && Truthy(file) && file.Str? && isConnected
    ensures h.call.Some? ==>
      var info := ExtractFileInfo(file, decode).value;
      var name, kind := Or(filename, info.filename), Or(mimetype, info.mimetype);
      && h.call.value == SendDocument(phoneNumber, info.buffer, kind, name, caption)
      && h.response == AfterSend(result, SendFailedError, DocumentSent(phoneNumber, name, kind, |info.buffer|, caption))
  {
    if !Truthy(phoneNumber) || !Truthy(file) then
      Handled(None, Failure(400, MissingFieldsError, "phoneNumber and file are required"))
    else if !isConnected then
      Handled(None, Unavailable)
    else
      match ExtractFileInfo(file, decode)
      case Threw(e) => Handled(None, Failure(500, SendFailedError, e))
      case Returned(info) =>
        var finalFilename := Or(filename, info.filename);
        var finalMimetype := Or(mimetype, info.mimetype);
        Handled(Some(SendDocument(phoneNumber, info.buffer, finalMimetype, finalFilename, caption)),
                AfterSend(result, SendFailedError, DocumentSent(phoneNumber, finalFilename, finalMimetype, |info.buffer|, caption)))
  }

  /** A document sent from a data URL without overrides carries the media
      type, the `filename="…"` name and the decoded payload of the URL. */
  lemma DocumentFromDataUrl(phoneNumber: JsValue, mediaType: string, payload: string, caption: JsValue,
                            decode: string -> seq<byte>, result: Attempt<string>)
    requires Truthy(phoneNumber) && Matches(DataPrefix + mediaType + Base64Marker + payload, mediaType, payload)
    ensures var h := SendDocumentMessage(phoneNumber, Str(DataPrefix + mediaType + Base64Marker + payload), caption,
                                         Undefined, Undefined, true, decode, result);
      h.call == Some(SendDocument(phoneNumber, decode(payload), Str(mediaType), Str(FilenameOf(mediaType)), caption))
  {
    var s := DataPrefix + mediaType + Base64Marker + payload;
    MatchComplete(s, mediaType, payload);
    assert FilenameOf(mediaType) != [];
  }

  /** `analyzeBase64File` (the source defines it twice with the same body;
      the second definition is the one in effect). */
  function AnalyzeBase64File(file: JsValue, decode: string -> seq<byte>): (r: Response)
    ensures !Truthy(file) ==> r == Failure(400, NoFileError, NoFileMessage)
    ensures Truthy(file) && !file.Str? ==> r == Failure(500, AnalyzeFailedError, InvalidBase64Error)
    ensures Truthy(file) && file.Str? ==>
      var info := ExtractFileInfo(file, decode).value;
      && r.status == 200 && r.success && r.message == AnalyzedMessage
      && r.data == Analysis(info.filename, info.mimetype, |info.buffer|, StartsWith(file.s, DataPrefix))
  {
    if !Truthy(file) then Failure(400, NoFileError, NoFileMessage)
    else
      match ExtractFileInfo(file, decode)
      case Threw(e) => Failure(500, AnalyzeFailedError, e)
      case Returned(info) =>
        Response(200, true, "", AnalyzedMessage,
                 Analysis(info.filename, info.mimetype, |info.buffer|, StartsWith(file.s, DataPrefix)))
  }

  /** A file reported as not a data URL was read as bare base64: the fallback
      media type and name, and the whole string decoded. */
  lemma NotDataUrlFallsBack(s: string, decode: string -> seq<byte>)
    requires s != [] && !StartsWith(s, DataPrefix)
    ensures AnalyzeBase64File(Str(s), decode) ==
      Response(200, true, "", AnalyzedMessage, Analysis(FallbackFilename, FallbackMimetype, |decode(s)|, false))
  {
  }

  /** `sendDocumentMessageFormData`: phone number and upload present (400),
      connected (503), then the upload's buffer, mimetype and original name go
      to the service unchanged. */
  function SendDocumentMessageFormData(phoneNumber: JsValue, caption: JsValue, upload: Option<UploadedFile>,
                                       isConnected: bool, result: Attempt<string>): (h: Handled)
    ensures !Truthy(phoneNumber) || upload.None? ==>
      h == Handled(None, Failure(400, MissingFieldsError, "phoneNumber and file are required"))
    ensures Truthy(phoneNumber) && upload.Some? && !isConnected ==> h == Handled(None, Unavailable)
    ensures h.call.Some? <==> Truthy(phoneNumber) && upload.Some? && isConnected
    ensures h.call.Some? ==>
      var f := upload.value;
      && h.call.value == SendDocument(phoneNumber, f.buffer, Str(f.mimetype), Str(f.originalname), caption)
      && h.response == AfterSend(result, SendFailedError,
                                 DocumentSent(phoneNumber, Str(f.originalname), Str(f.mimetype), f.Size(), caption))
  {
    if !Truthy(phoneNumber) || upload.None? then
      Handled(None, Failure(400, MissingFieldsError, "phoneNumber and file are required"))
    else if !isConnected then
      Handled(None, Unavailable)
    else
      var f := upload.value;
      Handled(Some(SendDocument(phoneNumber, f.buffer, Str(f.mimetype), Str(f.originalname), caption)),
              AfterSend(result, SendFailedError, DocumentSent(phoneNumber, Str(f.originalname), Str(f.mimetype), f.Size(), caption)))
  }

  /** `convertFileToBase64`: the upload's buffer as base64 text, which decodes
      back to exactly that buffer. */
  function ConvertFileToBase64(upload: Option<UploadedFile>): (r: Response)
    ensures upload.None? ==> r == Failure(400, NoUploadError, NoUploadMessage)
    ensures upload.Some? ==>
      && r.status == 200 && r.success && r.message == ConvertedMessage && r.data.Converted?
      && r.data.fileName == upload.value.originalname && r.data.mimeType == upload.value.mimetype
      && r.data.fileSize == upload.value.Size()
      && Base64.Decode(r.data.base64) == Some(upload.value.buffer)
  {
    match upload
    case None => Failure(400, NoUploadError, NoUploadMessage)
    case Some(f) =>
      var text := Base64.Encode(f.buffer);
      Base64.DecodeEncode(f.buffer);
      Response(200, true, "", ConvertedMessage, Converted(f.originalname, f.Size(), f.mimetype, text))
  }

  /** Converting an upload and analysing the text returned: a non-empty file
      is reported with its own size as bare base64 (the text never starts with
      `data:`); an empty file gives empty text, which the analysis refuses as
      missing. `decode` is any decoder that agrees with canonical decoding. */
  lemma ConvertThenAnalyze(f: UploadedFile, decode: string -> seq<byte>)
    requires forall s :: Base64.Decode(s).Some? ==> decode(s) == Base64.Decode(s).value
    ensures var text := ConvertFileToBase64(Some(f)).data.base64;
      AnalyzeBase64File(Str(text), decode) ==
        if |f.buffer| == 0 then Failure(400, NoFileError, NoFileMessage)
        else Response(200, true, "", AnalyzedMessage, Analysis(FallbackFilename, FallbackMimetype, f.Size(), false))
  {
    var text := Base64.Encode(f.buffer);
    assert ConvertFileToBase64(Some(f)).data.base64 == text;
    if |f.buffer| > 0 {
      Base64.EncodeHasNoColon(f.buffer);
      NoColonNoPrefix(text);
      Base64.DecodeEncode(f.buffer);
      assert |decode(text)| == f.Size();
      NotDataUrlFallsBack(text, decode);
    }
  }
}

/** The QR controller: serving the pairing QR image, reporting whether a QR
    code is available, and the three session actions. The service methods these
    handlers call besides `getStatus` (`hasQRCodeImage`, `getQRCodeImagePath`,
    `logout`, `regenerateQR`, `clearAuth`, the `qrCodeImagePath` status field)
    are not part of this model: their outcomes are parameters, each either a
    returned value or a thrown error. */
module QrController {
  import opened Common
  import opened Connection

  /** A response header. */
  datatype Header = Header(name: string, value: string)

  /** The headers set before the image is streamed. */
  const ImageHeaders: seq<Header> := [
    Header("Content-Type", "image/png"),
    Header("Cache-Control", "no-cache, no-store, must-revalidate"),
    Header("Pragma", "no-cache"),
    Header("Expires", "0")
  ]

  /** The `data` of a JSON response. */
  datatype Data =
    | NoData
      /** `getQRStatus`: `qrAvailable`, `connectionStatus`, `qrCodeImageUrl` */
    | QrStatus(qrAvailable: bool, connectionStatus: ConnectionStatus, qrCodeImageUrl: JsValue)
      /** a session action: the service's `message` and the status read after it */
    | ActionDone(message: string, connectionStatus: ConnectionStatus)

  /** What a handler sends: a JSON body, or the file at `path` streamed with
      `headers`. */
  datatype Reply =
    | Json(status: nat, success: bool, error: string, message: string, data: Data)
    | ImageStream(headers: seq<Header>, path: string)

  const NotAvailableError: string := "QR Code not available"
  const NotAvailableMessage: string := "WhatsApp is not in QR code generation state"
  const ImageMissingError: string := "QR Code image not found"
  const ImageMissingMessage: string := "QR Code image file does not exist"
  const ServeFailedError: string := "Failed to serve QR code image"

  /** `getQRImage`. `hasImage` and `imagePath` are the outcomes of
      `hasQRCodeImage()` and `getQRCodeImagePath()`. */
  function GetQRImage(status: ConnectionStatus, hasImage: Attempt<bool>, imagePath: Attempt<string>): (r: Reply)
    ensures status != QrReady ==> r == Json(404, false, NotAvailableError, NotAvailableMessage, NoData)
    ensures status == QrReady && hasImage == Returned(false) ==>
      r == Json(404, false, ImageMissingError, ImageMissingMessage, NoData)
    ensures r.ImageStream? <==> status == QrReady && hasImage == Returned(true) && imagePath.Returned?
    ensures r.ImageStream? ==> r.headers == ImageHeaders && r.path == imagePath.value
    ensures status == QrReady && hasImage.Threw? ==> r == Json(500, false, ServeFailedError, hasImage.message, NoData)
    ensures status == QrReady && hasImage == Returned(true) && imagePath.Threw? ==>
      r == Json(500, false, ServeFailedError, imagePath.message, NoData)
  {
    if status != QrReady then Json(404, false, NotAvailableError, NotAvailableMessage, NoData)
    else
      match hasImage
      case Threw(e) => Json(500, false, ServeFailedError, e, NoData)
      case Returned(present) =>
        if !present then Json(404, false, ImageMissingError, ImageMissingMessage, NoData)
        else
          match imagePath
          case Threw(e) => Json(500, false, ServeFailedError, e, NoData)
          case Returned(path) => ImageStream(ImageHeaders, path)
  }

  /** Outside the QR state the reply does not depend on the image check at all. */
  lemma QrStateGatesImage(status: ConnectionStatus, h1: Attempt<bool>, p1: Attempt<string>,
                          h2: Attempt<bool>, p2: Attempt<string>)
    requires status != QrReady
    ensures GetQRImage(status, h1, p1) == GetQRImage(status, h2, p2)
    ensures GetQRImage(status, h1, p1).Json? && GetQRImage(status, h1, p1).status == 404
  {
  }

  /** `getQRStatus`. `imageUrl` is the status's `qrCodeImagePath` field. */
  function GetQRStatus(status: ConnectionStatus, imageUrl: JsValue): (r: Reply)
    ensures r.Json? && r.status == 200 && r.success && r.data.QrStatus?
    ensures r.data.qrAvailable <==> status == QrReady
    ensures r.data.connectionStatus == status && r.data.qrCodeImageUrl == imageUrl
  {
    NameInjective(status, QrReady);
    Json(200, true, "", "", QrStatus(status.Name() == "qr_ready", status, imageUrl))
  }

  /** The three session actions, which differ only in the error title. */
  datatype SessionAction = Logout | RegenerateQR | ClearAuth {
    function FailureTitle(): string {
      match this
      case Logout => "Failed to logout"
      case RegenerateQR => "Failed to regenerate QR code"
      case ClearAuth => "Failed to clear authentication"
    }
  }

  /** The `{ success, message }` a session action returns. */
  datatype ActionResult = ActionResult(success: bool, message: string)

  /** `logout`, `regenerateQR` and `clearAuth`. `statusAfter` is the
      connection status read once the action has finished. */
  function RunSessionAction(action: SessionAction, result: Attempt<ActionResult>, statusAfter: ConnectionStatus): (r: Reply)
    ensures r.Json?
    ensures result.Returned? ==>
      && r.status == 200 && r.success == result.value.success
      && r.data == ActionDone(result.value.message, statusAfter)
    ensures result.Threw? ==> r == Json(500, false, action.FailureTitle(), result.message, NoData)
  {
    match result
    case Returned(outcome) => Json(200, outcome.success, "", "", ActionDone(outcome.message, statusAfter))
    case Threw(e) => Json(500, false, action.FailureTitle(), e, NoData)
  }

  /** An action the service reports as failed is still answered with 200. */
  lemma FailedActionIsStillOk(action: SessionAction, message: string, statusAfter: ConnectionStatus)
    ensures var r := RunSessionAction(action, Returned(ActionResult(false, message)), statusAfter);
      r.status == 200 && !r.success
  {
  }
}

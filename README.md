# wa-api core in Dafny

wa-api is a small HTTP gateway in front of a WhatsApp Web session. A singleton
`WhatsAppService` holds the session and its connection state. Controllers
validate HTTP requests and hand text and documents to that service. An API-token
middleware guards requests. A moderation plugin answers group-status mentions in
two watched groups by deleting the message and removing its sender.

This project models the logic of that core:

- the service's connection fields and how `connection.update` rewrites them
  (`Connection` for the transition function and its invariants; `Service` for
  the class whose methods are proved against it);
- the recipient address rules (`Jid`) and the message watermark (`Watermark`);
- the anti-mention rule as the ordered list of socket calls it makes (`AntiMention`);
- the request handlers of the message and QR controllers as early-return chains
  whose outcome is a value: the service call made, if any, and the JSON response
  (`MessageController`, `QrController`);
- the data-URL parser, with the regular expressions modelled exactly (`DataUrl`);
- base64 encoding as section 4 of RFC 4648 defines it, with a decoder and a
  round-trip proof (`Base64`);
- the token middleware (`Auth`);
- the upload allowlist, the size limit and the upload routes (`Routes`).

The socket is never run. Every call made on it is recorded in a sequence
(`Socket.SockCall`). Each `initialize()` that the close handler starts is
counted. What the socket, the undefined service methods and Node's base64
decoder answer is passed in as a parameter.

Three behaviours of the code are worth stating plainly:

- `isConnected` does not mean "the status is `connected`". Only one direction
  holds: a `connecting` update after `open` keeps the flag set
  (`Connection.FlagOutlivesConnectedStatus`). The invariant the service keeps
  is `Connection.Consistent`.
- `initialize` never sets the status `connecting`; only a `connecting` update
  does.
- A logged-out close keeps `qrCode` as it was.

## Model

| member | source | states |
|---|---|---|
| Connection.NameInjective | src/services/whatsapp.service.js:19-85 | the seven status strings the service assigns are pairwise distinct, so comparing strings is comparing statuses |
| Connection.Apply | src/services/whatsapp.service.js:58-86 | a non-empty `qr` sets the QR code and `qr_ready` unless the same update's connection branch overwrites the status; `close` clears the flag and gives `reconnecting` or, for code 401, `logged_out`, keeping the QR code; `open` sets the flag, `connected` and clears the QR code; `connecting` changes only the status; the socket is untouched and the flag changes only on `open`/`close` |
| Connection.ReinitRequests | src/services/whatsapp.service.js:65-77 | `initialize()` is called again exactly once for a close whose code is not `loggedOut` (an absent code included), and never otherwise |
| Connection.OpenIdempotent | src/services/whatsapp.service.js:78-82 | applying `open` twice gives the same state as applying it once |
| Connection.Initialize | src/services/whatsapp.service.js:24-51 | success installs a fresh socket and leaves status, flag and QR code alone; failure sets status `error` and changes nothing else |
| Connection.InitialConsistent | src/services/whatsapp.service.js:16-22 | the constructor's state satisfies the field relations |
| Connection.StepConsistent | src/services/whatsapp.service.js:24-87 | every initialisation outcome and every update keeps the field relations: `connected` implies the flag and no QR code; `disconnected`/`reconnecting`/`logged_out` imply no flag; `qr_ready` implies a QR code; the flag implies a socket |
| Connection.RunConsistent | src/services/whatsapp.service.js:24-87 | any sequence of events keeps the field relations |
| Connection.ReachableConsistent | src/services/whatsapp.service.js:16-87 | every state reachable from the constructor satisfies the field relations |
| Connection.FlagNeedsOpenOrClose | src/services/whatsapp.service.js:83-86 | a run with no `open` and no `close` update leaves `isConnected` unchanged |
| Connection.FlagOutlivesConnectedStatus | src/services/whatsapp.service.js:78-86 | after `open` then `connecting`, `isConnected` is true while the status is `connecting` |
| Service.WhatsAppService.constructor | src/services/whatsapp.service.js:16-22 | no socket, not connected, `disconnected`, no QR code, no calls made |
| Service.WhatsAppService.Initialize | src/services/whatsapp.service.js:24-51 | the fields become `Connection.Initialize` of the old fields, and the field relations still hold |
| Service.WhatsAppService.HandleConnectionUpdate | src/services/whatsapp.service.js:55-87 | the fields become `Connection.Apply` of the old fields, the field relations still hold, and the re-initialise count grows by `ReinitRequests` |
| Service.WhatsAppService.HandleMessagesUpsert | src/services/whatsapp.service.js:91-100 | only the first message of a non-empty batch goes through the anti-mention rule, and exactly its calls are appended |
| Service.WhatsAppService.SendMessage | src/services/whatsapp.service.js:103-135 | when not connected: throws `WhatsApp not connected` and makes no call; otherwise exactly one text send to the normalised personal address, with the message followed by the watermark, then the socket's error or `Message sent successfully` |
| Service.WhatsAppService.SendGroupMessage | src/services/whatsapp.service.js:137-160 | as SendMessage, to the group address, answering `Group message sent successfully` |
| Service.WhatsAppService.GetStatus | src/services/whatsapp.service.js:162-169 | reports the current flag, status and QR code |
| Service.WhatsAppService.IsServiceAlive | src/services/whatsapp.service.js:171-173 | true exactly when a socket has been made |
| Service.SendWhileDisconnected | src/services/whatsapp.service.js:105-107 | while disconnected, both sends fail with `WhatsApp not connected` and the socket sees nothing |
| Service.PairAndSend | src/services/whatsapp.service.js:39-129 | from a fresh service: socket made, QR shown, pairing, then a message to `0<digits>` is the only call, a text send to `62<digits>@s.whatsapp.net` carrying the message and the watermark |
| Jid.DigitsOnly | src/services/whatsapp.service.js:110 | the result is all digits, no longer than the input, and equal to it when it is already all digits |
| Jid.DigitsOnlyAppend | src/services/whatsapp.service.js:110 | stripping non-digits distributes over concatenation |
| Jid.NormalizePhone | src/services/whatsapp.service.js:110-117 | the number is all digits and starts with `62`: a leading `62` is kept, a leading `0` is replaced by `62`, otherwise `62` is prepended |
| Jid.NormalizePhoneIdempotent | src/services/whatsapp.service.js:110-117 | normalising a normalised number changes nothing |
| Jid.PersonalJid | src/services/whatsapp.service.js:110-119 | the address is a run of digits followed by `@s.whatsapp.net` |
| Jid.PersonalJidShape | src/services/whatsapp.service.js:119 | a personal address starts with `62` and never contains `@g.us` |
| Jid.GroupJid | src/services/whatsapp.service.js:144 | an id containing `@g.us` anywhere is kept, any other gets `@g.us` appended, and the result always contains `@g.us` |
| Jid.GroupJidIdempotent | src/services/whatsapp.service.js:144 | a group address is left as it is |
| Jid.TrunkPrefixReplaced | src/services/whatsapp.service.js:112-119 | any all-digit local number written with a leading `0` is addressed as `62`, the digits after the `0`, then `@s.whatsapp.net` |
| Jid.CountryCodeKept | src/services/whatsapp.service.js:111-119 | a number already starting with `62` is addressed unchanged, followed by `@s.whatsapp.net` |
| Jid.PunctuationIgnored | src/services/whatsapp.service.js:110-119 | a leading `+` and a `-` separator anywhere in the number make no difference to the address |
| Watermark.BrandAsWritten | src/services/whatsapp.service.js:124 | the brand as the code computes it begins with the capitalised first letter |
| Watermark.Brand | src/services/whatsapp.service.js:124 | the corrected brand is the first hyphen-separated word of the package name, capitalised, with no `-` after its first character |
| Watermark.BrandAgreesWithHyphen | src/services/whatsapp.service.js:124 | for a package name containing `-`, the code's brand equals the corrected one |
| Watermark.BrandAsWrittenDropsLastLetter | src/services/whatsapp.service.js:124 | for a package name without `-`, the code's brand is the corrected one minus its last letter |
| Watermark.BrandCounterexample | src/services/whatsapp.service.js:124 | for `whatsapp` the code gives `Whatsap` where `Whatsapp` is meant |
| Watermark.UpperAscii | src/services/whatsapp.service.js:124 | `toUpperCase()` of one character: a lower-case ASCII letter moves down by 32, anything else is kept |
| Watermark.IndexOrMinusOne | src/services/whatsapp.service.js:124 | `indexOf('-')`: the first index holding the character, with none before it, or -1 exactly when it is absent |
| Watermark.Slice | src/services/whatsapp.service.js:124 | `slice(start, end)`: a negative end counts from the back, an end past the string is clamped, and the result is the characters from `start` up to that end, or empty |
| Watermark.Suffix | src/services/whatsapp.service.js:124 | the watermark both send methods append (line 149 repeats it), with the brand as the code computes it: a blank line and `> Sent via `, the upper-cased first letter, and it ends in `> @<author>/<name>.git` |
| Watermark.SuffixWithHyphen | src/services/whatsapp.service.js:124 | for a package name containing `-` the watermark carries the corrected brand |
| Watermark.SuffixCounterexample | src/services/whatsapp.service.js:124 | for package name `whatsapp` the watermark sent reads `> Sent via Whatsap` |
| Watermark.Stamp | src/services/whatsapp.service.js:124 | the sent text is the whole message, then exactly the watermark |
| AntiMention.ReplyText | src/plugins/anti-mention.plugin.js:18-19 | the reply starts with the fixed lead, `@` and the part of the participant before its first `@` |
| AntiMention.Actions | src/plugins/anti-mention.plugin.js:4-37 | no call, or exactly three: a quoted reply mentioning the sender, a delete of the message key, then a `remove` of the sender 10000 ms later; three exactly when the message is a group-status mention in a watched group with a participant |
| AntiMention.ActionsStayInGroup | src/plugins/anti-mention.plugin.js:22-32 | every call goes to the group the mention was posted in, which is a watched group |
| StrUtil.Trim | src/controllers/message.controller.js:62 | the result is the input with its leading and trailing whitespace run removed and no whitespace at either end |
| StrUtil.TrimIdempotent | src/controllers/message.controller.js:62 | trimming a trimmed string changes nothing |
| StrUtil.TrimEmptyIffBlank | src/controllers/message.controller.js:62 | `trim()` gives the empty string exactly when the input is all whitespace |
| StrUtil.Before | src/plugins/anti-mention.plugin.js:18 | `split('@')[0]` is the longest prefix free of `@`, followed by `@` when shorter than the input |
| Base64.Encode | src/controllers/message.controller.js:433 | the encoding is `4 * ceil(n / 3)` characters long |
| Base64.EncodeAlphabet | src/controllers/message.controller.js:433 | every character of an encoding is in the alphabet or is `=` |
| Base64.DecodeGroup | src/controllers/message.controller.js:433 | a group of four gives one to three bytes; fewer than three only in the last group, ending in `==` or `=`, with the unused bits of its last character zero |
| Base64.DecodeEncode | src/controllers/message.controller.js:433 | decoding the encoding of any buffer gives that buffer back |
| Base64.EncodeHasNoColon | src/controllers/message.controller.js:433 | an encoding never contains `:` |
| DataUrl.MatchDataUrl | src/controllers/message.controller.js:8-9 | every match is a `data:` prefix, a non-empty media type without `;`, `;base64,`, and a non-empty payload without line terminators; no match without the `data:` prefix |
| DataUrl.MatchComplete | src/controllers/message.controller.js:8-12 | every string of that form is matched, with exactly those captures |
| DataUrl.FilenameAtUnique | src/controllers/message.controller.js:17 | at a given position the `filename="…"` capture is determined |
| DataUrl.FilenameAtShape | src/controllers/message.controller.js:17 | a match's capture runs from after `filename="` to the first following `"` |
| DataUrl.FilenameAtFromQuote | src/controllers/message.controller.js:17 | `filename="` followed by a non-empty run up to a `"` is a match |
| DataUrl.MatchFilenameAt | src/controllers/message.controller.js:17 | finds the match at a position exactly when there is one |
| DataUrl.FindFilename | src/controllers/message.controller.js:17 | returns the leftmost match, and none exactly when there is none |
| DataUrl.FilenameOf | src/controllers/message.controller.js:14-21 | the filename is exactly the capture of the leftmost match, or `document` when nothing matches |
| DataUrl.MatchIncludesKey | src/controllers/message.controller.js:16-20 | wherever the expression matches, `filename=` is included, so the `includes('filename=')` guard never changes the filename |
| DataUrl.ExtractFileInfo | src/controllers/message.controller.js:5-43 | a non-string throws `Invalid base64 format`; a matching data URL gives its media type, filename and decoded payload; any other string gives `application/octet-stream`, `document` and the whole string decoded |
| DataUrl.ParameterFallsBack | src/controllers/message.controller.js:8-38 | a data URL with a `;` parameter before `;base64,` is treated as bare base64 |
| Common.Truthy | src/controllers/message.controller.js:53 | a value is truthy exactly when it is not `undefined`, `null`, `false`, `0` or the empty string |
| MessageController.Or | src/controllers/message.controller.js:210-211 | `a || b` is `a` when `a` is truthy and `b` otherwise, so it is truthy exactly when `a` is or `b` is non-empty |
| MessageController.TextRequestError | src/controllers/message.controller.js:53-79 | the text checks in order: missing field gives 400, a non-string or blank message gives 400, disconnected gives 503; nothing is refused once all hold |
| MessageController.AfterSend | src/controllers/message.controller.js:81-110 | after the call: 200 with the service's message, or 500 with the error the service threw |
| MessageController.SendPersonalMessage | src/controllers/message.controller.js:46-111 | the service is called only when every check passes, then with the trimmed message, which is never empty |
| MessageController.SendGroupMessage | src/controllers/message.controller.js:113-178 | as SendPersonalMessage, with `groupId` and the group send |
| MessageController.TextCheckOrder | src/controllers/message.controller.js:53-79 | a missing or unusable field gives 400 before the connection is considered; only a valid request can get 503 |
| MessageController.SendDocumentMessage | src/controllers/message.controller.js:180-252 | 400 for a missing phone number or file, then 503 when disconnected, with the file not parsed; a non-string file gives 500 `Invalid base64 format`; otherwise one send with the decoded buffer and the request's `filename`/`mimetype` when truthy; `fileSize` is the buffer length |
| MessageController.DocumentFromDataUrl | src/controllers/message.controller.js:207-220 | a data URL sent without overrides carries its media type, its `filename="…"` name and its decoded payload |
| MessageController.AnalyzeBase64File | src/controllers/message.controller.js:302-346 | a missing file gives 400; a non-string gives 500; otherwise the extracted name, type and size, and `isDataUrl` exactly when the text starts with `data:` |
| MessageController.NotDataUrlFallsBack | src/controllers/message.controller.js:316-326 | text not starting with `data:` is reported with the fallback type and name and the size of the whole text decoded |
| MessageController.SendDocumentMessageFormData | src/controllers/message.controller.js:349-416 | 400 for a missing phone number or upload, then 503 when disconnected; otherwise the upload's buffer, mimetype and name go to the service unchanged |
| MessageController.ConvertFileToBase64 | src/controllers/message.controller.js:419-463 | a missing upload gives 400; otherwise 200 with base64 text that decodes back to the upload's buffer |
| MessageController.ConvertThenAnalyze | src/controllers/message.controller.js:419-446 | analysing converted text reports bare base64 with the file's own size; an empty file gives empty text, which the analysis refuses with 400 |
| QrController.GetQRImage | src/controllers/qr.controller.js:7-53 | 404 `QR Code not available` outside `qr_ready`; 404 `QR Code image not found` without an image; the image is streamed with PNG and no-cache headers only when both checks pass; a thrown error gives 500 |
| QrController.QrStateGatesImage | src/controllers/qr.controller.js:13-19 | outside `qr_ready` the reply does not depend on the image check |
| QrController.GetQRStatus | src/controllers/qr.controller.js:55-87 | `qrAvailable` holds exactly when the status is `qr_ready`, and the status is passed through |
| QrController.RunSessionAction | src/controllers/qr.controller.js:89-186 | a returned result gives 200 with its own `success` and message and the status read afterwards; a thrown error gives 500 with the action's title |
| QrController.FailedActionIsStillOk | src/controllers/qr.controller.js:93-106 | an action the service reports as unsuccessful is still answered with 200 |
| Auth.ExtractToken | src/middleware/auth.middleware.js:24-31 | a header starting with `Bearer ` gives everything after the prefix, even an empty token; otherwise a non-empty `X-API-Token`; otherwise no token |
| Auth.Authenticate | src/middleware/auth.middleware.js:8-54 | `next()` exactly when a token is configured and equals the presented one; 500 when none is configured; 401 `API token is required` for no token; 401 `Invalid API token` for a wrong one |
| Auth.ConfigurationCheckedFirst | src/middleware/auth.middleware.js:15-22 | with no configured token the answer is 500 whatever the headers |
| Auth.BearerPrecedence | src/middleware/auth.middleware.js:26-33 | a bare `Bearer ` header is refused as carrying no token even beside a correct `X-API-Token` |
| Auth.LowercaseBearerFallsBack | src/middleware/auth.middleware.js:26-30 | `bearer ` in lower case is ignored and `X-API-Token` decides |
| Auth.EitherHeaderAccepted | src/middleware/auth.middleware.js:26-53 | the right token is accepted in either header |
| Routes.FileFilter | src/routes/index.js:17-43 | a file is accepted exactly when its mimetype is one of the 16 listed strings; a refusal carries the error |
| Routes.FilterIsExact | src/routes/index.js:15-38 | there are 16 entries and the limit is 16777216 bytes; `image/png` passes, while `image/*`, `IMAGE/PNG` and `image/svg+xml` do not |
| Routes.Upload | src/routes/index.js:12-44 | an upload is stored exactly when its mimetype is listed and it is at most 16 MiB; no part leaves no file; an unlisted mimetype is refused with the filter's error |
| Routes.UploadRoutes | src/routes/index.js:46-72 | only `/document/upload` and `/convert-to-base64` pass through the upload middleware |
| Routes.DocumentUpload | src/routes/index.js:58 | a refused upload never reaches the handler; otherwise the form-data handler runs on the stored file or on none |
| Routes.UploadedDocumentsAreAdmissible | src/routes/index.js:12-58 | every document that reaches the service through the upload route has a listed mimetype and at most 16 MiB of content |
| Routes.ConvertUpload | src/routes/index.js:62 | a refused upload never reaches the converter; otherwise the converter runs on the stored file or on none |

## Left out

- The WhatsApp protocol library is not modelled. This covers making the socket, the auth state, the version lookup and saving credentials on `creds.update`. A successful `initialize` is "a socket is made and its handlers are installed".
- Terminal QR rendering, every log line, `console.info`, creating the auth directory, and response timestamps are left out. They carry no logic.
- `initialize()` is asynchronous and re-entered from inside the close handler. The model counts each re-entry in `initRequests` and does not run it concurrently.
- The anti-mention removal timer is recorded as a call with its 10000 ms delay. The removal itself is not scheduled.
- Errors raised after the plugin's first `await` are not modelled.
- Streaming the QR image to the response is recorded as a reply naming the file path, with its headers. Read errors on the stream are not modelled.
- The service methods that the controllers call but the service file does not define are passed in as outcomes, each a returned value or a thrown error. These are `hasQRCodeImage`, `getQRCodeImagePath`, `logout`, `regenerateQR`, `clearAuth`, `sendDocumentMessage` and the `qrCodeImagePath` status field.
- The controllers' calls on the text-send methods are recorded as values, and what those methods answer is a parameter. `Service.WhatsAppService.SendMessage` is proved separately.
- `Service.WhatsAppService.SendMessage`: the phone number is a string. When a JSON request passes a number, `replace` throws a TypeError. That TypeError shows up only as the controller's 500 path, with the thrown message as a parameter.
- `Service.WhatsAppService.SendGroupMessage`: the group id is a string. When a JSON request passes a number, `groupId.includes` throws a TypeError. That TypeError shows up only as the controller's 500 path, with the thrown message as a parameter.
- Node's base64 decoding (`Buffer.from(…, 'base64')`) skips invalid characters and is lenient. It is passed in as a function `decode` and is not defined. `Base64.Decode` accepts only groups of four alphabet characters, padding only in the last group, and zero unused bits there. It is used for the round trip with the encoder; that it accepts nothing an encoder cannot produce is not proved.
- `Common.Truthy`: numbers are modelled as reals, so `NaN` (which is falsy) and BigInt values are not represented.
- `Watermark.Brand`: `toUpperCase()` is modelled for ASCII letters only. The package name is required to be non-empty, as `s[0].toUpperCase()` demands.
- `package.json` is not part of this model. The package `name` and `author` are constructor parameters of the service and plain parameters elsewhere.
- multer's own refusal of an oversized upload is `Refused(None)`. Its message and the Express error handler that answers it are not modelled.
- `src/app.js` is not modelled. It never mounts `authenticateToken`, so the model does not claim that any route is authenticated.
- `analyzeBase64File` is defined twice with the same body; it is modelled once.
- The `pushName` of an inbound message appears only in log lines and is not modelled.

## Findings

| source | as written | input that shows it | evidently intended | confidence | as-written member | corrected member |
|---|---|---|---|---|---|---|
| src/services/whatsapp.service.js:124 | `s[0].toUpperCase() + s.slice(1, s.indexOf('-'))`: when the name has no `-`, `indexOf` gives -1 and `slice(1, -1)` drops the last letter | package name `whatsapp` gives the brand `Whatsap` | the capitalised first word of the name: `Whatsapp` | not executed | Watermark.BrandCounterexample | Watermark.Brand |

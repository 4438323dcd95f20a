# Gmail API e-mail backend for Django: a verified model

`gmailapi_backend` is a Django e-mail backend that sends mail through the
Gmail API instead of SMTP. It has two parts, and this project models both:

- **`create_message`.** It turns a Django `EmailMessage` into the request
  body of `users.messages.send`.
  - The MIME tree is a single text part when there are no attachments. The
    text part keeps an ASCII body as it is. Any other body is sent as
    base64-encoded UTF-8.
  - Otherwise it is a `multipart/mixed` container whose first part is the
    text part, followed by one part per attachment.
  - The outer message gets the address headers and the subject.
  - Each attachment gets a content type guessed from its file name, with
    `application/octet-stream` as the fallback. The type is split at the
    first `/`. The major type selects the text, image, audio or generic
    part class. The part gets a `Content-Disposition: attachment` header
    with the file name and base64 transfer encoding.
  - A `text` attachment never becomes a part. Its content is read as bytes
    and passed to `MIMEText`, which rejects bytes. `create_message` then
    raises.
  - The serialised message is encoded with the URL-safe base64 alphabet of
    section 5 of RFC 4648 and returned under the key `raw`.
- **`send_messages` and `_send`.**
  - When `open()` reports failure or there is no connection, the backend
    sends nothing and returns 0.
  - Otherwise it builds and submits each message in order and counts the
    submissions.
  - It closes the connection only when `open()` made a new one.
  - A failed submission is re-raised. Under the django-mailer database
    backend setting it is re-raised as `socket.error`.

The modules:

- `Wrappers` (`wrappers.dfy`). Option and Result types, and `Collect`: a map
  over a sequence that stops at the first error.
- `Base64Url` (`base64url.dfy`). The encoder, a strict reference decoder,
  and the proofs that decoding inverts encoding, that the length is a
  multiple of four, and that the alphabet is the URL-safe one.
- `Mime` (`mime.dfy`). An abstract MIME tree: the headers the builder sets,
  in insertion order, leaf parts, and multipart containers. A leaf's type
  and its transfer encoding are fields of the leaf. Also header lookup, and comma
  joining and splitting.
- `Builder` (`builder.dfy`). `create_message`. The function `BuildMessage`
  and its lemmas are the specification. The methods `SetAddressHeaders`,
  `AttachAll`, `ComposeMessage` and `CreateMessage` follow the code step by
  step and are proved equal to that specification.
- `Backend` (`backend.dfy`). `_send` (`Send`) and `send_messages`.
  - The loop is specified by the function `Batch` and implemented by the
    method `SubmitAll`.
  - The whole call is specified by `SendAll` and implemented by
    `SendMessages`.

Some behaviour depends on code outside the repository. Each such piece is a
parameter:

- `mimetypes.guess_type`, reading an attachment from a path, and
  `as_bytes` are the fields of `Builder.Library`.
- What `open()` returned and whether a connection exists are inputs of
  `SendMessages`.
- The outcome of each remote send call is the function `remote`, from the
  message's position and request body to `Delivered` or `Raised`.
- Whether `close()` is called is part of the result.

Where the project's documentation and its code differ, the model follows the
code (`gmailapi_backend/service.py`):

- `_send` never returns `False` and never honours `fail_silently`. Every
  API error is re-raised.
- The third element of an attachment tuple, the explicit MIME type, is never
  read. The type always comes from the file name (`MimetypeIgnored`).
- For text, image and audio attachments the content is always opened as a
  path, even when it is `bytes`. Only the generic branch uses `bytes`
  content as it is.
- An exception from `create_message` or from `_send` escapes
  `send_messages` untranslated. The connection is then not closed.
- A guessed type without `/` makes the two-name unpacking of the split
  raise. The model reports this as `MalformedType`.
- The text branch for attachments opens the content with `'rb'` and hands
  the `bytes` to `MIMEText`.
  - `MIMEText` calls `encode` on its text to choose a charset. `bytes` has no
    `encode`, so the call raises.
  - Every readable `text/*` attachment therefore makes `create_message`
    raise. The model reports this as `TextFromBytes`
    (`TextAttachmentRaises`, `TextAttachmentSinksMessage`).

## Model

| member | source | states |
|---|---|---|
| Builder.CreateMessage | gmailapi_backend/service.py:66-118 | The method's result is the envelope `EnvelopeOf` of the message, or the exception building it raises. |
| Builder.ComposeMessage | gmailapi_backend/service.py:66-114 | The step-by-step assembly gives the MIME message `Compose` specifies: a single text part, or a multipart container with the text part first and then the attachment parts, with the address headers. |
| Builder.SetAddressHeaders | gmailapi_backend/service.py:73-81 | The assignments append exactly the address headers, in order, after any existing headers. The body is unchanged. |
| Builder.AttachAll | gmailapi_backend/service.py:83-114 | The loop appends one part per attachment, in order, after the existing parts and keeps the headers. The first attachment whose part fails ends it with that exception. |
| Builder.AddressList | gmailapi_backend/service.py:73 | Defining equation, no contract: the addresses joined with `,`. `AddressListRoundTrip` is its partner. |
| Builder.AddressHeaders | gmailapi_backend/service.py:73-81 | Defining equation, no contract: `to`, `from`, then `reply-to`, `cc` and `bcc` for non-empty lists, then `subject`, in that order. `AddressHeadersLookup` is its partner. |
| Builder.AddressHeadersLookup | gmailapi_backend/service.py:73-81 | `to`, `from` and `subject` are always set. `reply-to`, `cc` and `bcc` are set exactly when their list is non-empty. Each holds the comma-joined list. |
| Builder.AddressListRoundTrip | gmailapi_backend/service.py:73 | A non-empty address list without commas splits back into its addresses, in order. |
| Mime.SplitJoin | gmailapi_backend/service.py:73 | Joining with a separator that no entry contains is undone by splitting at it. |
| Mime.AddHeader | gmailapi_backend/service.py:73-81 | Assigning a header appends it and leaves the body alone. |
| Mime.EmptyMultipart | gmailapi_backend/service.py:68 | The new container has no parts and none of the headers the builder sets. |
| Mime.Join | gmailapi_backend/service.py:73 | Defining equation, no contract: the entries with the separator between consecutive ones. `SplitJoin` is its partner. |
| Builder.TextBody | gmailapi_backend/service.py:69-72 | Defining equation, no contract: a text leaf with the body and the content subtype. It is base64-encoded exactly when the body is not ASCII. |
| Mime.Attach | gmailapi_backend/service.py:114 | Attaching puts the part after the existing parts and keeps the headers. |
| Builder.BuildMessageStructure | gmailapi_backend/service.py:67-72 | Without attachments: one text part with the body and subtype, base64-encoded exactly when the body is not ASCII. With attachments: the text part first, then the part of attachment i at position i+1. Failure happens exactly when some attachment fails, with the first failing one's exception. |
| Builder.ResolveContentType | gmailapi_backend/service.py:85-87 | The result is the guessed type, or `application/octet-stream` exactly when there is no guess or it has an encoding. |
| Builder.SplitType | gmailapi_backend/service.py:88 | The split fails exactly when there is no `/`. Otherwise the major type has no `/`, and major type, `/` and subtype reassemble the input. |
| Builder.SplitTypeAt | gmailapi_backend/service.py:88 | The split is at the first `/`: a major type without `/` comes back unchanged, with the rest as the subtype. |
| Builder.OctetStreamSplits | gmailapi_backend/service.py:87-88 | The fallback type splits into `application` and `octet-stream`. |
| Builder.KindOf | gmailapi_backend/service.py:89-108 | The text, image and audio classes are chosen exactly for the major types `text`, `image` and `audio`. Every other major type gets the generic class, which keeps the major type. |
| Builder.ReadContent | gmailapi_backend/service.py:90 | Reading succeeds exactly when the library read does, and then gives the bytes read. Otherwise it fails with `FileNotReadable` naming the content. |
| Builder.AttachmentPayload | gmailapi_backend/service.py:89-108 | Generic `bytes` content is the payload as it is. Any other content is read as a path: the call succeeds exactly when the read does, with the bytes read, and fails with `FileNotReadable`. |
| Builder.AttachmentPart | gmailapi_backend/service.py:84-114 | Defining equation, no contract: resolve and split the type, get the payload, raise `TextFromBytes` for a `text` major type, and otherwise build a base64 leaf of the chosen class with the disposition header. `AttachmentPartShape` and `AttachmentPartFailure` state its contract. |
| Builder.Disposition | gmailapi_backend/service.py:110-112 | Defining equation, no contract: a `Content-Disposition` header with value `attachment` and the parameter `filename` set to the attachment's file name. `AttachmentPartShape` is its partner. |
| Builder.AttachmentPartShape | gmailapi_backend/service.py:89-114 | A built part has the disposition header with the file name, base64 encoding, a type that reassembles the resolved content type, the class chosen by the major type (never the text class), and the payload read from the path or, for generic `bytes` content, the bytes themselves. |
| Builder.AttachmentPartFailure | gmailapi_backend/service.py:88-108 | An attachment fails only in three ways: `MalformedType` for a type without `/`; `FileNotReadable` when its content cannot be read; or `TextFromBytes` for a `text` type whose content was read. |
| Builder.TextAttachmentRaises | gmailapi_backend/service.py:89-91 | A `text` attachment always fails. It fails with `FileNotReadable` when the read fails, and with `TextFromBytes` otherwise. |
| Builder.TextAttachmentSinksMessage | gmailapi_backend/service.py:84-91 | One `text` attachment anywhere makes building the message and the envelope fail. |
| Builder.IntendedTextAttachment | gmailapi_backend/service.py:89-92 | Under the intended text branch (`AttachmentPartIntended`), a readable `text` attachment becomes a base64 text part. It has its subtype, the disposition header and the bytes read. |
| Builder.IntendedAgreesOtherwise | gmailapi_backend/service.py:84-114 | The intended definition agrees with `AttachmentPart` on every attachment except a readable `text` one. |
| Builder.OctetStreamFallback | gmailapi_backend/service.py:85-88 | With no guess, or an encoding-qualified one, the part is a generic `application/octet-stream` part, or reading the content fails. The split never fails. |
| Builder.MimetypeIgnored | gmailapi_backend/service.py:84-110 | Changing the explicit MIME types of the attachments never changes the envelope or the exception. |
| Builder.Compose | gmailapi_backend/service.py:66-114 | Defining equation, no contract, for any part builder: the text part with the address headers, or the headers over the text part followed by the collected attachment parts. |
| Builder.BuildMessage | gmailapi_backend/service.py:66-114 | Defining equation, no contract: `Compose` with `AttachmentPart` as the part builder. `BuildMessageStructure` states its contract. |
| Builder.EnvelopeOf | gmailapi_backend/service.py:116-118 | Defining equation, no contract: the base64url form of the serialised message under `raw`, or the build's exception. `EnvelopeShape` states its contract. |
| Builder.EnvelopeShape | gmailapi_backend/service.py:116-118 | The envelope has exactly the key `raw`. Its value is in the URL-safe alphabet with padding, has a length that is a multiple of 4, and decodes to the serialised message. It fails exactly when building fails, with the same exception. |
| Builder.RawShape | gmailapi_backend/service.py:116-117 | The base64url form of any bytes is in the alphabet, a multiple of 4 long, and decodes back to the bytes. |
| Base64Url.Encode | gmailapi_backend/service.py:116 | The encoding's length is a multiple of 4, and it is empty exactly when the input is. |
| Base64Url.DecodeEncode | gmailapi_backend/service.py:116 | Decoding the base64url encoding of any bytes gives those bytes back. |
| Base64Url.EncodeLength | gmailapi_backend/service.py:116 | The encoding has 4 characters per started group of 3 bytes. |
| Base64Url.EncodeAlphabet | gmailapi_backend/service.py:116 | Every encoded character is a URL-safe letter or `=`. |
| Base64Url.EncodeInjective | gmailapi_backend/service.py:116 | Different bytes never share an encoding. |
| Base64Url.Letter | gmailapi_backend/service.py:116 | Each 6-bit value maps to a URL-safe letter, never the padding. |
| Base64Url.IndexOf | gmailapi_backend/service.py:116 | Each letter's index maps back to that letter. |
| Wrappers.Collect | gmailapi_backend/service.py:84-114 | Mapping over the attachments succeeds exactly when every element succeeds, giving the results in order. Otherwise it gives the error of the first element that fails. |
| Wrappers.CollectFirstError | gmailapi_backend/service.py:84-114 | The first failing element's error is the one reported. |
| Wrappers.CollectPointwise | gmailapi_backend/service.py:84-114 | The outcome depends only on each element's own result. |
| Backend.Send | gmailapi_backend/service.py:46-57 | `_send` never returns `False`. It returns `True` exactly when the remote call succeeds. Otherwise it raises the API's exception, wrapped in `socket.error` exactly under `mailer.backend.DbBackend`. |
| Backend.Batch | gmailapi_backend/service.py:35-40 | At most one request per remaining message. When the loop returns a count, every remaining message was submitted and counted. |
| Backend.BatchSpec | gmailapi_backend/service.py:35-40 | Submitted requests are the envelopes of the messages at their positions. The loop returns a count exactly when every message is built and delivered. |
| Backend.BatchFirstFailure | gmailapi_backend/service.py:35-40 | A failing loop raises the first failing message's exception. It has submitted every earlier message, plus the failing one when that message could be built. |
| Backend.SendAll | gmailapi_backend/service.py:31-44 | Without a usable connection: 0, nothing submitted, no close. `close()` is called exactly when `open()` made the connection and no exception escaped. At most one request per message, and the count never exceeds the number of messages. |
| Backend.SendAllSpec | gmailapi_backend/service.py:31-44 | With a usable connection: the count is returned exactly when every message is built and delivered, and it is then the number of messages, all submitted. Requests are the built envelopes, in order. |
| Backend.SubmitAll | gmailapi_backend/service.py:35-40 | The `for` loop that builds, submits and counts gives the outcome `Batch` specifies, with `create_message` as the builder. |
| Backend.SendMessages | gmailapi_backend/service.py:31-44 | The connection check, the loop and the conditional `close()` give the report `SendAll` specifies, with `create_message` as the builder. |

## Findings

The model follows the code as written: `AttachmentPart`, used by `BuildMessage` and `CreateMessage`, raises for text
attachments. The corrected definition `AttachmentPartIntended` is stated beside it, with its property proved, but the
rest of the model does not use it.

| source | as written | input that shows it | evidently intended | confidence | as-written member | corrected member |
|---|---|---|---|---|---|---|
| gmailapi_backend/service.py:90-91 | The text branch opens the content with `'rb'` and passes the `bytes` read to `MIMEText`. `MIMEText` calls `encode` on its text, which `bytes` lacks, so it raises. | An attachment `("notes.txt", "/tmp/notes.txt", None)` whose file is readable: the guessed type is `text/plain`, and `create_message` raises instead of attaching it. | A readable `text/*` attachment becomes a text part with its subtype, the disposition header and the content read. | medium, from reading the standard library's `MIMEText`; not executed | Builder.TextAttachmentRaises | Builder.IntendedTextAttachment |

## Left out

- `GmailApiBackend.__init__`, `get_credentials` and the discovery `build(...)`
  call. They load credentials from settings and create the API client, which
  is outside the model.
- The network call `users().messages().send(...).execute()`. The parameter
  `remote` gives its outcome.
- Logging the error in `_send`. It has no effect on results.
- `mimetypes.guess_type`, file reading and `Message.as_bytes`. They are
  library code, and the `Library` fields stand for them. The bytes of the
  MIME serialisation (header folding, boundaries, the base64 body encoding
  inside the MIME text) are therefore not modelled.
- The inherited `open()` and `close()` of Django's SMTP backend. Their
  result and the call to `close()` are inputs and outputs.
- Exceptions raised by `open()` or `close()` themselves. `open()` can raise
  when `fail_silently` is false; `close()` can raise too. The model assumes
  both return normally.
- Mime.EmptyMultipart: the headers that `MIMEMultipart()`, `MIMEText()` and
  `MIMEBase()` set in their constructors (`Content-Type` with its boundary or
  charset, and `MIME-Version`) are not headers in the model. The type lives
  in a leaf's `kind` and `subtype`; the boundary, the charset and
  `MIME-Version` are not represented.
- Builder.TextBody: the charset `MIMEText` chooses (`us-ascii`, or `utf-8`
  for any other body) is not represented. Only its effect on the transfer
  encoding is, through the `base64` flag.
- The `Content-Transfer-Encoding` headers. The `base64` flag of a leaf says
  only whether its content is sent base64-encoded.
  - `MIMEImage` and `MIMEAudio` already encode their payload in base64 and
    set the header.
  - The later call to `encode_base64` sets the header a second time.
  - The model keeps neither header nor the duplicate.
- `str()` coercion of address entries and of the subject. Addresses and
  subjects are strings in the model.
- Attachments that are already `MIMEBase` instances rather than tuples. The
  code indexes every attachment as a tuple, so they are not part of this
  model.
- Closing the file handles after reading. Reading is one library step in the
  model.
- Python's lenient base64 decoder. `create_message` never decodes. The
  model's decoder `Decode` is a strict reference inverse, used only to state
  the round trip.

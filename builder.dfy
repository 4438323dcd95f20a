/**
 * `create_message`: turns an outgoing e-mail into the request body of the
 * Gmail API's `users.messages.send` call: a dictionary whose one key `raw`
 * holds the base64url form of the serialised MIME message.
 *
 * The library calls the builder depends on are parameters (see `Library`):
 * `mimetypes.guess_type`, reading an attachment from disk, and the MIME
 * serialisation `as_bytes()`.
 */
module Builder {
  import opened Wrappers
  import opened Base64Url
  import opened Mime

  /** The second element of a Django attachment tuple: `str` or `bytes`. */
  datatype Content = StrContent(text: string) | BytesContent(data: seq<byte>)

  /** A Django attachment tuple `(filename, content, mimetype)`. */
  datatype Attachment = Attachment(filename: string, content: Content, mimetype: Option<string>)

  /** The fields of a Django `EmailMessage` that the builder reads. */
  datatype EmailMessage = EmailMessage(
    fromEmail: string,
    to: seq<string>,
    replyTo: seq<string>,
    cc: seq<string>,
    bcc: seq<string>,
    subject: string,
    body: string,
    contentSubtype: string,
    attachments: seq<Attachment>)

  /** What `mimetypes.guess_type(filename)` returns: `(type, encoding)`. */
  datatype Guess = Guess(contentType: Option<string>, encoding: Option<string>)

  /**
   * The library behaviour the builder relies on but does not define:
   * `guessType` is `mimetypes.guess_type`, `readFile` opens the content as a
   * path and reads it (`None` when that raises), and `asBytes` is the MIME
   * serialisation `as_bytes`.
   */
  datatype Library = Library(
    guessType: string -> Guess,
    readFile: Content -> Option<seq<byte>>,
    asBytes: Message -> seq<byte>)

  /**
   * The exceptions that can escape `create_message` and `_send`.  They share
   * one type because `send_messages` lets both kinds escape from the same
   * loop; it is declared here, beside `Content`, which one of them carries,
   * and the backend module imports it.
   */
  datatype Exception =
    | FileNotReadable(path: Content)      // opening the content as a path failed
    | MalformedType(contentType: string)  // the content type has no `/` to split at
    | TextFromBytes                       // `MIMEText` given the `bytes` read from a file: they have no `encode`
    | ApiError(reason: string)            // the remote send call raised
    | SocketError(cause: Exception)       // a `socket.error` wrapping another exception

  /** The request body handed to the API: a dictionary with the key `raw`. */
  type Envelope = map<string, string>

  const OctetStream: string := "application/octet-stream"

  /** An address list joined with commas and no spaces. */
  function AddressList(xs: seq<string>): string {
    Join(xs, ',')
  }

  /** The headers `create_message` sets on the outer message, in the order it sets them. */
  function AddressHeaders(m: EmailMessage): seq<Header> {
    [Header("to", AddressList(m.to), []), Header("from", m.fromEmail, [])]
    + (if |m.replyTo| > 0 then [Header("reply-to", AddressList(m.replyTo), [])] else [])
    + (if |m.cc| > 0 then [Header("cc", AddressList(m.cc), [])] else [])
    + (if |m.bcc| > 0 then [Header("bcc", AddressList(m.bcc), [])] else [])
    + [Header("subject", m.subject, [])]
  }

  /**
   * The text part holding the message body with the message's content
   * subtype, before any header is set.  `MIMEText` keeps an ASCII body as it
   * is and sends any other body as base64-encoded UTF-8.
   */
  function TextBody(m: EmailMessage): Message {
    Message([], Leaf(TextPart, m.contentSubtype, TextPayload(m.body), !IsAscii(m.body)))
  }

  /** The guessed type, or `application/octet-stream` when there is none or it is encoding-qualified. */
  function ResolveContentType(g: Guess): (ct: string)
    ensures g.contentType.None? || g.encoding.Some? ==> ct == OctetStream
    ensures g.contentType.Some? && g.encoding.None? ==> ct == g.contentType.value
  {
    if g.contentType.None? || g.encoding.Some? then OctetStream else g.contentType.value
  }

  /**
   * A content type split once at `/` into the major type (everything before
   * the first `/`) and the subtype; `None` when there is no `/`, where the
   * two-name unpacking raises.
   */
  function SplitType(ct: string): (r: Option<(string, string)>)
    ensures r.None? <==> '/' !in ct
    ensures r.Some? ==> '/' !in r.value.0 && r.value.0 + "/" + r.value.1 == ct
  {
    if |ct| == 0 then None
    else if ct[0] == '/' then Some(("", ct[1..]))
    else match SplitType(ct[1..])
      case None => None
      case Some((main, sub)) =>
        assert ct == [ct[0]] + ct[1..];
        Some(([ct[0]] + main, sub))
  }

  /** The split is at the first `/`: a major type without `/` comes back whole. */
  lemma {:induction false} SplitTypeAt(main: string, sub: string)
    requires '/' !in main
    ensures SplitType(main + "/" + sub) == Some((main, sub))
  {
    var ct := main + "/" + sub;
    if |main| == 0 {
      assert ct[0] == '/' && ct[1..] == sub;
    } else {
      var tail := main[1..];
      assert ct[0] == main[0] && main[0] != '/';
      assert ct[1..] == tail + "/" + sub;
      SplitTypeAt(tail, sub);
      assert [main[0]] + tail == main;
    }
  }

  /** The fallback type always splits, into `application` and `octet-stream`. */
  lemma OctetStreamSplits()
    ensures SplitType(OctetStream) == Some(("application", "octet-stream"))
  {
    assert "application" + "/" + "octet-stream" == OctetStream;
    SplitTypeAt("application", "octet-stream");
  }

  /** The class a part of major type `main` is built with. */
  function KindOf(main: string): (k: PartKind)
    ensures k == TextPart <==> main == "text"
    ensures k == ImagePart <==> main == "image"
    ensures k == AudioPart <==> main == "audio"
    ensures k.GenericPart? ==> k.main == main
  {
    if main == "text" then TextPart
    else if main == "image" then ImagePart
    else if main == "audio" then AudioPart
    else GenericPart(main)
  }

  /** The attachment's content opened as a path and read in binary mode. */
  function ReadContent(c: Content, lib: Library): (r: Result<seq<byte>, Exception>)
    ensures r.Ok? <==> lib.readFile(c).Some?
    ensures r.Ok? ==> Some(r.value) == lib.readFile(c)
    ensures r.Err? ==> r.error == FileNotReadable(c)
  {
    match lib.readFile(c)
    case None => Err(FileNotReadable(c))
    case Some(data) => Ok(data)
  }

  /**
   * The payload of an attachment part: the text, image and audio branches
   * read the content as a path; the generic branch uses `bytes` content as it
   * is and reads any other content as a path.
   */
  function AttachmentPayload(main: string, c: Content, lib: Library): (r: Result<seq<byte>, Exception>)
    ensures KindOf(main).GenericPart? && c.BytesContent? ==> r == Ok(c.data)
    ensures !(KindOf(main).GenericPart? && c.BytesContent?) ==>
      (r.Ok? <==> lib.readFile(c).Some?) && (r.Ok? ==> Some(r.value) == lib.readFile(c))
    ensures r.Err? ==> r.error == FileNotReadable(c)
  {
    if KindOf(main).GenericPart? && c.BytesContent? then Ok(c.data)
    else ReadContent(c, lib)
  }

  /** `Content-Disposition: attachment; filename=<name>`. */
  function Disposition(filename: string): Header {
    Header("Content-Disposition", "attachment", [Param("filename", filename)])
  }

  /**
   * One attachment as a MIME part: type resolution and split, dispatch on the
   * major type, the payload, the disposition header and base64 transfer
   * encoding.  The text branch hands the `bytes` it read to `MIMEText`, which
   * calls `encode` on its argument to choose a charset; `bytes` has no such
   * method, so once the read succeeds that branch always raises.
   */
  function AttachmentPart(a: Attachment, lib: Library): Result<Message, Exception> {
    var ct := ResolveContentType(lib.guessType(a.filename));
    match SplitType(ct)
    case None => Err(MalformedType(ct))
    case Some((main, sub)) =>
      match AttachmentPayload(main, a.content, lib)
      case Err(e) => Err(e)
      case Ok(data) =>
        if KindOf(main) == TextPart then Err(TextFromBytes)
        else Ok(Message([Disposition(a.filename)], Leaf(KindOf(main), sub, BinaryPayload(data), true)))
  }

  /** `AttachmentPart` as a function value, for `Collect`. */
  function PartOf(lib: Library): Attachment -> Result<Message, Exception> {
    a => AttachmentPart(a, lib)
  }

  /**
   * The MIME message `create_message` builds when each attachment becomes a
   * part through `partOf`, or the exception it raises.
   */
  function Compose(m: EmailMessage, partOf: Attachment -> Result<Message, Exception>): Result<Message, Exception> {
    if |m.attachments| == 0 then
      Ok(TextBody(m).(headers := AddressHeaders(m)))
    else match Collect(m.attachments, partOf)
      case Err(e) => Err(e)
      case Ok(ps) => Ok(Message(AddressHeaders(m), Parts([TextBody(m)] + ps)))
  }

  /** The MIME message `create_message` builds, or the exception it raises. */
  function BuildMessage(m: EmailMessage, lib: Library): Result<Message, Exception> {
    Compose(m, PartOf(lib))
  }

  /** The request body: the serialised message, base64url-encoded, under the key `raw`. */
  function EnvelopeOf(m: EmailMessage, lib: Library): Result<Envelope, Exception> {
    match BuildMessage(m, lib)
    case Err(e) => Err(e)
    case Ok(msg) => Ok(map["raw" := Encode(lib.asBytes(msg))])
  }

  /** `create_message` as a function value. */
  function EnvelopeBuilder(lib: Library): EmailMessage -> Result<Envelope, Exception> {
    m => EnvelopeOf(m, lib)
  }

  /**
   * The header assignments of `create_message`: `to`, `from`, then
   * `reply-to`, `cc` and `bcc` only for non-empty lists, then `subject`.
   * The message body is left as it is.
   */
  method SetAddressHeaders(message: Message, m: EmailMessage) returns (r: Message)
    ensures r.headers == message.headers + AddressHeaders(m)
    ensures r.body == message.body
  {
    r := AddHeader(message, "to", AddressList(m.to));
    r := AddHeader(r, "from", m.fromEmail);
    if |m.replyTo| > 0 {
      r := AddHeader(r, "reply-to", AddressList(m.replyTo));
    }
    if |m.cc| > 0 {
      r := AddHeader(r, "cc", AddressList(m.cc));
    }
    if |m.bcc| > 0 {
      r := AddHeader(r, "bcc", AddressList(m.bcc));
    }
    r := AddHeader(r, "subject", m.subject);
  }

  /**
   * The assembly part of `create_message`: the outer message is a single
   * text part or a multipart container whose first part is that text part;
   * the address headers are set one by one, then one part per attachment is
   * attached in order.
   */
  method ComposeMessage(m: EmailMessage, partOf: Attachment -> Result<Message, Exception>)
    returns (r: Result<Message, Exception>)
    ensures r == Compose(m, partOf)
  {
    var message: Message;
    if |m.attachments| > 0 {
      message := Attach(EmptyMultipart(), TextBody(m));
    } else {
      message := TextBody(m);
    }
    message := SetAddressHeaders(message, m);
    assert [] + AddressHeaders(m) == AddressHeaders(m);

    if |m.attachments| > 0 {
      assert message.headers == AddressHeaders(m) && message.body == Parts([TextBody(m)]);
      r := AttachAll(message, m.attachments, partOf);
    } else {
      r := Ok(message);
    }
  }

  /**
   * `create_message`: the MIME message, serialised and base64url-encoded
   * under the key `raw`.
   */
  method CreateMessage(m: EmailMessage, lib: Library) returns (r: Result<Envelope, Exception>)
    ensures r == EnvelopeOf(m, lib)
  {
    var message := ComposeMessage(m, PartOf(lib));
    if message.Err? {
      return Err(message.error);
    }
    r := Ok(map["raw" := Encode(lib.asBytes(message.value))]);
  }

  /**
   * The attachment loop of `create_message`: one part per attachment, built
   * by `partOf`, is attached after the parts already there, in order; the
   * first attachment whose part cannot be built ends the loop with its
   * exception.
   */
  method AttachAll(message: Message, atts: seq<Attachment>, partOf: Attachment -> Result<Message, Exception>)
    returns (r: Result<Message, Exception>)
    requires message.body.Parts?
    ensures Collect(atts, partOf).Err? ==> r == Err(Collect(atts, partOf).error)
    ensures Collect(atts, partOf).Ok? ==>
      r == Ok(Message(message.headers, Parts(message.body.parts + Collect(atts, partOf).value)))
  {
    var msg := message;
    ghost var done: seq<Message> := [];
    for i := 0 to |atts|
      invariant msg == Message(message.headers, Parts(message.body.parts + done))
      invariant |done| == i
      invariant forall j :: 0 <= j < i ==> partOf(atts[j]) == Ok(done[j])
    {
      var part := partOf(atts[i]);
      if part.Err? {
        CollectFirstError(atts, partOf, i);
        return Err(part.error);
      }
      msg := Attach(msg, part.value);
      done := done + [part.value];
      assert message.body.parts + done == msg.body.parts;
    }
    assert done == Collect(atts, partOf).value;
    r := Ok(msg);
  }

  /**
   * The outer headers: `to` and `from` always, `subject` always, and each of
   * `reply-to`, `cc` and `bcc` exactly when its list is non-empty, holding the
   * comma-joined list.
   */
  lemma AddressHeadersLookup(m: EmailMessage)
    ensures Lookup(AddressHeaders(m), "to") == Some(AddressList(m.to))
    ensures Lookup(AddressHeaders(m), "from") == Some(m.fromEmail)
    ensures Lookup(AddressHeaders(m), "reply-to") == if |m.replyTo| > 0 then Some(AddressList(m.replyTo)) else None
    ensures Lookup(AddressHeaders(m), "cc") == if |m.cc| > 0 then Some(AddressList(m.cc)) else None
    ensures Lookup(AddressHeaders(m), "bcc") == if |m.bcc| > 0 then Some(AddressList(m.bcc)) else None
    ensures Lookup(AddressHeaders(m), "subject") == Some(m.subject)
  {
    var fixed := [Header("to", AddressList(m.to), []), Header("from", m.fromEmail, [])];
    var reply := if |m.replyTo| > 0 then [Header("reply-to", AddressList(m.replyTo), [])] else [];
    var cc := if |m.cc| > 0 then [Header("cc", AddressList(m.cc), [])] else [];
    var bcc := if |m.bcc| > 0 then [Header("bcc", AddressList(m.bcc), [])] else [];
    var subject := [Header("subject", m.subject, [])];
    assert AddressHeaders(m) == fixed + reply + cc + bcc + subject;
    forall name { LookupPair(fixed[0], fixed[1], name); }
    LookupPieces(fixed, reply, cc, bcc, subject, "to");
    LookupPieces(fixed, reply, cc, bcc, subject, "from");
    LookupPieces(fixed, reply, cc, bcc, subject, "reply-to");
    LookupPieces(fixed, reply, cc, bcc, subject, "cc");
    LookupPieces(fixed, reply, cc, bcc, subject, "bcc");
    LookupPieces(fixed, reply, cc, bcc, subject, "subject");
  }

  lemma LookupPair(h1: Header, h2: Header, name: string)
    ensures Lookup([h1, h2], name) ==
      if h1.name == name then Some(h1.value) else if h2.name == name then Some(h2.value) else None
  {
    assert [h1, h2][1..] == [h2];
    assert [h2][1..] == [];
    assert Lookup([h2], name) == if h2.name == name then Some(h2.value) else Lookup([], name);
  }

  lemma LookupPieces(a: seq<Header>, b: seq<Header>, c: seq<Header>, d: seq<Header>, e: seq<Header>, name: string)
    ensures Lookup(a + b + c + d + e, name) ==
      if Lookup(a, name).Some? then Lookup(a, name)
      else if Lookup(b, name).Some? then Lookup(b, name)
      else if Lookup(c, name).Some? then Lookup(c, name)
      else if Lookup(d, name).Some? then Lookup(d, name)
      else Lookup(e, name)
  {
    LookupAppend(a + b + c + d, e, name);
    LookupAppend(a + b + c, d, name);
    LookupAppend(a + b, c, name);
    LookupAppend(a, b, name);
  }

  /** An address list whose entries contain no comma splits back into its entries, in order. */
  lemma AddressListRoundTrip(xs: seq<string>)
    requires |xs| > 0
    requires forall i :: 0 <= i < |xs| ==> ',' !in xs[i]
    ensures Split(AddressList(xs), ',') == xs
  {
    SplitJoin(xs, ',');
  }

  /**
   * The part structure: without attachments a single text part carrying the
   * body and its subtype; with attachments a multipart container whose first
   * part is that text part, followed by one part per attachment in order.
   * The build fails exactly when some attachment fails, with the first
   * failing attachment's exception.
   */
  lemma BuildMessageStructure(m: EmailMessage, lib: Library)
    ensures |m.attachments| == 0 ==>
      BuildMessage(m, lib) == Ok(Message(AddressHeaders(m), Leaf(TextPart, m.contentSubtype, TextPayload(m.body), !IsAscii(m.body))))
    ensures BuildMessage(m, lib).Ok? && |m.attachments| > 0 ==>
      var msg := BuildMessage(m, lib).value;
      && msg.headers == AddressHeaders(m)
      && msg.body.Parts?
      && |msg.body.parts| == 1 + |m.attachments|
      && msg.body.parts[0] == TextBody(m)
      && forall i :: 0 <= i < |m.attachments| ==> AttachmentPart(m.attachments[i], lib) == Ok(msg.body.parts[i + 1])
    ensures BuildMessage(m, lib).Err? <==> exists i :: 0 <= i < |m.attachments| && AttachmentPart(m.attachments[i], lib).Err?
    ensures BuildMessage(m, lib).Err? ==>
      exists i :: 0 <= i < |m.attachments| && AttachmentPart(m.attachments[i], lib) == Err(BuildMessage(m, lib).error)
                  && forall j :: 0 <= j < i ==> AttachmentPart(m.attachments[j], lib).Ok?
  {
    var f := PartOf(lib);
    assert forall i :: 0 <= i < |m.attachments| ==> f(m.attachments[i]) == AttachmentPart(m.attachments[i], lib);
  }

  /**
   * A built attachment part: the disposition header naming the file, base64
   * transfer encoding, a type that reassembles the resolved content type, the
   * class chosen by the major type (never the text class), and the payload
   * taken as is (generic `bytes` content) or read from the content as a path.
   */
  lemma AttachmentPartShape(a: Attachment, lib: Library)
    requires AttachmentPart(a, lib).Ok?
    ensures var p := AttachmentPart(a, lib).value;
      && p.headers == [Disposition(a.filename)]
      && p.body.Leaf? && p.body.base64 && p.body.payload.BinaryPayload?
      && MainType(p) + "/" + SubType(p) == ResolveContentType(lib.guessType(a.filename))
      && '/' !in MainType(p)
      && p.body.kind == KindOf(MainType(p))
      && p.body.kind != TextPart && MainType(p) != "text"
      && (p.body.kind.GenericPart? && a.content.BytesContent? ==> p.body.payload.data == a.content.data)
      && (!(p.body.kind.GenericPart? && a.content.BytesContent?) ==> lib.readFile(a.content) == Some(p.body.payload.data))
  {
    var ct := ResolveContentType(lib.guessType(a.filename));
    var main := SplitType(ct).value.0;
    var k := KindOf(main);
    assert k.TextPart? || k.ImagePart? || k.AudioPart? || k.GenericPart?;
  }

  /**
   * An attachment fails only when its resolved type has no `/`, when its
   * content, read as a path, cannot be read, or when the type is `text` and
   * the read succeeded.
   */
  lemma AttachmentPartFailure(a: Attachment, lib: Library)
    requires AttachmentPart(a, lib).Err?
    ensures var ct := ResolveContentType(lib.guessType(a.filename));
      var e := AttachmentPart(a, lib).error;
      || (e == MalformedType(ct) && '/' !in ct)
      || (e == FileNotReadable(a.content) && lib.readFile(a.content).None?)
      || (e == TextFromBytes && SplitType(ct).Some? && SplitType(ct).value.0 == "text" && lib.readFile(a.content).Some?)
  {
  }

  /**
   * A `text` attachment never becomes a part: its content is read as a path,
   * and the bytes read are rejected by `MIMEText`.
   */
  lemma TextAttachmentRaises(a: Attachment, lib: Library)
    requires var ct := ResolveContentType(lib.guessType(a.filename));
      SplitType(ct).Some? && SplitType(ct).value.0 == "text"
    ensures AttachmentPart(a, lib)
      == Err(if lib.readFile(a.content).None? then FileNotReadable(a.content) else TextFromBytes)
  {
  }

  /** One `text` attachment anywhere makes `create_message` raise. */
  lemma TextAttachmentSinksMessage(m: EmailMessage, lib: Library, i: nat)
    requires i < |m.attachments|
    requires var ct := ResolveContentType(lib.guessType(m.attachments[i].filename));
      SplitType(ct).Some? && SplitType(ct).value.0 == "text"
    ensures BuildMessage(m, lib).Err? && EnvelopeOf(m, lib).Err?
  {
    TextAttachmentRaises(m.attachments[i], lib);
    BuildMessageStructure(m, lib);
  }

  /**
   * The attachment part as evidently intended: the text branch, like the
   * image and audio branches, makes a base64 part of its class from the
   * bytes read.
   */
  function AttachmentPartIntended(a: Attachment, lib: Library): Result<Message, Exception> {
    var ct := ResolveContentType(lib.guessType(a.filename));
    match SplitType(ct)
    case None => Err(MalformedType(ct))
    case Some((main, sub)) =>
      match AttachmentPayload(main, a.content, lib)
      case Err(e) => Err(e)
      case Ok(data) => Ok(Message([Disposition(a.filename)], Leaf(KindOf(main), sub, BinaryPayload(data), true)))
  }

  /**
   * Under the intended text branch, a readable `text` attachment becomes a
   * text part with its subtype, the disposition header naming the file, base64
   * encoding and the bytes read.
   */
  lemma IntendedTextAttachment(a: Attachment, lib: Library)
    requires var ct := ResolveContentType(lib.guessType(a.filename));
      SplitType(ct).Some? && SplitType(ct).value.0 == "text"
    requires lib.readFile(a.content).Some?
    ensures var ct := ResolveContentType(lib.guessType(a.filename));
      AttachmentPartIntended(a, lib)
      == Ok(Message([Disposition(a.filename)],
                    Leaf(TextPart, SplitType(ct).value.1, BinaryPayload(lib.readFile(a.content).value), true)))
  {
  }

  /** The intended text branch changes nothing but the readable `text` attachments. */
  lemma IntendedAgreesOtherwise(a: Attachment, lib: Library)
    requires var ct := ResolveContentType(lib.guessType(a.filename));
      !(SplitType(ct).Some? && SplitType(ct).value.0 == "text" && lib.readFile(a.content).Some?)
    ensures AttachmentPartIntended(a, lib) == AttachmentPart(a, lib)
  {
  }

  /**
   * When the guess has no type or an encoding, the part is a generic
   * `application/octet-stream` part; the split never fails.
   */
  lemma OctetStreamFallback(a: Attachment, lib: Library)
    requires lib.guessType(a.filename).contentType.None? || lib.guessType(a.filename).encoding.Some?
    ensures AttachmentPart(a, lib).Ok? || AttachmentPart(a, lib) == Err(FileNotReadable(a.content))
    ensures AttachmentPart(a, lib).Ok? ==>
      var p := AttachmentPart(a, lib).value;
      p.body.Leaf? && p.body.kind == GenericPart("application") && p.body.subtype == "octet-stream"
  {
    OctetStreamSplits();
    if AttachmentPart(a, lib).Ok? {
      AttachmentPartShape(a, lib);
      var p := AttachmentPart(a, lib).value;
      SplitTypeAt(MainType(p), SubType(p));
    } else {
      AttachmentPartFailure(a, lib);
    }
  }

  /** The explicit MIME type of an attachment tuple plays no part in the envelope. */
  lemma MimetypeIgnored(m: EmailMessage, types: seq<Option<string>>, lib: Library)
    requires |types| == |m.attachments|
    ensures var retyped := seq(|types|, i requires 0 <= i < |types| => m.attachments[i].(mimetype := types[i]));
      EnvelopeOf(m.(attachments := retyped), lib) == EnvelopeOf(m, lib)
  {
    var retyped := seq(|types|, i requires 0 <= i < |types| => m.attachments[i].(mimetype := types[i]));
    CollectPointwise(retyped, m.attachments, PartOf(lib));
  }

  /**
   * The envelope is a dictionary with the single key `raw` whose value uses
   * only the URL-safe base64 alphabet and padding, has a length that is a
   * multiple of four, and decodes back to the serialised message.  It fails
   * exactly when building the message fails, with the same exception.
   */
  lemma EnvelopeShape(m: EmailMessage, lib: Library)
    ensures EnvelopeOf(m, lib).Err? <==> BuildMessage(m, lib).Err?
    ensures EnvelopeOf(m, lib).Err? ==> EnvelopeOf(m, lib).error == BuildMessage(m, lib).error
    ensures EnvelopeOf(m, lib).Ok? ==>
      var env := EnvelopeOf(m, lib).value;
      && env.Keys == {"raw"}
      && InAlphabet(env["raw"])
      && |env["raw"]| % 4 == 0
      && Decode(env["raw"]) == Some(lib.asBytes(BuildMessage(m, lib).value))
  {
    if BuildMessage(m, lib).Ok? {
      var bytes := lib.asBytes(BuildMessage(m, lib).value);
      RawShape(bytes);
    }
  }

  /** The `raw` value of an envelope over some serialised bytes. */
  lemma RawShape(bytes: seq<byte>)
    ensures var raw := Encode(bytes);
      InAlphabet(raw) && |raw| % 4 == 0 && Decode(raw) == Some(bytes)
  {
    EncodeLength(bytes);
    EncodeAlphabet(bytes);
    DecodeEncode(bytes);
  }
}

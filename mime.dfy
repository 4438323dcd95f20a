/**
 * An abstract MIME message: a list of headers plus either a single body
 * (text, image, audio or a generic `main/sub` part) or a multipart container
 * holding a list of parts.  The concrete classes of Python's `email.mime`
 * package appear here only through what the message builder does with them.
 */
module Mime {
  import opened Wrappers
  import opened Base64Url

  /** A header parameter such as `filename="a.pdf"`. */
  datatype Param = Param(key: string, value: string)

  /** One header line: name, value and parameters, in the order they were added. */
  datatype Header = Header(name: string, value: string, params: seq<Param>)

  /** The content of a single part, before any transfer encoding. */
  datatype Payload = TextPayload(text: string) | BinaryPayload(data: seq<byte>)

  /**
   * The class a single part was built with: `MIMEText`, `MIMEImage`,
   * `MIMEAudio`, or `MIMEBase(main, sub)` for every other major type.
   */
  datatype PartKind = TextPart | ImagePart | AudioPart | GenericPart(main: string)

  /**
   * A single part's content, or the parts of a multipart container.  The
   * `kind` and `subtype` of a leaf stand for its `Content-Type` header;
   * `base64` says whether its content is sent base64-encoded.
   */
  datatype Body =
    | Leaf(kind: PartKind, subtype: string, payload: Payload, base64: bool)
    | Parts(parts: seq<Message>)

  /** A message: its headers, in the order they were added, and its body. */
  datatype Message = Message(headers: seq<Header>, body: Body)

  /** The major content type of a message. `MIMEMultipart()` is `multipart/mixed`. */
  function MainType(m: Message): string {
    match m.body
    case Parts(_) => "multipart"
    case Leaf(kind, _, _, _) =>
      match kind
      case TextPart => "text"
      case ImagePart => "image"
      case AudioPart => "audio"
      case GenericPart(main) => main
  }

  function SubType(m: Message): string {
    match m.body
    case Parts(_) => "mixed"
    case Leaf(_, sub, _, _) => sub
  }

  /** Whether every character of a text is in 7-bit ASCII. */
  predicate IsAscii(s: string) {
    forall i :: 0 <= i < |s| ==> s[i] as int < 128
  }

  /** `message[name] = value`: headers are appended, never replaced; the body is untouched. */
  function AddHeader(m: Message, name: string, value: string): (r: Message)
    ensures r.headers == m.headers + [Header(name, value, [])] && r.body == m.body
  {
    m.(headers := m.headers + [Header(name, value, [])])
  }

  /**
   * `MIMEMultipart()`: a `multipart/mixed` container with no parts yet and
   * none of the headers the builder sets.
   */
  function EmptyMultipart(): (r: Message)
    ensures r.headers == [] && r.body.Parts? && r.body.parts == []
  {
    Message([], Parts([]))
  }

  /** `message.attach(part)`: the part goes after the existing ones. */
  function Attach(m: Message, part: Message): (r: Message)
    requires m.body.Parts?
    ensures r.headers == m.headers && r.body.Parts? && r.body.parts == m.body.parts + [part]
  {
    m.(body := Parts(m.body.parts + [part]))
  }

  /** The value of the first header with this name, if any. */
  function Lookup(hs: seq<Header>, name: string): Option<string> {
    if |hs| == 0 then None
    else if hs[0].name == name then Some(hs[0].value)
    else Lookup(hs[1..], name)
  }

  /** Looking up in a concatenation: the first list wins. */
  lemma {:induction false} LookupAppend(a: seq<Header>, b: seq<Header>, name: string)
    ensures Lookup(a + b, name) == if Lookup(a, name).Some? then Lookup(a, name) else Lookup(b, name)
  {
    if |a| > 0 {
      LookupAppend(a[1..], b, name);
      assert (a + b)[1..] == a[1..] + b;
    } else {
      assert a + b == b;
    }
  }

  /** `sep.join(xs)`. */
  function Join(xs: seq<string>, sep: char): string {
    if |xs| == 0 then ""
    else if |xs| == 1 then xs[0]
    else xs[0] + [sep] + Join(xs[1..], sep)
  }

  /** `s.split(sep)`: the pieces between separators; one piece when there is none. */
  function Split(s: string, sep: char): (r: seq<string>)
    ensures |r| > 0
  {
    if |s| == 0 then [""]
    else
      var rest := Split(s[1..], sep);
      if s[0] == sep then [""] + rest
      else [[s[0]] + rest[0]] + rest[1..]
  }

  lemma {:induction false} SplitWithout(a: string, sep: char)
    requires sep !in a
    ensures Split(a, sep) == [a]
  {
    if |a| > 0 {
      SplitWithout(a[1..], sep);
      assert [a[0]] + a[1..] == a;
    }
  }

  lemma {:induction false} SplitAfter(a: string, sep: char, t: string)
    requires sep !in a
    ensures Split(a + [sep] + t, sep) == [a] + Split(t, sep)
  {
    if |a| == 0 {
      assert a + [sep] + t == [sep] + t;
      assert ([sep] + t)[1..] == t;
    } else {
      SplitAfter(a[1..], sep, t);
      assert (a + [sep] + t)[1..] == a[1..] + [sep] + t;
      assert [a[0]] + a[1..] == a;
    }
  }

  /**
   * Joining a non-empty list whose entries do not contain the separator can
   * be undone by splitting: the entries come back in their order.
   */
  lemma {:induction false} SplitJoin(xs: seq<string>, sep: char)
    requires |xs| > 0
    requires forall i :: 0 <= i < |xs| ==> sep !in xs[i]
    ensures Split(Join(xs, sep), sep) == xs
  {
    if |xs| == 1 {
      SplitWithout(xs[0], sep);
    } else {
      SplitJoin(xs[1..], sep);
      SplitAfter(xs[0], sep, Join(xs[1..], sep));
      assert [xs[0]] + xs[1..] == xs;
    }
  }
}

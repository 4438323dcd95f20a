/**
 * `GmailApiBackend.send_messages` and `_send`: open the connection, build and
 * submit each message in order, count the successful submissions, and close
 * the connection when this call opened it.
 *
 * The inherited `open()`/`close()` and the remote API are not part of this
 * module: what `open()` returned and whether a connection exists afterwards
 * are inputs, whether `close()` is called is an output, and the outcome of the
 * remote `send(...).execute()` for the i-th message is given by `remote`.
 */
module Backend {
  import opened Wrappers
  import opened Builder

  /** The `EMAIL_BACKEND` setting under which send failures are re-raised as `socket.error`. */
  const DbBackend: string := "mailer.backend.DbBackend"

  /**
   * What `open()` returned: `True` (a new connection was made), `False` (a
   * connection already existed) or `None` (opening failed silently).
   */
  datatype OpenResult = OpenedNew | AlreadyOpen | OpenFailed

  /** The outcome of one remote `users().messages().send(...).execute()` call. */
  datatype Delivery = Delivered | Raised(reason: string)

  /** The exception underneath any `socket.error` wrapping. */
  function Cause(e: Exception): Exception {
    match e
    case SocketError(inner) => Cause(inner)
    case _ => e
  }

  /**
   * `_send`: it never returns `False`.  It returns `True` exactly when the
   * remote call succeeds and otherwise re-raises the API's exception, wrapped
   * in `socket.error` exactly when `EMAIL_BACKEND` is the django-mailer
   * database backend.
   */
  function Send(setting: string, d: Delivery): (r: Result<bool, Exception>)
    ensures r.Ok? <==> d.Delivered?
    ensures r.Ok? ==> r.value
    ensures r.Err? ==> Cause(r.error) == ApiError(d.reason) && (r.error.SocketError? <==> setting == DbBackend)
  {
    match d
    case Delivered => Ok(true)
    case Raised(reason) =>
      if setting == DbBackend then Err(SocketError(ApiError(reason))) else Err(ApiError(reason))
  }

  /** What a batch of submissions did: the count or the exception, and the request bodies submitted. */
  datatype BatchOutcome = BatchOutcome(result: Result<nat, Exception>, requests: seq<Envelope>)

  /** What `send_messages` did: its return value or exception, the requests submitted, and whether it called `close()`. */
  datatype SendReport = SendReport(result: Result<nat, Exception>, requests: seq<Envelope>, closed: bool)

  /** Earlier submissions `n` and `reqs` in front of the outcome of the later ones. */
  function Prepend(n: nat, reqs: seq<Envelope>, b: BatchOutcome): BatchOutcome {
    BatchOutcome(if b.result.Ok? then Ok(n + b.result.value) else b.result, reqs + b.requests)
  }

  /**
   * The loop of `send_messages` from message `from` on: at most one request
   * per remaining message, and on success one per remaining message, each
   * counted.
   */
  function Batch(setting: string, msgs: seq<EmailMessage>, build: EmailMessage -> Result<Envelope, Exception>,
                 remote: (nat, Envelope) -> Delivery, from: nat): (r: BatchOutcome)
    requires from <= |msgs|
    ensures |r.requests| <= |msgs| - from
    ensures r.result.Ok? ==> r.result.value == |r.requests| == |msgs| - from
    decreases |msgs| - from
  {
    if from == |msgs| then BatchOutcome(Ok(0), [])
    else match build(msgs[from])
      case Err(e) => BatchOutcome(Err(e), [])
      case Ok(env) =>
        match Send(setting, remote(from, env))
        case Err(e) => BatchOutcome(Err(e), [env])
        case Ok(_) => Prepend(1, [env], Batch(setting, msgs, build, remote, from + 1))  // `_send` only ever returns `True`
  }

  /**
   * `send_messages`, with `build` standing for `create_message`: abort with 0
   * without a usable connection, else the loop, then `close()` if `open()`
   * made the connection and no exception escaped.
   */
  function SendAll(connection: bool, openResult: OpenResult, setting: string, msgs: seq<EmailMessage>,
                   build: EmailMessage -> Result<Envelope, Exception>, remote: (nat, Envelope) -> Delivery): (r: SendReport)
    ensures !connection || openResult == OpenFailed ==> r == SendReport(Ok(0), [], false)
    ensures r.closed <==> connection && openResult == OpenedNew && r.result.Ok?
    ensures |r.requests| <= |msgs|
    ensures r.result.Ok? ==> r.result.value <= |msgs|
  {
    if !connection || openResult == OpenFailed then SendReport(Ok(0), [], false)
    else
      var b := Batch(setting, msgs, build, remote, 0);
      SendReport(b.result, b.requests, b.result.Ok? && openResult == OpenedNew)
  }

  /** Message `i` is built and its submission succeeds. */
  predicate Succeeds(setting: string, msgs: seq<EmailMessage>, build: EmailMessage -> Result<Envelope, Exception>,
                     remote: (nat, Envelope) -> Delivery, i: nat)
    requires i < |msgs|
  {
    build(msgs[i]).Ok? && remote(i, build(msgs[i]).value).Delivered?
  }

  /** The exception message `i` raises: from building it, or the translated one from `_send`. */
  function FailureOf(setting: string, msgs: seq<EmailMessage>, build: EmailMessage -> Result<Envelope, Exception>,
                     remote: (nat, Envelope) -> Delivery, i: nat): Exception
    requires i < |msgs| && !Succeeds(setting, msgs, build, remote, i)
  {
    match build(msgs[i])
    case Err(e) => e
    case Ok(env) => Send(setting, remote(i, env)).error
  }

  /**
   * The loop in order: every submitted request body is the envelope of the
   * message at its position, and the loop returns a count exactly when every
   * message succeeds.
   */
  lemma {:induction false} BatchSpec(setting: string, msgs: seq<EmailMessage>, build: EmailMessage -> Result<Envelope, Exception>,
                                     remote: (nat, Envelope) -> Delivery, from: nat)
    requires from <= |msgs|
    ensures var b := Batch(setting, msgs, build, remote, from);
      && (forall i :: 0 <= i < |b.requests| ==> build(msgs[from + i]) == Ok(b.requests[i]))
      && (b.result.Ok? <==> forall i :: from <= i < |msgs| ==> Succeeds(setting, msgs, build, remote, i))
    decreases |msgs| - from
  {
    if from < |msgs| {
      var b := Batch(setting, msgs, build, remote, from);
      match build(msgs[from])
      case Err(e) =>
        assert !Succeeds(setting, msgs, build, remote, from);
      case Ok(env) =>
        if remote(from, env).Delivered? {
          BatchSpec(setting, msgs, build, remote, from + 1);
          var rest := Batch(setting, msgs, build, remote, from + 1);
          assert b.requests == [env] + rest.requests;
          assert Succeeds(setting, msgs, build, remote, from);
          forall i | 0 <= i < |b.requests|
            ensures build(msgs[from + i]) == Ok(b.requests[i])
          {
            if i > 0 { assert b.requests[i] == rest.requests[i - 1]; }
          }
        } else {
          assert !Succeeds(setting, msgs, build, remote, from);
        }
    }
  }

  /**
   * A failing loop raises the exception of the first message that fails,
   * after having submitted the messages before it and, if that message could
   * be built, the failing one.
   */
  lemma {:induction false} BatchFirstFailure(setting: string, msgs: seq<EmailMessage>, build: EmailMessage -> Result<Envelope, Exception>,
                                             remote: (nat, Envelope) -> Delivery, from: nat)
    requires from <= |msgs|
    ensures var b := Batch(setting, msgs, build, remote, from);
      b.result.Err? ==>
        exists k :: from <= k < |msgs|
          && (forall j :: from <= j < k ==> Succeeds(setting, msgs, build, remote, j))
          && !Succeeds(setting, msgs, build, remote, k)
          && b.result.error == FailureOf(setting, msgs, build, remote, k)
          && |b.requests| == k - from + (if build(msgs[k]).Ok? then 1 else 0)
    decreases |msgs| - from
  {
    var b := Batch(setting, msgs, build, remote, from);
    if from < |msgs| && b.result.Err? {
      match build(msgs[from])
      case Err(e) =>
        assert !Succeeds(setting, msgs, build, remote, from);
      case Ok(env) =>
        if remote(from, env).Delivered? {
          BatchFirstFailure(setting, msgs, build, remote, from + 1);
          var rest := Batch(setting, msgs, build, remote, from + 1);
          assert Succeeds(setting, msgs, build, remote, from);
          var k :| from + 1 <= k < |msgs|
            && (forall j :: from + 1 <= j < k ==> Succeeds(setting, msgs, build, remote, j))
            && !Succeeds(setting, msgs, build, remote, k)
            && rest.result.error == FailureOf(setting, msgs, build, remote, k)
            && |rest.requests| == k - (from + 1) + (if build(msgs[k]).Ok? then 1 else 0);
          assert forall j :: from <= j < k ==> Succeeds(setting, msgs, build, remote, j);
        } else {
          assert !Succeeds(setting, msgs, build, remote, from);
        }
    }
  }

  /**
   * `send_messages` with a usable connection: the number of messages, all
   * submitted in order, exactly when every message is built and delivered;
   * otherwise an exception (`BatchFirstFailure` says which) after submitting
   * only built envelopes, in order.
   */
  lemma SendAllSpec(connection: bool, openResult: OpenResult, setting: string, msgs: seq<EmailMessage>,
                    build: EmailMessage -> Result<Envelope, Exception>, remote: (nat, Envelope) -> Delivery)
    ensures var r := SendAll(connection, openResult, setting, msgs, build, remote);
      && (connection && openResult != OpenFailed ==>
            (r.result.Ok? <==> forall i :: 0 <= i < |msgs| ==> Succeeds(setting, msgs, build, remote, i)))
      && (connection && openResult != OpenFailed && r.result.Ok? ==>
            r.result.value == |msgs| && |r.requests| == |msgs|)
      && (forall i :: 0 <= i < |r.requests| ==> build(msgs[i]) == Ok(r.requests[i]))
  {
    if connection && openResult != OpenFailed {
      var b := Batch(setting, msgs, build, remote, 0);
      BatchSpec(setting, msgs, build, remote, 0);
      forall i | 0 <= i < |b.requests|
        ensures build(msgs[i]) == Ok(b.requests[i])
      {
        assert build(msgs[0 + i]) == Ok(b.requests[i]);
      }
    }
  }

  /** The remaining batch from `i` after `n` successes and the requests `reqs` of the messages before `i`. */
  lemma BatchStep(setting: string, msgs: seq<EmailMessage>, build: EmailMessage -> Result<Envelope, Exception>,
                  remote: (nat, Envelope) -> Delivery, i: nat, env: Envelope, n: nat, reqs: seq<Envelope>)
    requires i < |msgs| && build(msgs[i]) == Ok(env)
    requires Send(setting, remote(i, env)).Ok?
    ensures Prepend(n, reqs, Batch(setting, msgs, build, remote, i))
      == Prepend(n + 1, reqs + [env], Batch(setting, msgs, build, remote, i + 1))
  {
    var rest := Batch(setting, msgs, build, remote, i + 1);
    assert reqs + ([env] + rest.requests) == reqs + [env] + rest.requests;
  }

  /** The batch from `i` when message `i` cannot be built. */
  lemma BatchBuildFails(setting: string, msgs: seq<EmailMessage>, build: EmailMessage -> Result<Envelope, Exception>,
                        remote: (nat, Envelope) -> Delivery, i: nat, n: nat, reqs: seq<Envelope>)
    requires i < |msgs| && build(msgs[i]).Err?
    ensures Prepend(n, reqs, Batch(setting, msgs, build, remote, i)) == BatchOutcome(Err(build(msgs[i]).error), reqs)
  {
    assert reqs + [] == reqs;
  }

  /** The batch from `i` when the submission of message `i` raises. */
  lemma BatchSendFails(setting: string, msgs: seq<EmailMessage>, build: EmailMessage -> Result<Envelope, Exception>,
                       remote: (nat, Envelope) -> Delivery, i: nat, env: Envelope, n: nat, reqs: seq<Envelope>)
    requires i < |msgs| && build(msgs[i]) == Ok(env)
    requires Send(setting, remote(i, env)).Err?
    ensures Prepend(n, reqs, Batch(setting, msgs, build, remote, i))
      == BatchOutcome(Err(Send(setting, remote(i, env)).error), reqs + [env])
  {
  }

  /**
   * The loop of `send_messages`: build and submit each message in order,
   * count the successes, and stop at the first exception.
   */
  method SubmitAll(setting: string, msgs: seq<EmailMessage>, lib: Library, remote: (nat, Envelope) -> Delivery)
    returns (outcome: BatchOutcome)
    ensures outcome == Batch(setting, msgs, EnvelopeBuilder(lib), remote, 0)
  {
    var build := EnvelopeBuilder(lib);
    var numSent: nat := 0;
    var requests: seq<Envelope> := [];
    for i := 0 to |msgs|
      invariant Batch(setting, msgs, build, remote, 0) == Prepend(numSent, requests, Batch(setting, msgs, build, remote, i))
    {
      var message := CreateMessage(msgs[i], lib);
      assert build(msgs[i]) == message;
      if message.Err? {
        BatchBuildFails(setting, msgs, build, remote, i, numSent, requests);
        return BatchOutcome(Err(message.error), requests);
      }
      var sent := Send(setting, remote(i, message.value));
      if sent.Err? {
        BatchSendFails(setting, msgs, build, remote, i, message.value, numSent, requests);
        return BatchOutcome(Err(sent.error), requests + [message.value]);
      }
      BatchStep(setting, msgs, build, remote, i, message.value, numSent, requests);
      if sent.value {
        numSent := numSent + 1;
      }
      requests := requests + [message.value];
    }
    outcome := BatchOutcome(Ok(numSent), requests);
  }

  /**
   * `send_messages`: the connection check, the loop, then `close()` when
   * `open()` returned `True` and no exception escaped the loop.
   */
  method SendMessages(connection: bool, openResult: OpenResult, setting: string, msgs: seq<EmailMessage>,
                      lib: Library, remote: (nat, Envelope) -> Delivery) returns (report: SendReport)
    ensures report == SendAll(connection, openResult, setting, msgs, EnvelopeBuilder(lib), remote)
  {
    if !connection || openResult == OpenFailed {
      return SendReport(Ok(0), [], false);
    }
    var outcome := SubmitAll(setting, msgs, lib, remote);
    if outcome.result.Err? {
      return SendReport(outcome.result, outcome.requests, false);
    }
    var closed := openResult == OpenedNew;
    report := SendReport(outcome.result, outcome.requests, closed);
  }
}

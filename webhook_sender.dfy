/**
 * The legacy webhook sender (src/CoreCompat/CoreWebhookSender.php): it
 * turns a legacy outbox row into a dispatch request and reports the
 * dispatcher's verdict. Its decodeJsonArray is the same lenient decoding as
 * the workers' decodeJson (WorkerSupport.DecodeJson). Whether curl is
 * available, and the transfer the built-in dispatcher would make, are
 * parameters.
 */
module WebhookSender {
  import opened Common
  import opened PhpStrings
  import opened PhpValues
  import opened DispatchResults
  import opened WorkerSupport
  import opened HttpDispatch

  const SenderUserAgent := "blackcat-core-webhook-sender/1.0"
  const SenderTimeoutSeconds := 5
  const FallbackEventType := "event"

  const WebhookUrlKey := StrKey("webhook_url")
  const PayloadKey := StrKey("payload")
  const HeadersKey := StrKey("headers")
  const OutboxIdKey := StrKey("outbox_id")

  /** The constructor's injected dispatcher (if any), timeout and user agent; the logger is left out. */
  datatype CoreWebhookSender = CoreWebhookSender(dispatcher: Option<Dispatcher>, timeoutSeconds: int, userAgent: string)

  /** new CoreWebhookSender() */
  const DefaultSender := CoreWebhookSender(None, SenderTimeoutSeconds, SenderUserAgent)

  lemma FallbackEventTypeIsTrimmed()
    ensures IsTrimmedNonBlank(FallbackEventType)
  {
  }

  /** $eventType: the trimmed topic text, or 'event' when that is blank. */
  function EventTypeText(topic: string): (r: string)
    ensures IsTrimmedNonBlank(r)
    ensures !IsBlank(topic) ==> r == Trim(topic)
    ensures IsBlank(topic) ==> r == FallbackEventType
  {
    FallbackEventTypeIsTrimmed();
    var t := Trim(topic);
    TrimIdempotent(topic);
    if t != "" then t else FallbackEventType
  }

  /** is_string($row['topic'] ?? null) ? trim(...) : '', then 'event' for ''. */
  function EventTypeOf(row: PhpArray): (r: string)
    ensures IsTrimmedNonBlank(r)
  {
    var topic := Field(row, "topic");
    EventTypeText(if topic.Str? then topic.s else "")
  }

  /** The event type is the trimmed string topic, or 'event' when the topic is missing, not a string or blank. */
  lemma EventTypeOfTopic(row: PhpArray)
    ensures var topic := Field(row, "topic");
      EventTypeOf(row) == if topic.Str? && !IsBlank(topic.s) then Trim(topic.s) else FallbackEventType
  {
    FallbackEventTypeIsTrimmed();
    TrimOfTrimmed(FallbackEventType);
  }

  /** ['webhook_url' => $url, 'payload' => $payload] plus 'headers' when any remain. */
  function RequestPayload(url: string, payload: PhpArray, httpHeaders: PhpArray): (p: PhpArray)
    ensures |p| == if httpHeaders != [] then 3 else 2
  {
    var tail := if httpHeaders != [] then [Entry(HeadersKey, Arr(httpHeaders))] else [];
    [Entry(WebhookUrlKey, Str(url)), Entry(PayloadKey, Arr(payload))] + tail
  }

  /**
   * The request payload holds the URL, the payload and the remaining headers
   * (only when there are any) under their keys, and no other key.
   */
  lemma RequestPayloadLookup(url: string, payload: PhpArray, httpHeaders: PhpArray)
    ensures var p := RequestPayload(url, payload, httpHeaders);
      && Get(p, WebhookUrlKey) == Some(Str(url))
      && Get(p, PayloadKey) == Some(Arr(payload))
      && Get(p, HeadersKey) == (if httpHeaders != [] then Some(Arr(httpHeaders)) else None)
      && forall i | 0 <= i < |p| :: p[i].key == WebhookUrlKey || p[i].key == PayloadKey || p[i].key == HeadersKey
  {
    var p := RequestPayload(url, payload, httpHeaders);
    assert p[0] == Entry(WebhookUrlKey, Str(url));
    assert p[1..][0] == Entry(PayloadKey, Arr(payload));
    if httpHeaders != [] {
      assert p[1..][1..] == [Entry(HeadersKey, Arr(httpHeaders))];
    } else {
      assert p[1..][1..] == [];
    }
  }

  /**
   * The built-in dispatcher reads a request payload's URL from webhook_url,
   * since none of the aliases it tries first is present.
   */
  lemma RequestPayloadReadUrl(url: string, payload: PhpArray, httpHeaders: PhpArray)
    ensures ReadUrl(RequestPayload(url, payload, httpHeaders)) == if !IsBlank(url) then Some(Trim(url)) else None
  {
    var p := RequestPayload(url, payload, httpHeaders);
    RequestPayloadLookup(url, payload, httpHeaders);
    assert !HasKey(p, UrlAliases[0]);
    assert UrlCandidate(p) == Str(url);
  }

  /**
   * The dispatch send makes for a row, or None when the decoded headers
   * carry no non-blank string webhook_url (send then returns true at once).
   */
  function SendCall(row: PhpArray, jsonDecode: string -> Value): (r: Option<DispatchCall>)
    ensures var url := Lookup(DecodeJson(Field(row, "headers"), jsonDecode), WebhookUrlKey);
      r.Some? <==> url.Str? && !IsBlank(url.s)
  {
    var payload := DecodeJson(Field(row, "payload"), jsonDecode);
    var headers := DecodeJson(Field(row, "headers"), jsonDecode);
    var url := Lookup(headers, WebhookUrlKey);
    if !url.Str? || IsBlank(url.s) then None
    else
      var httpHeaders := Unset(headers, WebhookUrlKey);
      Some(DispatchCall(EventTypeOf(row), RequestPayload(url.s, payload, httpHeaders),
        [Entry(OutboxIdKey, Lookup(row, StrKey("id")))]))
  }

  /**
   * The verdict on one dispatch: the injected dispatcher's ok, or, without
   * one, false when curl is missing and else the built-in HTTP dispatcher's ok.
   */
  function Verdict(sender: CoreWebhookSender, call: DispatchCall, curlAvailable: bool,
                   jsonEncode: Value -> Option<string>, transfer: HttpRequest -> HttpOutcome): bool
  {
    match sender.dispatcher
    case Some(dispatch) => dispatch(call.eventType, call.payload, call.meta).ok
    case None =>
      curlAvailable &&
      DispatchResult(HttpWebhookDispatcher(sender.timeoutSeconds, sender.userAgent),
        call.eventType, call.payload, jsonEncode, transfer).ok
  }

  /** CoreWebhookSender::send: true without dispatching when there is no URL, else the verdict. */
  function Send(sender: CoreWebhookSender, row: PhpArray, curlAvailable: bool, jsonDecode: string -> Value,
                jsonEncode: Value -> Option<string>, transfer: HttpRequest -> HttpOutcome): bool
  {
    match SendCall(row, jsonDecode)
    case None => true
    case Some(call) => Verdict(sender, call, curlAvailable, jsonEncode, transfer)
  }

  /** A row without a usable webhook_url header counts as sent, whatever the dispatcher would say. */
  lemma SendWithoutUrlSucceeds(sender: CoreWebhookSender, row: PhpArray, curlAvailable: bool, jsonDecode: string -> Value,
                               jsonEncode: Value -> Option<string>, transfer: HttpRequest -> HttpOutcome)
    requires var url := Lookup(DecodeJson(Field(row, "headers"), jsonDecode), WebhookUrlKey); !url.Str? || IsBlank(url.s)
    ensures SendCall(row, jsonDecode).None?
    ensures Send(sender, row, curlAvailable, jsonDecode, jsonEncode, transfer)
  {
  }

  /** With a URL and an injected dispatcher, send returns exactly that dispatcher's ok. */
  lemma SendReturnsDispatcherVerdict(sender: CoreWebhookSender, dispatch: Dispatcher, row: PhpArray, call: DispatchCall,
                                     curlAvailable: bool, jsonDecode: string -> Value,
                                     jsonEncode: Value -> Option<string>, transfer: HttpRequest -> HttpOutcome)
    requires sender.dispatcher == Some(dispatch)
    requires SendCall(row, jsonDecode) == Some(call)
    ensures Send(sender, row, curlAvailable, jsonDecode, jsonEncode, transfer) == dispatch(call.eventType, call.payload, call.meta).ok
  {
    assert Send(sender, row, curlAvailable, jsonDecode, jsonEncode, transfer)
      == Verdict(sender, call, curlAvailable, jsonEncode, transfer);
  }

  /**
   * The dispatch send asks for: the trimmed topic (or 'event'), a payload
   * holding the untrimmed URL, the decoded payload and, only when any
   * remain, the other headers, and meta {outbox_id}.
   */
  lemma SendCallShape(row: PhpArray, jsonDecode: string -> Value)
    requires SendCall(row, jsonDecode).Some?
    ensures var call := SendCall(row, jsonDecode).value;
      var headers := DecodeJson(Field(row, "headers"), jsonDecode);
      var rest := Unset(headers, WebhookUrlKey);
      && call.eventType == EventTypeOf(row)
      && Get(call.payload, WebhookUrlKey) == Get(headers, WebhookUrlKey)
      && Get(call.payload, PayloadKey) == Some(Arr(DecodeJson(Field(row, "payload"), jsonDecode)))
      && Get(call.payload, HeadersKey) == (if rest != [] then Some(Arr(rest)) else None)
      && call.meta == [Entry(OutboxIdKey, Lookup(row, StrKey("id")))]
  {
    var headers := DecodeJson(Field(row, "headers"), jsonDecode);
    var url := Lookup(headers, WebhookUrlKey);
    RequestPayloadLookup(url.s, DecodeJson(Field(row, "payload"), jsonDecode), Unset(headers, WebhookUrlKey));
  }

  /** Without an injected dispatcher and without curl, send reports failure. */
  lemma SendWithoutDispatcherOrCurlFails(sender: CoreWebhookSender, row: PhpArray, jsonDecode: string -> Value,
                                         jsonEncode: Value -> Option<string>, transfer: HttpRequest -> HttpOutcome)
    requires sender.dispatcher.None?
    requires SendCall(row, jsonDecode).Some?
    ensures !Send(sender, row, false, jsonDecode, jsonEncode, transfer)
  {
    var call := SendCall(row, jsonDecode).value;
    assert Send(sender, row, false, jsonDecode, jsonEncode, transfer)
      == Verdict(sender, call, false, jsonEncode, transfer);
  }

  /**
   * The built-in dispatcher reads the URL send passed under webhook_url, so
   * the request goes to the trimmed header URL and never fails as missing.
   */
  lemma BuiltInDispatcherFindsUrl(row: PhpArray, jsonDecode: string -> Value)
    requires SendCall(row, jsonDecode).Some?
    ensures var url := Lookup(DecodeJson(Field(row, "headers"), jsonDecode), WebhookUrlKey);
      ReadUrl(SendCall(row, jsonDecode).value.payload) == Some(Trim(url.s))
  {
    var headers := DecodeJson(Field(row, "headers"), jsonDecode);
    var url := Lookup(headers, WebhookUrlKey);
    RequestPayloadReadUrl(url.s, DecodeJson(Field(row, "payload"), jsonDecode), Unset(headers, WebhookUrlKey));
  }
}

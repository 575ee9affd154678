/**
 * The HTTP webhook dispatcher (src/Webhook/HttpWebhookDispatcher.php):
 * reading the target URL from its aliases, choosing the body, normalising
 * the header list, preparing the request and classifying the HTTP outcome.
 * The curl transfer itself is a parameter: it receives the prepared request
 * and returns what curl reported.
 */
module HttpDispatch {
  import opened Common
  import opened PhpStrings
  import opened PhpValues
  import opened DispatchResults

  const DefaultTimeoutSeconds := 5
  const DefaultUserAgent := "blackcat-webhook-outbox/1.0"

  const MissingUrl := "missing_webhook_url"
  const JsonEncodeFailed := "json_encode_failed"
  const CurlFailed := "curl_failed"
  const HttpErrorPrefix := "http_"
  const DefaultMethod := "POST"
  const ContentTypeHeader := "Content-Type: application/json"
  const UserAgentPrefix := "User-Agent: "

  const EventTypeKey := StrKey("event_type")

  /** The keys a payload may use for the target URL, in order of preference. */
  const UrlAliases: seq<Key> := [StrKey("url"), StrKey("webhook_url"), StrKey("endpoint")]

  /** The keys that address or shape the request rather than belong to its body. */
  const RoutingKeys: seq<Key> := UrlAliases + [StrKey("headers"), StrKey("method")]

  datatype HttpWebhookDispatcher = HttpWebhookDispatcher(timeoutSeconds: int, userAgent: string)

  /** new HttpWebhookDispatcher() */
  const Default := HttpWebhookDispatcher(DefaultTimeoutSeconds, DefaultUserAgent)

  /** The request handed to curl: target, verb, header lines, JSON body and the two timeouts. */
  datatype HttpRequest = HttpRequest(
    url: string,
    verb: string,
    headers: seq<string>,
    body: string,
    timeoutSeconds: int,
    connectTimeoutSeconds: int)

  /**
   * What curl reported: whether curl_exec returned a response, the
   * CURLINFO_HTTP_CODE (None when it is not an int) and curl_error.
   */
  datatype HttpOutcome = HttpOutcome(completed: bool, status: Option<int>, error: string)

  /** Either the result dispatch returns before any transfer, or the request it transfers. */
  datatype Prepared = Rejected(result: WebhookDispatchResult) | Ready(request: HttpRequest)

  // ---------------------------------------------------------------- readUrl

  /** $payload['url'] ?? ($payload['webhook_url'] ?? ($payload['endpoint'] ?? null)) */
  function UrlCandidate(payload: PhpArray): Value {
    if Lookup(payload, UrlAliases[0]) != Null then Lookup(payload, UrlAliases[0])
    else if Lookup(payload, UrlAliases[1]) != Null then Lookup(payload, UrlAliases[1])
    else Lookup(payload, UrlAliases[2])
  }

  /** readUrl: the first non-null alias, trimmed, when it is a non-blank string. */
  function ReadUrl(payload: PhpArray): (r: Option<string>)
    ensures r.Some? <==> UrlCandidate(payload).Str? && !IsBlank(UrlCandidate(payload).s)
    ensures r.Some? ==> r.value == Trim(UrlCandidate(payload).s) && IsTrimmedNonBlank(r.value)
  {
    var url := UrlCandidate(payload);
    if url.Str? && Trim(url.s) != "" then Some(Trim(url.s)) else None
  }

  /** A one-entry payload offers its value under its own key. */
  lemma LookupSingle(k: Key, v: Value, k': Key)
    ensures Lookup([Entry(k, v)], k') == if k' == k then v else Null
  {
    if k' != k {
      assert !HasKey([Entry(k, v)], k');
    }
  }

  /** The three aliases are read alike when a payload carries only one of them. */
  lemma ReadUrlAliasesAgree(alias: Key, v: Value)
    requires alias in UrlAliases
    ensures ReadUrl([Entry(alias, v)]) == if v.Str? && !IsBlank(v.s) then Some(Trim(v.s)) else None
  {
    var p := [Entry(alias, v)];
    LookupSingle(alias, v, UrlAliases[0]);
    LookupSingle(alias, v, UrlAliases[1]);
    LookupSingle(alias, v, UrlAliases[2]);
    assert UrlCandidate(p) == v;
  }

  /**
   * A non-null 'url' wins even when it is unusable: the other aliases are
   * then not consulted, so an array under 'url' gives no URL at all.
   */
  lemma ReadUrlNonNullUrlShadowsAliases(payload: PhpArray)
    requires Lookup(payload, UrlAliases[0]) != Null
    ensures ReadUrl(payload) == ReadUrl([Entry(UrlAliases[0], Lookup(payload, UrlAliases[0]))])
  {
    ReadUrlAliasesAgree(UrlAliases[0], Lookup(payload, UrlAliases[0]));
  }

  // ------------------------------------------------------------ resolveBody

  /** unset($a[$k]) for each key in turn. */
  function UnsetAll(a: PhpArray, ks: seq<Key>): PhpArray
    decreases |ks|
  {
    if ks == [] then a else UnsetAll(Unset(a, ks[0]), ks[1..])
  }

  lemma {:induction false} GetUnsetAll(a: PhpArray, ks: seq<Key>, k: Key)
    ensures Get(UnsetAll(a, ks), k) == if k in ks then None else Get(a, k)
    decreases |ks|
  {
    if ks != [] {
      GetUnsetAll(Unset(a, ks[0]), ks[1..], k);
      if k == ks[0] {
        GetUnsetSame(a, k);
      } else {
        GetUnsetOther(a, ks[0], k);
        assert k in ks <==> k in ks[1..];
      }
    }
  }

  /** resolveBody: the 'body' array, else the 'payload' array, else the payload without its routing keys. */
  function ResolveBody(payload: PhpArray): PhpArray {
    var body := Field(payload, "body");
    var inner := Field(payload, "payload");
    if body.Arr? then body.entries
    else if inner.Arr? then inner.entries
    else UnsetAll(payload, RoutingKeys)
  }

  /**
   * The body is the 'body' array when there is one, else the 'payload'
   * array, else the payload with url, webhook_url, endpoint, headers and
   * method removed and every other key keeping its value.
   */
  lemma ResolveBodyChoice(payload: PhpArray)
    ensures Field(payload, "body").Arr? ==> ResolveBody(payload) == Field(payload, "body").entries
    ensures !Field(payload, "body").Arr? && Field(payload, "payload").Arr? ==>
      ResolveBody(payload) == Field(payload, "payload").entries
    ensures !Field(payload, "body").Arr? && !Field(payload, "payload").Arr? ==>
      forall k :: Get(ResolveBody(payload), k) == if k in RoutingKeys then None else Get(payload, k)
  {
    forall k ensures Get(UnsetAll(payload, RoutingKeys), k) == if k in RoutingKeys then None else Get(payload, k) {
      GetUnsetAll(payload, RoutingKeys, k);
    }
  }

  /** $body['event_type'] = $body['event_type'] ?? $eventType */
  function EventTypedBody(payload: PhpArray, eventType: string): PhpArray {
    var body := ResolveBody(payload);
    Set(body, EventTypeKey, if Lookup(body, EventTypeKey) == Null then Str(eventType) else Lookup(body, EventTypeKey))
  }

  /**
   * The body's own non-null event_type stays, otherwise the dispatched one
   * is set; no other key changes.
   */
  lemma EventTypedBodyLookup(payload: PhpArray, eventType: string)
    ensures var body := ResolveBody(payload); var b := EventTypedBody(payload, eventType);
      && Get(b, EventTypeKey) == Some(if Lookup(body, EventTypeKey) == Null then Str(eventType) else Lookup(body, EventTypeKey))
      && forall k | k != EventTypeKey :: Get(b, k) == Get(body, k)
  {
    var body := ResolveBody(payload);
    var v := if Lookup(body, EventTypeKey) == Null then Str(eventType) else Lookup(body, EventTypeKey);
    GetSetSame(body, EventTypeKey, v);
    forall k | k != EventTypeKey ensures Get(Set(body, EventTypeKey, v), k) == Get(body, k) {
      GetSetOther(body, EventTypeKey, v, k);
    }
  }

  /** A body that names its own event type is sent as it is. */
  lemma EventTypedBodyKeepsOwnType(payload: PhpArray, eventType: string)
    requires Lookup(ResolveBody(payload), EventTypeKey) != Null
    ensures EventTypedBody(payload, eventType) == ResolveBody(payload)
  {
    SetToCurrentValue(ResolveBody(payload), EventTypeKey);
  }

  // ---------------------------------------------------------- request method

  /** Case mapping of one character: upper-casing keeps the lower-case form and never makes a trim character. */
  lemma UpperCharFacts(c: char)
    ensures LowerChar(UpperChar(c)) == LowerChar(c)
    ensures IsTrimChar(UpperChar(c)) == IsTrimChar(c)
  {
  }

  /** Upper-casing keeps a string trimmed and changes it only up to case. */
  lemma UpperOfTrimmed(t: string)
    requires Trim(t) == t
    ensures Upper(t) == [] || IsTrimmedNonBlank(Upper(t))
    ensures Lower(Upper(t)) == Lower(t)
  {
    var m := Upper(t);
    var l, lt := Lower(m), Lower(t);
    forall i | 0 <= i < |m| ensures l[i] == lt[i] {
      UpperCharFacts(t[i]);
    }
    assert l == lt;
    if t != [] {
      UpperCharFacts(t[0]);
      UpperCharFacts(t[|t| - 1]);
      assert m[0] == UpperChar(t[0]) && m[|m| - 1] == UpperChar(t[|t| - 1]);
    }
  }

  /** The request verb: upper-cased, trimmed and never empty. */
  predicate IsVerb(m: string) {
    IsTrimmedNonBlank(m) && forall i | 0 <= i < |m| :: !('a' <= m[i] <= 'z')
  }

  lemma DefaultMethodIsVerb()
    ensures IsTrimmedNonBlank(DefaultMethod)
    ensures forall i | 0 <= i < |DefaultMethod| :: !('a' <= DefaultMethod[i] <= 'z')
  {
  }

  /** strtoupper(trim($text)), with '' replaced by POST. */
  function VerbOf(text: string): (m: string)
    ensures IsVerb(m)
    ensures IsBlank(text) ==> m == DefaultMethod
    ensures !IsBlank(text) ==> Lower(m) == Lower(Trim(text))
  {
    DefaultMethodIsVerb();
    var t := Trim(text);
    TrimIdempotent(text);
    UpperOfTrimmed(t);
    var m := Upper(t);
    if |m| == 0 then DefaultMethod else m
  }

  /**
   * strtoupper(trim((string)($payload['method'] ?? 'POST'))), with '' replaced
   * by POST; an absent or null method is POST directly.
   */
  function RequestMethod(payload: PhpArray): (m: string)
    ensures IsVerb(m)
  {
    var raw := Field(payload, "method");
    if raw == Null then
      DefaultMethodIsVerb();
      DefaultMethod
    else VerbOf(ToPhpString(raw))
  }

  // ------------------------------------------------------- normalizeHeaders

  /** array_keys($h) === range(0, count($h) - 1); range(0, -1) is [0, -1], so [] is not a list. */
  predicate IsList(h: PhpArray) {
    |h| > 0 && forall i | 0 <= i < |h| :: h[i].key == IntKey(i)
  }

  /** trim() of a header name or value, with the facts the header lines need. */
  function HeaderText(text: string): (r: string)
    ensures r == Trim(text)
    ensures r == [] || IsTrimmedNonBlank(r)
    ensures r == [] <==> IsBlank(text)
  {
    Trim(text)
  }

  /** What the list branch keeps of one entry: its trimmed text when that is a non-blank string. */
  function ListEntryItem(e: Entry): (r: seq<string>)
    ensures |r| <= 1 && (r != [] ==> IsTrimmedNonBlank(r[0]))
  {
    var v := e.val;
    if v.Str? && Trim(v.s) != "" then [Trim(v.s)] else []
  }

  /** What the map branch keeps of one entry: "name: value" unless the name or value is blank or the value an array. */
  function MapEntryItem(e: Entry): (r: seq<string>)
    ensures |r| <= 1 && (r != [] ==> IsTrimmedNonBlank(r[0]))
  {
    var name := HeaderText(KeyToString(e.key));
    if name == "" || e.val.Arr? then []
    else
      var value := HeaderText(ToPhpString(e.val));
      if value == "" then []
      else
        HeaderLineIsTrimmed(name, value);
        [name + ": " + value]
  }

  /** "name: value" starts with the name's first character and ends with the value's last. */
  lemma HeaderLineIsTrimmed(name: string, value: string)
    requires IsTrimmedNonBlank(name) && IsTrimmedNonBlank(value)
    ensures IsTrimmedNonBlank(name + ": " + value)
  {
    var line := name + ": " + value;
    assert line[0] == name[0];
    assert line[|line| - 1] == value[|value| - 1];
  }

  /** The items of each entry in turn, concatenated. */
  function Collect(h: PhpArray, item: Entry -> seq<string>): seq<string>
    decreases |h|
  {
    if h == [] then [] else Collect(h[..|h| - 1], item) + item(h[|h| - 1])
  }

  lemma {:induction false} CollectMembers(h: PhpArray, item: Entry -> seq<string>)
    ensures forall x :: x in Collect(h, item) <==> exists i | 0 <= i < |h| :: x in item(h[i])
    decreases |h|
  {
    if h != [] {
      var init := h[..|h| - 1];
      CollectMembers(init, item);
      forall x ensures x in Collect(h, item) <==> exists i | 0 <= i < |h| :: x in item(h[i]) {
        if x in Collect(init, item) {
          var i :| 0 <= i < |init| && x in item(init[i]);
          assert h[i] == init[i];
        }
        if exists i | 0 <= i < |h| :: x in item(h[i]) {
          var i :| 0 <= i < |h| && x in item(h[i]);
          if i < |h| - 1 {
            assert init[i] == h[i];
          }
        }
      }
    }
  }

  lemma {:induction false} CollectShape(h: PhpArray, item: Entry -> seq<string>)
    requires forall i | 0 <= i < |h| :: |item(h[i])| <= 1 && (item(h[i]) != [] ==> IsTrimmedNonBlank(item(h[i])[0]))
    ensures |Collect(h, item)| <= |h|
    ensures forall j | 0 <= j < |Collect(h, item)| :: IsTrimmedNonBlank(Collect(h, item)[j])
    decreases |h|
  {
    if h != [] {
      var init := h[..|h| - 1];
      assert forall i | 0 <= i < |init| :: init[i] == h[i];
      CollectShape(init, item);
      var front, last := Collect(init, item), item(h[|h| - 1]);
      var c := Collect(h, item);
      assert c == front + last;
      forall j | 0 <= j < |c| ensures IsTrimmedNonBlank(c[j]) {
        if j < |front| {
          assert c[j] == front[j];
        } else {
          assert c[j] == last[j - |front|];
        }
      }
    }
  }

  /** normalizeHeaders, as a value: the list branch or the map branch. */
  function NormalizedHeaders(h: PhpArray): (r: seq<string>)
    ensures |r| <= |h|
    ensures forall j | 0 <= j < |r| :: IsTrimmedNonBlank(r[j])
  {
    if IsList(h) then
      CollectShape(h, ListEntryItem);
      Collect(h, ListEntryItem)
    else
      CollectShape(h, MapEntryItem);
      Collect(h, MapEntryItem)
  }

  /** Extending the entries by one extends the collected lines by that entry's lines. */
  lemma CollectSnoc(h: PhpArray, i: int, item: Entry -> seq<string>)
    requires 0 <= i < |h|
    ensures Collect(h[..i + 1], item) == Collect(h[..i], item) + item(h[i])
  {
    assert h[..i + 1][..i] == h[..i];
  }

  /** The lines the list branch produces: the trimmed non-blank strings, in any order. */
  lemma ListHeadersMembers(h: PhpArray)
    requires IsList(h)
    ensures forall x :: x in NormalizedHeaders(h) <==>
      exists i | 0 <= i < |h| :: h[i].val.Str? && !IsBlank(h[i].val.s) && x == Trim(h[i].val.s)
  {
    CollectMembers(h, ListEntryItem);
  }

  /** One map entry's line, in terms of its trimmed name and value. */
  lemma MapEntryItemLine(e: Entry)
    ensures MapEntryItem(e) ==
      if !IsBlank(KeyToString(e.key)) && !e.val.Arr? && !IsBlank(ToPhpString(e.val))
      then [Trim(KeyToString(e.key)) + ": " + Trim(ToPhpString(e.val))] else []
  {
  }

  /**
   * The lines the map branch produces: "name: value" for each entry whose
   * trimmed name and value are non-blank and whose value is not an array.
   */
  lemma MapHeadersMembers(h: PhpArray)
    requires !IsList(h)
    ensures forall x :: x in NormalizedHeaders(h) <==>
      exists i | 0 <= i < |h| ::
        && !IsBlank(KeyToString(h[i].key)) && !h[i].val.Arr? && !IsBlank(ToPhpString(h[i].val))
        && x == Trim(KeyToString(h[i].key)) + ": " + Trim(ToPhpString(h[i].val))
  {
    CollectMembers(h, MapEntryItem);
    forall i | 0 <= i < |h|
      ensures MapEntryItem(h[i]) ==
        if !IsBlank(KeyToString(h[i].key)) && !h[i].val.Arr? && !IsBlank(ToPhpString(h[i].val))
        then [Trim(KeyToString(h[i].key)) + ": " + Trim(ToPhpString(h[i].val))] else []
    {
      MapEntryItemLine(h[i]);
    }
  }

  /** normalizeHeaders: one pass over the entries, appending what each contributes. */
  method NormalizeHeaders(headers: PhpArray) returns (out: seq<string>)
    ensures out == NormalizedHeaders(headers)
  {
    out := [];
    if IsList(headers) {
      out := CollectListHeaders(headers);
    } else {
      out := CollectMapHeaders(headers);
    }
  }

  /** The list branch of normalizeHeaders: each non-blank string entry, trimmed. */
  method CollectListHeaders(headers: PhpArray) returns (out: seq<string>)
    ensures out == Collect(headers, ListEntryItem)
  {
    out := [];
    for i := 0 to |headers|
      invariant out == Collect(headers[..i], ListEntryItem)
    {
      var h := headers[i].val;
      if h.Str? && Trim(h.s) != "" {
        out := out + [Trim(h.s)];
      }
      CollectSnoc(headers, i, ListEntryItem);
    }
    assert headers[..|headers|] == headers;
  }

  /** The map branch of normalizeHeaders: "name: value" for each entry with a non-blank name and value. */
  method CollectMapHeaders(headers: PhpArray) returns (out: seq<string>)
    ensures out == Collect(headers, MapEntryItem)
  {
    out := [];
    for i := 0 to |headers|
      invariant out == Collect(headers[..i], MapEntryItem)
    {
      var name := HeaderText(KeyToString(headers[i].key));
      if name != "" && !headers[i].val.Arr? {
        var value := HeaderText(ToPhpString(headers[i].val));
        if value != "" {
          out := out + [name + ": " + value];
        }
      }
      CollectSnoc(headers, i, MapEntryItem);
    }
    assert headers[..|headers|] == headers;
  }

  // --------------------------------------------------------------- dispatch

  /** is_array($payload['headers'] ?? null) ? $payload['headers'] : [] */
  function HeaderSource(payload: PhpArray): PhpArray {
    var h := Field(payload, "headers");
    if h.Arr? then h.entries else []
  }

  /** 'http_' . $code */
  function HttpError(code: int): (e: string)
    ensures IsTrimmedNonBlank(e) && |e| > |HttpErrorPrefix| && e[..|HttpErrorPrefix|] == HttpErrorPrefix
  {
    var digits := IntToString(code);
    assert IsDigit(digits[|digits| - 1]);
    HttpErrorPrefix + digits
  }

  /** The curl header lines: the normalised headers, then Content-Type, then User-Agent. */
  function CurlHeaders(d: HttpWebhookDispatcher, payload: PhpArray): (h: seq<string>)
    ensures |h| == |NormalizedHeaders(HeaderSource(payload))| + 2
    ensures h[..|h| - 2] == NormalizedHeaders(HeaderSource(payload))
    ensures h[|h| - 2] == ContentTypeHeader && h[|h| - 1] == UserAgentPrefix + d.userAgent
  {
    NormalizedHeaders(HeaderSource(payload)) + [ContentTypeHeader, UserAgentPrefix + d.userAgent]
  }

  /**
   * The request dispatch sends, or the failure it returns first: a missing
   * URL, then a body json_encode rejects.
   */
  function Prepare(d: HttpWebhookDispatcher, eventType: string, payload: PhpArray, jsonEncode: Value -> Option<string>): (p: Prepared)
    ensures ReadUrl(payload).None? ==> p == Rejected(Failed(MissingUrl, None))
    ensures ReadUrl(payload).Some? && jsonEncode(Arr(EventTypedBody(payload, eventType))).None? ==>
      p == Rejected(Failed(JsonEncodeFailed, None))
    ensures p.Ready? <==> ReadUrl(payload).Some? && jsonEncode(Arr(EventTypedBody(payload, eventType))).Some?
    ensures p.Ready? ==>
      && p.request.url == ReadUrl(payload).value
      && p.request.verb == RequestMethod(payload)
      && p.request.body == jsonEncode(Arr(EventTypedBody(payload, eventType))).value
      && p.request.headers == CurlHeaders(d, payload)
      && 1 <= p.request.connectTimeoutSeconds <= 3
      && p.request.connectTimeoutSeconds <= p.request.timeoutSeconds
      && p.request.timeoutSeconds == Max(1, d.timeoutSeconds)
      && p.request.connectTimeoutSeconds == Max(1, Min(3, d.timeoutSeconds))
  {
    var url := ReadUrl(payload);
    if url.None? then
      Rejected(Failed(MissingUrl, None))
    else
      var json := jsonEncode(Arr(EventTypedBody(payload, eventType)));
      if json.None? then
        Rejected(Failed(JsonEncodeFailed, None))
      else
        Ready(HttpRequest(url.value, RequestMethod(payload), CurlHeaders(d, payload), json.value,
          Max(1, d.timeoutSeconds), Max(1, Min(3, d.timeoutSeconds))))
  }

  /**
   * The result for what curl reported: a failed transfer gives its error
   * (or 'curl_failed'), a status in 200..299 is success, any other status,
   * a missing one counting as 0, gives 'http_<code>'.
   */
  function Classify(o: HttpOutcome): (r: WebhookDispatchResult)
    ensures WellFormed(r)
    ensures r.ok <==> o.completed && 200 <= o.status.GetOr(0) < 300
    ensures r.ok ==> r.httpStatus == o.status
    ensures o.completed && !r.ok ==>
      r == WebhookDispatchResult(false, Some(o.status.GetOr(0)), Some(HttpError(o.status.GetOr(0))))
    ensures !o.completed ==> r == Failed(if o.error != "" then o.error else CurlFailed, o.status)
  {
    if !o.completed then
      Failed(if o.error != "" then o.error else CurlFailed, o.status)
    else
      var code := o.status.GetOr(0);
      if 200 <= code < 300 then OkResult(Some(code))
      else
        FailedKeepsTrimmedError(HttpError(code), Some(code));
        Failed(HttpError(code), Some(code))
  }

  /**
   * The error of a failed transfer: curl's message trimmed, 'curl_failed'
   * when curl gave none, and 'webhook_failed' when curl's message is blank.
   */
  lemma TransferFailureError(o: HttpOutcome)
    requires !o.completed
    ensures Classify(o).httpStatus == o.status
    ensures o.error == "" ==> Classify(o).error == Some(CurlFailed)
    ensures o.error != "" && IsBlank(o.error) ==> Classify(o).error == Some(DefaultError)
    ensures !IsBlank(o.error) ==> Classify(o).error == Some(Trim(o.error))
  {
    if o.error == "" {
      FailedKeepsTrimmedError(CurlFailed, o.status);
    }
  }

  /** The two failures dispatch returns before any transfer carry their own error text and no status. */
  lemma EarlyFailures()
    ensures Failed(MissingUrl, None) == WebhookDispatchResult(false, None, Some(MissingUrl))
    ensures Failed(JsonEncodeFailed, None) == WebhookDispatchResult(false, None, Some(JsonEncodeFailed))
  {
    FailedKeepsTrimmedError(MissingUrl, None);
    FailedKeepsTrimmedError(JsonEncodeFailed, None);
  }

  /** dispatch, as a value: the early failure, or the classification of the transfer. */
  function DispatchResult(d: HttpWebhookDispatcher, eventType: string, payload: PhpArray,
                          jsonEncode: Value -> Option<string>, transfer: HttpRequest -> HttpOutcome): (r: WebhookDispatchResult)
    ensures WellFormed(r)
  {
    match Prepare(d, eventType, payload, jsonEncode)
    case Rejected(failure) => failure
    case Ready(request) => Classify(transfer(request))
  }

  /**
   * dispatch: the URL is read first, then the method, the header source and
   * the body; the curl header list is the normalised headers followed by
   * Content-Type and then User-Agent. The $meta argument is discarded.
   */
  method Dispatch(d: HttpWebhookDispatcher, eventType: string, payload: PhpArray,
                  jsonEncode: Value -> Option<string>, transfer: HttpRequest -> HttpOutcome)
    returns (r: WebhookDispatchResult)
    ensures r == DispatchResult(d, eventType, payload, jsonEncode, transfer)
  {
    var url := ReadUrl(payload);
    if url.None? {
      return Failed(MissingUrl, None);
    }
    var verb := RequestMethod(payload);
    var headers := HeaderSource(payload);
    var body := EventTypedBody(payload, eventType);
    var json := jsonEncode(Arr(body));
    if json.None? {
      return Failed(JsonEncodeFailed, None);
    }
    var curlHeaders := NormalizeHeaders(headers);
    ghost var normalized := curlHeaders;
    curlHeaders := curlHeaders + [ContentTypeHeader];
    curlHeaders := curlHeaders + [UserAgentPrefix + d.userAgent];
    AppendTwo(normalized, ContentTypeHeader, UserAgentPrefix + d.userAgent);
    assert curlHeaders == CurlHeaders(d, payload);
    var request := HttpRequest(url.value, verb, curlHeaders, json.value,
      Max(1, d.timeoutSeconds), Max(1, Min(3, d.timeoutSeconds)));
    assert Prepare(d, eventType, payload, jsonEncode) == Ready(request);
    var outcome := transfer(request);
    r := Classify(outcome);
  }

  lemma AppendTwo<T>(s: seq<T>, x: T, y: T)
    ensures s + [x] + [y] == s + [x, y]
  {
  }

  /** Success is exactly a prepared request whose transfer completed with a 2xx status. */
  lemma DispatchOkIff2xx(d: HttpWebhookDispatcher, eventType: string, payload: PhpArray,
                         jsonEncode: Value -> Option<string>, transfer: HttpRequest -> HttpOutcome)
    ensures var p := Prepare(d, eventType, payload, jsonEncode);
      DispatchResult(d, eventType, payload, jsonEncode, transfer).ok <==>
        && p.Ready?
        && transfer(p.request).completed
        && 200 <= transfer(p.request).status.GetOr(0) < 300
  {
  }

  /** Without a URL the result is 'missing_webhook_url' and no transfer is consulted. */
  lemma DispatchWithoutUrlNeverTransfers(d: HttpWebhookDispatcher, eventType: string, payload: PhpArray,
                                         jsonEncode: Value -> Option<string>,
                                         t1: HttpRequest -> HttpOutcome, t2: HttpRequest -> HttpOutcome)
    requires ReadUrl(payload).None?
    ensures DispatchResult(d, eventType, payload, jsonEncode, t1) == DispatchResult(d, eventType, payload, jsonEncode, t2)
    ensures DispatchResult(d, eventType, payload, jsonEncode, t1) == WebhookDispatchResult(false, None, Some(MissingUrl))
  {
    EarlyFailures();
  }
}

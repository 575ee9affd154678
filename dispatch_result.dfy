/** The outcome of one webhook dispatch (src/Support/WebhookDispatchResult.php). */
module DispatchResults {
  import opened Common
  import opened PhpStrings
  import opened PhpValues

  const DefaultError := "webhook_failed"

  lemma DefaultErrorIsTrimmed()
    ensures Trim(DefaultError) == DefaultError
  {
    TrimOfTrimmed(DefaultError);
  }

  datatype WebhookDispatchResult = WebhookDispatchResult(ok: bool, httpStatus: Option<int>, error: Option<string>)

  /** A result is successful exactly when it carries no error. */
  predicate WellFormed(r: WebhookDispatchResult) {
    r.ok <==> r.error.None?
  }

  /** WebhookDispatchResult::ok */
  function OkResult(httpStatus: Option<int>): (r: WebhookDispatchResult)
    ensures r.ok && r.httpStatus == httpStatus && r.error == None
    ensures WellFormed(r)
  {
    WebhookDispatchResult(true, httpStatus, None)
  }

  /** WebhookDispatchResult::failed: the error is trimmed, and a blank one becomes 'webhook_failed'. */
  function Failed(error: string, httpStatus: Option<int>): (r: WebhookDispatchResult)
    ensures !r.ok && r.httpStatus == httpStatus && r.error.Some?
    ensures r.error.value != "" && Trim(r.error.value) == r.error.value
    ensures r.error.value == if IsBlank(error) then DefaultError else Trim(error)
    ensures WellFormed(r)
  {
    var e := Trim(error);
    TrimIdempotent(error);
    DefaultErrorIsTrimmed();
    WebhookDispatchResult(false, httpStatus, Some(if e != "" then e else DefaultError))
  }

  /** An error that is already trimmed and non-blank is kept verbatim. */
  lemma FailedKeepsTrimmedError(error: string, httpStatus: Option<int>)
    requires IsTrimmedNonBlank(error)
    ensures Failed(error, httpStatus) == WebhookDispatchResult(false, httpStatus, Some(error))
  {
    TrimOfTrimmed(error);
  }

  /** WebhookDispatcherInterface::dispatch($eventType, $payload, $meta) (src/Contracts/WebhookDispatcherInterface.php) */
  type Dispatcher = (string, PhpArray, PhpArray) -> WebhookDispatchResult

  /** The arguments of one dispatch call. */
  datatype DispatchCall = DispatchCall(eventType: string, payload: PhpArray, meta: PhpArray)
}

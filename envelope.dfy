/**
 * The message envelope (src/Support/MessageEnvelope.php): an immutable
 * topic, payload and header map; wrapping stamps an x-created-at header
 * unless one is already present.
 */
module Envelopes {
  import opened Common
  import opened PhpValues

  const CreatedAtHeader := StrKey("x-created-at")

  datatype Envelope = Envelope(topic: string, payload: PhpArray, headers: PhpArray)

  /**
   * MessageEnvelope::wrap. `createdAt` is the gmdate(DATE_ATOM) text of the
   * moment of wrapping; it is only used when the header is absent or null.
   */
  function Wrap(topic: string, payload: PhpArray, headers: PhpArray, createdAt: string): (e: Envelope)
    ensures e.topic == topic && e.payload == payload
    ensures Get(e.headers, CreatedAtHeader)
      == Some(if Lookup(headers, CreatedAtHeader) == Null then Str(createdAt) else Lookup(headers, CreatedAtHeader))
    ensures forall k | k != CreatedAtHeader :: Get(e.headers, k) == Get(headers, k)
  {
    var stamp := if Lookup(headers, CreatedAtHeader) == Null then Str(createdAt) else Lookup(headers, CreatedAtHeader);
    GetSetSame(headers, CreatedAtHeader, stamp);
    forall k | k != CreatedAtHeader ensures Get(Set(headers, CreatedAtHeader, stamp), k) == Get(headers, k) {
      GetSetOther(headers, CreatedAtHeader, stamp, k);
    }
    Envelope(topic, payload, Set(headers, CreatedAtHeader, stamp))
  }

  /** A header map that already carries a non-null x-created-at comes back unchanged. */
  lemma WrapKeepsStampedHeaders(topic: string, payload: PhpArray, headers: PhpArray, createdAt: string)
    requires Lookup(headers, CreatedAtHeader) != Null
    ensures Wrap(topic, payload, headers, createdAt).headers == headers
  {
    SetToCurrentValue(headers, CreatedAtHeader);
  }

  /** Without the header, wrapping appends it after every existing header. */
  lemma WrapAppendsStamp(topic: string, payload: PhpArray, headers: PhpArray, createdAt: string)
    requires !HasKey(headers, CreatedAtHeader)
    ensures Wrap(topic, payload, headers, createdAt).headers == headers + [Entry(CreatedAtHeader, Str(createdAt))]
  {
    SetAppendsNewKey(headers, CreatedAtHeader, Str(createdAt));
  }

  /** MessageEnvelope::toArray */
  function ToArray(e: Envelope): (a: PhpArray)
    ensures Keys(a) == [StrKey("topic"), StrKey("payload"), StrKey("headers")]
    ensures Field(a, "topic") == Str(e.topic)
    ensures Field(a, "payload") == Arr(e.payload)
    ensures Field(a, "headers") == Arr(e.headers)
  {
    var a := [Entry(StrKey("topic"), Str(e.topic)), Entry(StrKey("payload"), Arr(e.payload)), Entry(StrKey("headers"), Arr(e.headers))];
    assert a[1..] == [Entry(StrKey("payload"), Arr(e.payload)), Entry(StrKey("headers"), Arr(e.headers))];
    assert a[1..][1..] == [Entry(StrKey("headers"), Arr(e.headers))];
    assert StrKey("topic") != StrKey("payload") && StrKey("topic") != StrKey("headers") && StrKey("payload") != StrKey("headers");
    assert Get(a[1..][1..], StrKey("headers")) == Some(Arr(e.headers));
    assert Get(a[1..], StrKey("headers")) == Some(Arr(e.headers));
    assert Get(a[1..], StrKey("payload")) == Some(Arr(e.payload));
    a
  }
}

/** The in-memory transport (src/Transport/InMemoryTransport.php): an append-and-drain buffer. */
module Transport {
  import opened Envelopes

  class InMemoryTransport {
    var buffer: seq<Envelope>

    constructor ()
      ensures buffer == []
    {
      buffer := [];
    }

    /** InMemoryTransport::publish: the envelope goes last; earlier entries stay as they were. */
    method Publish(message: Envelope)
      modifies this
      ensures buffer == old(buffer) + [message]
      ensures buffer[..|old(buffer)|] == old(buffer) && buffer[|buffer| - 1] == message
    {
      buffer := buffer + [message];
    }

    /** InMemoryTransport::drain: everything published since the last drain, in order; the buffer is emptied. */
    method Drain() returns (drained: seq<Envelope>)
      modifies this
      ensures drained == old(buffer) && buffer == []
    {
      drained := buffer;
      buffer := [];
    }
  }

  /**
   * Publishing a sequence of envelopes on a fresh transport and draining
   * twice gives them all back in publish order, and then nothing.
   */
  method PublishAllThenDrainTwice(messages: seq<Envelope>) returns (first: seq<Envelope>, second: seq<Envelope>)
    ensures first == messages && second == []
  {
    var t := new InMemoryTransport();
    var i := 0;
    while i < |messages|
      invariant 0 <= i <= |messages|
      invariant t.buffer == messages[..i]
    {
      t.Publish(messages[i]);
      assert messages[..i + 1] == messages[..i] + [messages[i]];
      i := i + 1;
    }
    assert messages[..i] == messages;
    first := t.Drain();
    second := t.Drain();
  }
}

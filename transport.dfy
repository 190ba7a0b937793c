/** `KikConnection`: the protocol object that owns the socket and the partial-stanza buffer. */
module Transport {
  import opened Bytes
  import opened Framing
  import opened Loop

  /** `b'</k>'`, the root closing tag written by `close`. */
  const CLOSE_PAYLOAD: Bytes := [60, 47, 107, 62]

  class KikConnection {
    const loop: EventLoop
    var partialData: Option<Bytes>
    var partialDataStartTag: Option<Bytes>
    /** Whether `connection_made` has handed over a transport. */
    var hasTransport: bool
    /** Everything written to the transport, one entry per `write`. */
    var written: seq<Bytes>

    /** The buffer and its start tag are set and cleared together. */
    ghost predicate Valid()
      reads this
    {
      partialData.None? <==> partialDataStartTag.None?
    }

    ghost function Buffered(): Buffer
      reads this
      requires Valid()
    {
      if partialData.Some? then Partial(partialData.value, partialDataStartTag.value) else Idle
    }

    constructor (loop: EventLoop)
      ensures this.loop == loop
      ensures Valid() && Buffered() == Idle
      ensures !hasTransport && written == []
    {
      this.loop := loop;
      partialData := None;
      partialDataStartTag := None;
      hasTransport := false;
      written := [];
    }

    /** `connection_made`: the transport becomes available (the client is told separately). */
    method ConnectionMade()
      modifies this`hasTransport
      ensures hasTransport
    {
      hasTransport := true;
    }

    /** `data_received`: one raw read from the socket. */
    method DataReceived(data: Bytes)
      requires Valid()
      modifies this`partialData, this`partialDataStartTag, loop
      ensures Valid()
      ensures old(partialData).None? && |data| < MULTI_PACKET_THRESHOLD ==>
        && loop.queue == old(loop.queue) + [NewDataReceived(data)]
        && partialData == None
      ensures old(partialData).None? && |data| >= MULTI_PACKET_THRESHOLD ==>
        && loop.queue == old(loop.queue)
        && partialData == Some(data)
        && partialDataStartTag == Some(ParseStartTag(data).0)
      ensures old(partialData).Some? && EndsWithTag(old(partialDataStartTag).value, data) ==>
        && loop.queue == old(loop.queue) + [NewDataReceived(old(partialData).value + data)]
        && partialData == None
      ensures old(partialData).Some? && !EndsWithTag(old(partialDataStartTag).value, data) ==>
        && loop.queue == old(loop.queue)
        && partialData == Some(old(partialData).value + data)
        && partialDataStartTag == old(partialDataStartTag)
      ensures Buffered() == Feed(old(Buffered()), data).buffer
      ensures loop.queue == old(loop.queue) + Deliveries(Feed(old(Buffered()), data).dispatched)
    {
      if partialData == None {
        if |data| < MULTI_PACKET_THRESHOLD {
          loop.CallSoonThreadsafe(NewDataReceived(data));
        } else {
          var startTag := ParseStartTag(data).0;
          partialDataStartTag := Some(startTag);
          partialData := Some(data);
        }
      } else {
        if EndsWithTag(partialDataStartTag.value, data) {
          loop.CallSoonThreadsafe(NewDataReceived(partialData.value + data));
          partialData := None;
          partialDataStartTag := None;
        } else {
          partialData := Some(partialData.value + data);
        }
      }
    }

    /** `send_raw_data`: one write to the transport. */
    method SendRawData(data: Bytes)
      requires hasTransport
      modifies this`written
      ensures written == old(written) + [data]
    {
      written := written + [data];
    }

    /** `close`: writes the root closing tag, when there is a transport to write to. */
    method Close()
      modifies this`written
      ensures written == old(written) + (if hasTransport then [CLOSE_PAYLOAD] else [])
    {
      if hasTransport {
        written := written + [CLOSE_PAYLOAD];
      }
    }
  }
}

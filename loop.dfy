/**
 * The client's event loop, seen only through `call_soon_threadsafe`: callbacks are
 * queued in order and nothing here runs them.
 */
module Loop {
  import opened Bytes

  /** A callback queued for the loop thread. */
  datatype Task =
    | NewDataReceived(data: Bytes)  // KikClient._on_new_data_received(data)
    | SendRawData(data: Bytes)      // KikConnection.send_raw_data(data)

  /** One `_on_new_data_received` callback per complete stanza, in order. */
  function Deliveries(stanzas: seq<Bytes>): seq<Task>
  {
    seq(|stanzas|, i requires 0 <= i < |stanzas| => NewDataReceived(stanzas[i]))
  }

  /** One `send_raw_data` callback per packet, in order. */
  function Sends(packets: seq<Bytes>): seq<Task>
  {
    seq(|packets|, i requires 0 <= i < |packets| => SendRawData(packets[i]))
  }

  class EventLoop {
    var queue: seq<Task>

    constructor ()
      ensures queue == []
    {
      queue := [];
    }

    method CallSoonThreadsafe(task: Task)
      modifies this
      ensures queue == old(queue) + [task]
    {
      queue := queue + [task];
    }
  }
}

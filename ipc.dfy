/** The inter-process channel pair (IPCManager): items are read from one
    channel and handed to a handler, and written to another. */
module Ipc {
  /** The handler is modelled by the record of items handed to it. */
  class Manager<TIncoming, TOutgoing> {
    /** Items waiting on the incoming channel, oldest first. */
    var incoming: seq<TIncoming>
    /** Items written to the outgoing channel, oldest first. */
    var outgoing: seq<TOutgoing>
    /** Items handed to the read handler, in the order it received them. */
    var handled: seq<TIncoming>

    constructor(incoming: seq<TIncoming>)
      ensures this.incoming == incoming && outgoing == [] && handled == []
    {
      this.incoming := incoming;
      outgoing := [];
      handled := [];
    }

    /** ReadAsync: every waiting item goes to the handler exactly once, oldest first,
        each taken only after the previous one was handled; the outgoing channel is
        not touched. */
    method ReadAsync()
      modifies this
      ensures handled == old(handled) + old(incoming)
      ensures incoming == []
      ensures outgoing == old(outgoing)
    {
      while incoming != []
        invariant handled + incoming == old(handled) + old(incoming)
        invariant outgoing == old(outgoing)
        decreases |incoming|
      {
        var item := incoming[0];
        assert handled + incoming == (handled + [item]) + incoming[1..];
        incoming := incoming[1..];
        handled := handled + [item];
      }
    }

    /** WriteAsync: the item is appended to the outgoing channel; nothing else changes. */
    method WriteAsync(item: TOutgoing)
      modifies this
      ensures outgoing == old(outgoing) + [item]
      ensures incoming == old(incoming) && handled == old(handled)
    {
      outgoing := outgoing + [item];
    }
  }
}

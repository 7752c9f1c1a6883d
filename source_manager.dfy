/** The source manager: polls the source through its liaison, forwards every present
    result over the IPC, and hands every command read from the IPC to the liaison.

    The IPC is an `Ipc.Manager` whose incoming side carries commands and whose outgoing
    side carries data; the liaison's command sink is the IPC's record of handled
    items. The two loops run concurrently in the source; here the command loop runs
    first and then the poll loop, and cancellation is modelled by the list of rounds
    that start before it is observed. */
module SourceManager {
  import opened Text
  import opened SourceLiaisons
  import Ipc

  class Manager<TData, TCmd> {
    const ipc: Ipc.Manager<TCmd, TData>
    /** Delays taken between polls (the throttler's delay is otherwise a no-op). */
    var delays: nat

    constructor(ipc: Ipc.Manager<TCmd, TData>)
      ensures this.ipc == ipc && delays == 0
    {
      this.ipc := ipc;
      delays := 0;
    }

    /** PollAsync: the results of one round, nulls skipped, each present one written to
        the IPC once, in the order the liaison yielded them. */
    method PollAsync(results: seq<Option<TData>>)
      modifies ipc
      ensures ipc.outgoing == old(ipc.outgoing) + Survivors(results)
      ensures ipc.incoming == old(ipc.incoming) && ipc.handled == old(ipc.handled)
    {
      var i := 0;
      while i < |results|
        invariant 0 <= i <= |results|
        invariant ipc.outgoing == old(ipc.outgoing) + Survivors(results[..i])
        invariant ipc.incoming == old(ipc.incoming) && ipc.handled == old(ipc.handled)
      {
        assert results[..i + 1][..i] == results[..i];
        if results[i].None? {
          i := i + 1;
          continue;
        }
        ipc.WriteAsync(results[i].value);
        i := i + 1;
      }
      assert results[..i] == results;
    }

    /** PollingSourceAsync: one poll followed by one delay per round, round after round. */
    method PollingSourceAsync(rounds: seq<seq<Option<TData>>>)
      modifies this, ipc
      ensures ipc.outgoing == old(ipc.outgoing) + AllSurvivors(rounds)
      ensures delays == old(delays) + |rounds|
      ensures ipc.incoming == old(ipc.incoming) && ipc.handled == old(ipc.handled)
    {
      var i := 0;
      while i < |rounds|
        invariant 0 <= i <= |rounds|
        invariant ipc.outgoing == old(ipc.outgoing) + AllSurvivors(rounds[..i])
        invariant delays == old(delays) + i
        invariant ipc.incoming == old(ipc.incoming) && ipc.handled == old(ipc.handled)
      {
        assert rounds[..i + 1][..i] == rounds[..i];
        PollAsync(rounds[i]);
        delays := delays + 1;
        i := i + 1;
      }
      assert rounds[..i] == rounds;
    }

    /** ReadIncomingAsync: every waiting command goes to the liaison once, oldest first. */
    method ReadIncomingAsync()
      modifies ipc
      ensures ipc.handled == old(ipc.handled) + old(ipc.incoming)
      ensures ipc.incoming == [] && ipc.outgoing == old(ipc.outgoing)
    {
      ipc.ReadAsync();
    }

    /** ExecuteAsync: finishes only once both the command loop and the poll loop have. */
    method ExecuteAsync(rounds: seq<seq<Option<TData>>>)
      modifies this, ipc
      ensures ipc.handled == old(ipc.handled) + old(ipc.incoming) && ipc.incoming == []
      ensures ipc.outgoing == old(ipc.outgoing) + AllSurvivors(rounds)
      ensures delays == old(delays) + |rounds|
    {
      ReadIncomingAsync();
      PollingSourceAsync(rounds);
    }
  }
}

/** The legacy source manager: the same pipeline as the newer one, over raw channels.
    Present results of each poll round are written to the outgoing data channel;
    commands from the incoming command channel go to the liaison. */
module LegacySourceManager {
  import opened Text
  import opened SourceLiaisons

  class Manager<TData, TCmd> {
    /** The outgoing data channel, oldest first. */
    var outgoingData: seq<TData>
    /** The incoming command channel, oldest first. */
    var incomingCommands: seq<TCmd>
    /** The commands handed to the liaison's SendCommandAsync, in order. */
    var sentCommands: seq<TCmd>
    /** Delays taken between polls. */
    var delays: nat

    constructor(incomingCommands: seq<TCmd>)
      ensures this.incomingCommands == incomingCommands
      ensures outgoingData == [] && sentCommands == [] && delays == 0
    {
      this.incomingCommands := incomingCommands;
      outgoingData := [];
      sentCommands := [];
      delays := 0;
    }

    /** PollAsync: nulls skipped, each present result written once, in order. */
    method PollAsync(results: seq<Option<TData>>)
      modifies this`outgoingData
      ensures outgoingData == old(outgoingData) + Survivors(results)
    {
      var i := 0;
      while i < |results|
        invariant 0 <= i <= |results|
        invariant outgoingData == old(outgoingData) + Survivors(results[..i])
      {
        assert results[..i + 1][..i] == results[..i];
        if results[i].Some? {
          outgoingData := outgoingData + [results[i].value];
        }
        i := i + 1;
      }
      assert results[..i] == results;
    }

    /** PollingSourceAsync: poll then delay, for each round that starts before
        cancellation. */
    method PollingSourceAsync(rounds: seq<seq<Option<TData>>>)
      modifies this`outgoingData, this`delays
      ensures outgoingData == old(outgoingData) + AllSurvivors(rounds)
      ensures delays == old(delays) + |rounds|
    {
      var i := 0;
      while i < |rounds|
        invariant 0 <= i <= |rounds|
        invariant outgoingData == old(outgoingData) + AllSurvivors(rounds[..i])
        invariant delays == old(delays) + i
      {
        assert rounds[..i + 1][..i] == rounds[..i];
        PollAsync(rounds[i]);
        delays := delays + 1;
        i := i + 1;
      }
      assert rounds[..i] == rounds;
    }

    /** ReadIncomingCommandsAsync: each command goes to the liaison once, in FIFO order. */
    method ReadIncomingCommandsAsync()
      modifies this`incomingCommands, this`sentCommands
      ensures sentCommands == old(sentCommands) + old(incomingCommands)
      ensures incomingCommands == []
    {
      while incomingCommands != []
        invariant sentCommands + incomingCommands == old(sentCommands) + old(incomingCommands)
        decreases |incomingCommands|
      {
        var item := incomingCommands[0];
        assert sentCommands + incomingCommands == (sentCommands + [item]) + incomingCommands[1..];
        incomingCommands := incomingCommands[1..];
        sentCommands := sentCommands + [item];
      }
    }

    /** ExecuteAsync: waits for both loops. */
    method ExecuteAsync(rounds: seq<seq<Option<TData>>>)
      modifies this
      ensures sentCommands == old(sentCommands) + old(incomingCommands) && incomingCommands == []
      ensures outgoingData == old(outgoingData) + AllSurvivors(rounds)
      ensures delays == old(delays) + |rounds|
    {
      ReadIncomingCommandsAsync();
      PollingSourceAsync(rounds);
    }
  }
}

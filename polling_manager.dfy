/** The legacy polling manager: each poll asks the source about every question,
    drops the null answers, maps each remaining answer and writes it to the outgoing
    data channel; incoming commands are handed to the command handler in order.

    A fetch is a function from question to optional answer, one per round, since the
    source may answer differently each time it is asked. */
module PollingManager {
  import opened Text
  import opened SourceLiaisons

  class Manager<TQuestion, TResponse, TData, TCmd> {
    const questions: seq<TQuestion>
    const mapResponse: TResponse -> TData

    /** The questions looked up with FetchOneAsync, in order. */
    var lookups: seq<TQuestion>
    var outgoingData: seq<TData>
    var incomingCommands: seq<TCmd>
    /** The commands handed to HandleIncomingCommandAsync, in order. */
    var handledCommands: seq<TCmd>
    var delays: nat

    constructor(questions: seq<TQuestion>, mapResponse: TResponse -> TData, incomingCommands: seq<TCmd>)
      ensures this.questions == questions && this.mapResponse == mapResponse
      ensures this.incomingCommands == incomingCommands
      ensures lookups == [] && outgoingData == [] && handledCommands == [] && delays == 0
    {
      this.questions := questions;
      this.mapResponse := mapResponse;
      this.incomingCommands := incomingCommands;
      lookups := [];
      outgoingData := [];
      handledCommands := [];
      delays := 0;
    }

    /** PollAsync: one lookup per question, in order; then, in question order, every
        non-null answer is mapped and the mapped value written, and nothing is written
        for a null answer. */
    method PollAsync(fetchOne: TQuestion -> Option<TResponse>)
      modifies this`lookups, this`outgoingData
      ensures lookups == old(lookups) + questions
      ensures outgoingData == old(outgoingData) + MappedSurvivors(mapResponse, FetchAll(questions, fetchOne))
    {
      var results: seq<Option<TResponse>> := [];
      var i := 0;
      while i < |questions|
        invariant 0 <= i <= |questions|
        invariant lookups == old(lookups) + questions[..i]
        invariant results == FetchAll(questions[..i], fetchOne)
        invariant outgoingData == old(outgoingData)
      {
        assert questions[..i + 1] == questions[..i] + [questions[i]];
        assert FetchAll(questions[..i + 1], fetchOne) == FetchAll(questions[..i], fetchOne) + [fetchOne(questions[i])];
        results := results + [fetchOne(questions[i])];
        lookups := lookups + [questions[i]];
        i := i + 1;
      }
      assert questions[..i] == questions;
      assert results == FetchAll(questions, fetchOne);
      var j := 0;
      while j < |results|
        invariant 0 <= j <= |results|
        invariant outgoingData == old(outgoingData) + MappedSurvivors(mapResponse, results[..j])
        invariant lookups == old(lookups) + questions
      {
        assert results[..j + 1][..j] == results[..j];
        if results[j].Some? {
          outgoingData := outgoingData + [mapResponse(results[j].value)];
        }
        j := j + 1;
      }
      assert results[..j] == results;
    }

    /** The poll task: a poll followed by a delay, once per round before cancellation. */
    method PollRounds(rounds: seq<TQuestion -> Option<TResponse>>)
      modifies this`lookups, this`outgoingData, this`delays
      ensures outgoingData == old(outgoingData) + Polled(rounds)
      ensures delays == old(delays) + |rounds|
      ensures lookups == old(lookups) + Repeated(questions, |rounds|)
    {
      var i := 0;
      while i < |rounds|
        invariant 0 <= i <= |rounds|
        invariant outgoingData == old(outgoingData) + Polled(rounds[..i])
        invariant delays == old(delays) + i
        invariant lookups == old(lookups) + Repeated(questions, i)
      {
        PolledOneMore(rounds, i, old(outgoingData), old(lookups));
        PollAsync(rounds[i]);
        delays := delays + 1;
        i := i + 1;
      }
      assert rounds[..i] == rounds;
    }

    /** What several rounds write, in order. */
    function Polled(rounds: seq<TQuestion -> Option<TResponse>>): seq<TData>
      decreases |rounds|
    {
      if rounds == [] then []
      else Polled(rounds[..|rounds| - 1]) + MappedSurvivors(mapResponse, FetchAll(questions, rounds[|rounds| - 1]))
    }

    /** One more round extends what the rounds so far wrote and looked up. */
    lemma PolledOneMore(rounds: seq<TQuestion -> Option<TResponse>>, i: nat, written: seq<TData>, looked: seq<TQuestion>)
      requires i < |rounds|
      ensures (written + Polled(rounds[..i])) + MappedSurvivors(mapResponse, FetchAll(questions, rounds[i]))
        == written + Polled(rounds[..i + 1])
      ensures (looked + Repeated(questions, i)) + questions == looked + Repeated(questions, i + 1)
    {
      assert rounds[..i + 1][..i] == rounds[..i];
    }

    /** ReadIncomingCommandAsync: while commands are waiting, take the oldest and hand it
        to the command handler; the channel is empty afterwards. */
    method ReadIncomingCommandAsync()
      modifies this`incomingCommands, this`handledCommands
      ensures handledCommands == old(handledCommands) + old(incomingCommands)
      ensures incomingCommands == []
    {
      while incomingCommands != []
        invariant handledCommands + incomingCommands == old(handledCommands) + old(incomingCommands)
        decreases |incomingCommands|
      {
        var item := incomingCommands[0];
        assert handledCommands + incomingCommands == (handledCommands + [item]) + incomingCommands[1..];
        incomingCommands := incomingCommands[1..];
        handledCommands := handledCommands + [item];
      }
    }

    /** ExecuteAsync: the command reader and the poll task, both run to completion. */
    method ExecuteAsync(rounds: seq<TQuestion -> Option<TResponse>>)
      modifies this
      ensures handledCommands == old(handledCommands) + old(incomingCommands) && incomingCommands == []
      ensures outgoingData == old(outgoingData) + Polled(rounds)
      ensures delays == old(delays) + |rounds|
    {
      ReadIncomingCommandAsync();
      PollRounds(rounds);
    }
  }

  /** The questions of `n` rounds, round after round. */
  function Repeated<Q>(questions: seq<Q>, n: nat): (r: seq<Q>)
    ensures |r| == n * |questions|
  {
    if n == 0 then [] else Repeated(questions, n - 1) + questions
  }

  /** A round whose fetch answers every question writes one mapped value per question,
      in question order. */
  lemma PollWritesOnePerAnsweredQuestion<Q, R, D>(questions: seq<Q>, fetchOne: Q -> Option<R>, f: R -> D)
    requires forall i :: 0 <= i < |questions| ==> fetchOne(questions[i]).Some?
    ensures |MappedSurvivors(f, FetchAll(questions, fetchOne))| == |questions|
    ensures forall i :: 0 <= i < |questions| ==>
      MappedSurvivors(f, FetchAll(questions, fetchOne))[i] == f(fetchOne(questions[i]).value)
  {
    var rs := FetchAll(questions, fetchOne);
    SurvivorsWithoutNulls(rs);
    MappedSurvivorsMapsSurvivors(f, rs);
  }

  /** A round whose fetch answers no question writes nothing. */
  lemma {:induction false} PollWritesNothingForNulls<R, D>(rs: seq<Option<R>>, f: R -> D)
    requires forall i :: 0 <= i < |rs| ==> rs[i].None?
    ensures MappedSurvivors(f, rs) == []
    decreases |rs|
  {
    if rs != [] {
      PollWritesNothingForNulls(rs[..|rs| - 1], f);
    }
  }
}

/** The source side of the pipeline: what a liaison yields in one poll round, and which
    of those results survive the manager's null filter. A missing (null) result is
    `None`. */
module SourceLiaisons {
  import opened Text

  /** One fetch per question, in question order; a null result is yielded as is. */
  function FetchAll<Q, D>(questions: seq<Q>, fetchOne: Q -> Option<D>): (r: seq<Option<D>>)
    ensures |r| == |questions|
    ensures forall i :: 0 <= i < |questions| ==> r[i] == fetchOne(questions[i])
  {
    seq(|questions|, i requires 0 <= i < |questions| => fetchOne(questions[i]))
  }

  /** Fetching for two lists of questions in turn is fetching for the joined list. */
  lemma FetchAllAppend<Q, D>(a: seq<Q>, b: seq<Q>, fetchOne: Q -> Option<D>)
    ensures FetchAll(a + b, fetchOne) == FetchAll(a, fetchOne) + FetchAll(b, fetchOne)
  {
  }

  /** The push liaison yields one element per response the source pushes, in order,
      each the liaison's mapping of it (a null mapping is yielded as is): FetchAll
      with the responses in place of the questions and the mapping in place of the
      fetch. What survives the manager's null filter is exactly the non-null mappings. */
  lemma {:induction false} PushedDataSurvive<R, D>(responses: seq<R>, mapping: R -> Option<D>)
    ensures |FetchAll(responses, mapping)| == |responses|
    ensures forall d :: d in Survivors(FetchAll(responses, mapping)) <==>
      exists i :: 0 <= i < |responses| && mapping(responses[i]) == Some(d)
  {
    var rs := FetchAll(responses, mapping);
    SurvivorsAreThePresentResults(rs);
    forall d ensures Some(d) in rs <==> exists i :: 0 <= i < |responses| && mapping(responses[i]) == Some(d) {
      if Some(d) in rs {
        var i :| 0 <= i < |rs| && rs[i] == Some(d);
        assert mapping(responses[i]) == Some(d);
      }
    }
  }

  /** The present results, in order: every null is dropped. */
  function Survivors<D>(rs: seq<Option<D>>): seq<D>
    decreases |rs|
  {
    if rs == [] then []
    else Survivors(rs[..|rs| - 1]) + (match rs[|rs| - 1] case Some(d) => [d] case None => [])
  }

  lemma {:induction false} SurvivorsAppend<D>(a: seq<Option<D>>, b: seq<Option<D>>)
    ensures Survivors(a + b) == Survivors(a) + Survivors(b)
    decreases |b|
  {
    if b != [] {
      var ab := a + b;
      assert ab[..|ab| - 1] == a + b[..|b| - 1];
      SurvivorsAppend(a, b[..|b| - 1]);
    } else {
      assert a + b == a;
    }
  }

  /** A value survives iff it was yielded. */
  lemma {:induction false} SurvivorsAreThePresentResults<D>(rs: seq<Option<D>>)
    ensures forall d :: d in Survivors(rs) <==> Some(d) in rs
    decreases |rs|
  {
    if rs != [] {
      var p, n := rs[..|rs| - 1], |rs| - 1;
      SurvivorsAreThePresentResults(p);
      assert rs == p + [rs[n]];
    }
  }

  /** There are exactly as many survivors as present results. */
  lemma {:induction false} SurvivorsCount<D>(rs: seq<Option<D>>)
    ensures |Survivors(rs)| == |set i | 0 <= i < |rs| && rs[i].Some?|
    decreases |rs|
  {
    if rs != [] {
      var p, n := rs[..|rs| - 1], |rs| - 1;
      SurvivorsCount(p);
      var sp := set i | 0 <= i < |p| && p[i].Some?;
      var sr := set i | 0 <= i < |rs| && rs[i].Some?;
      if rs[n].Some? {
        assert sr == sp + {n};
      } else {
        assert sr == sp;
      }
    }
  }

  /** With no null result, nothing is dropped. */
  lemma {:induction false} SurvivorsWithoutNulls<D>(rs: seq<Option<D>>)
    requires forall i :: 0 <= i < |rs| ==> rs[i].Some?
    ensures |Survivors(rs)| == |rs|
    ensures forall i :: 0 <= i < |rs| ==> Survivors(rs)[i] == rs[i].value
    decreases |rs|
  {
    if rs != [] {
      SurvivorsWithoutNulls(rs[..|rs| - 1]);
    }
  }

  /** The results of several poll rounds, in round order. */
  function Flatten<T>(rounds: seq<seq<T>>): (r: seq<T>)
    decreases |rounds|
  {
    if rounds == [] then [] else Flatten(rounds[..|rounds| - 1]) + rounds[|rounds| - 1]
  }

  /** What several poll rounds forward: each round's survivors, round after round. */
  function AllSurvivors<D>(rounds: seq<seq<Option<D>>>): seq<D>
    decreases |rounds|
  {
    if rounds == [] then []
    else AllSurvivors(rounds[..|rounds| - 1]) + Survivors(rounds[|rounds| - 1])
  }

  /** Filtering round by round is filtering everything the rounds yielded: the round
      boundaries neither drop nor reorder anything. */
  lemma {:induction false} AllSurvivorsFiltersEverything<D>(rounds: seq<seq<Option<D>>>)
    ensures AllSurvivors(rounds) == Survivors(Flatten(rounds))
    decreases |rounds|
  {
    if rounds != [] {
      var n := |rounds| - 1;
      AllSurvivorsFiltersEverything(rounds[..n]);
      SurvivorsAppend(Flatten(rounds[..n]), rounds[n]);
    }
  }

  /** Survivors of a list of fetch responses, each passed through `f`. */
  function MappedSurvivors<R, D>(f: R -> D, rs: seq<Option<R>>): seq<D>
    decreases |rs|
  {
    if rs == [] then []
    else MappedSurvivors(f, rs[..|rs| - 1]) + (match rs[|rs| - 1] case Some(r) => [f(r)] case None => [])
  }

  /** Mapping the survivors one by one is mapping the list of survivors. */
  lemma {:induction false} MappedSurvivorsMapsSurvivors<R, D>(f: R -> D, rs: seq<Option<R>>)
    ensures |MappedSurvivors(f, rs)| == |Survivors(rs)|
    ensures forall i :: 0 <= i < |Survivors(rs)| ==> MappedSurvivors(f, rs)[i] == f(Survivors(rs)[i])
    decreases |rs|
  {
    if rs != [] {
      MappedSurvivorsMapsSurvivors(f, rs[..|rs| - 1]);
    }
  }
}

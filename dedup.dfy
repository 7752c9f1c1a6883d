/** The publish-deduplication gate shared by every publisher of the bridge.

    A publisher keeps a cache from topic to the last payload it handed to the broker.
    An offer (topic, payload) that asks for the duplicate check is suppressed when the
    cache already holds exactly that payload for that topic; every other offer is
    published and then recorded in the cache. The C# managers always check; the Go
    client checks when the caller asks to; the Go proxy never checks its own
    availability topic. All of them reduce to the functions below, with the check
    flag computed by the caller. */
module Dedup {

  /** A message as the broker receives it (QoS is not modelled). */
  datatype Message = Message(topic: string, payload: string, retained: bool)

  /** One request to publish through the gate. */
  datatype Offer = Offer(topic: string, payload: string, retained: bool, checkDuplicate: bool)
  {
    function Msg(): Message {
      Message(topic, payload, retained)
    }
  }

  /** The gate's decision: the check is asked for and the cache already holds this payload. */
  predicate Suppressed(known: map<string, string>, o: Offer) {
    o.checkDuplicate && o.topic in known && known[o.topic] == o.payload
  }

  /** What one offer sends to the broker: nothing when suppressed, otherwise its message. */
  function Emitted(known: map<string, string>, o: Offer): (r: seq<Message>)
    ensures r == [] <==> Suppressed(known, o)
    ensures r != [] ==> r == [o.Msg()]
  {
    if Suppressed(known, o) then [] else [o.Msg()]
  }

  /** The cache after one offer. A suppressed offer leaves it as it was; any other offer,
      checked or not, records its payload under its topic and touches no other topic. */
  function Remember(known: map<string, string>, o: Offer): (r: map<string, string>)
    ensures Suppressed(known, o) ==> r == known
    ensures o.topic in r && r[o.topic] == o.payload
    ensures forall t :: t != o.topic ==> (t in r <==> t in known)
    ensures forall t :: t != o.topic && t in known ==> r[t] == known[t]
  {
    known[o.topic := o.payload]
  }

  /** The cache after a sequence of offers, folded from the end so that a loop can
      extend the processed prefix by one offer. */
  function CacheAfter(known: map<string, string>, os: seq<Offer>): map<string, string>
    decreases |os|
  {
    if os == [] then known else Remember(CacheAfter(known, os[..|os| - 1]), os[|os| - 1])
  }

  /** The messages a sequence of offers sends, in order. */
  function Sent(known: map<string, string>, os: seq<Offer>): seq<Message>
    decreases |os|
  {
    if os == [] then []
    else Sent(known, os[..|os| - 1]) + Emitted(CacheAfter(known, os[..|os| - 1]), os[|os| - 1])
  }

  /** The payloads offered on topic t, in order. */
  function OfferedOn(os: seq<Offer>, t: string): seq<string>
    decreases |os|
  {
    if os == [] then []
    else OfferedOn(os[..|os| - 1], t) + (if os[|os| - 1].topic == t then [os[|os| - 1].payload] else [])
  }

  /** The offers on topic t, in order. */
  function OnlyTopic(os: seq<Offer>, t: string): seq<Offer>
    decreases |os|
  {
    if os == [] then []
    else OnlyTopic(os[..|os| - 1], t) + (if os[|os| - 1].topic == t then [os[|os| - 1]] else [])
  }

  /** The payloads the broker received on topic t, in order. */
  function PayloadsOn(ms: seq<Message>, t: string): seq<string>
    decreases |ms|
  {
    if ms == [] then []
    else PayloadsOn(ms[..|ms| - 1], t) + (if ms[|ms| - 1].topic == t then [ms[|ms| - 1].payload] else [])
  }

  /** The reference behaviour, stated without any cache: a sequence with every run of
      equal adjacent elements collapsed to one element. */
  function Collapse(s: seq<string>): seq<string>
    decreases |s|
  {
    if |s| <= 1 then s
    else Collapse(s[..|s| - 1]) + (if s[|s| - 2] == s[|s| - 1] then [] else [s[|s| - 1]])
  }

  /** Every offer on topic t asks for the duplicate check. */
  predicate AllChecked(os: seq<Offer>, t: string) {
    forall i :: 0 <= i < |os| && os[i].topic == t ==> os[i].checkDuplicate
  }

  /** No offer on topic t asks for the duplicate check. */
  predicate NoneChecked(os: seq<Offer>, t: string) {
    forall i :: 0 <= i < |os| && os[i].topic == t ==> !os[i].checkDuplicate
  }

  /** An offer that does not ask for the check on t keeps NoneChecked for t. */
  lemma NoneCheckedExtend(os: seq<Offer>, o: Offer, t: string)
    requires NoneChecked(os, t)
    requires o.topic == t ==> !o.checkDuplicate
    ensures NoneChecked(os + [o], t)
  {
    var s := os + [o];
    forall i | 0 <= i < |s| && s[i].topic == t ensures !s[i].checkDuplicate {
      if i < |os| {
        assert s[i] == os[i];
      }
    }
  }

  // ---------------------------------------------------------------------------
  // Composition: processing a + b is processing a, then b from the cache a left.

  lemma {:induction false} CacheAfterAppend(known: map<string, string>, a: seq<Offer>, b: seq<Offer>)
    ensures CacheAfter(known, a + b) == CacheAfter(CacheAfter(known, a), b)
    decreases |b|
  {
    if b != [] {
      var ab := a + b;
      assert ab[..|ab| - 1] == a + b[..|b| - 1];
      assert ab[|ab| - 1] == b[|b| - 1];
      CacheAfterAppend(known, a, b[..|b| - 1]);
    } else {
      assert a + b == a;
    }
  }

  lemma {:induction false} SentAppend(known: map<string, string>, a: seq<Offer>, b: seq<Offer>)
    ensures Sent(known, a + b) == Sent(known, a) + Sent(CacheAfter(known, a), b)
    decreases |b|
  {
    if b != [] {
      var front, o := b[..|b| - 1], b[|b| - 1];
      var k := CacheAfter(known, a);
      SentLastOfAppend(known, a, b);
      SentLast(k, b);
      SentAppend(known, a, front);
      CacheAfterAppend(known, a, front);
      var x, y, e := Sent(known, a), Sent(k, front), Emitted(CacheAfter(k, front), o);
      assert (x + y) + e == x + (y + e);
    } else {
      assert a + b == a;
    }
  }

  /** The last offer of a non-empty sequence is processed after all the others. */
  lemma SentLast(known: map<string, string>, b: seq<Offer>)
    requires b != []
    ensures Sent(known, b) == Sent(known, b[..|b| - 1]) + Emitted(CacheAfter(known, b[..|b| - 1]), b[|b| - 1])
  {
  }

  /** The same when the sequence is a concatenation ending in a non-empty part. */
  lemma SentLastOfAppend(known: map<string, string>, a: seq<Offer>, b: seq<Offer>)
    requires b != []
    ensures Sent(known, a + b) == Sent(known, a + b[..|b| - 1]) + Emitted(CacheAfter(known, a + b[..|b| - 1]), b[|b| - 1])
  {
    var front, o := b[..|b| - 1], b[|b| - 1];
    assert a + b == (a + front) + [o];
    SentExtend(known, a + front, o);
  }

  /** Processing a and then b, with the history of offers and the broker log kept
      alongside, is processing a + b: the step of a loop over batches. */
  lemma ProcessedInTurn(known: map<string, string>, a: seq<Offer>, b: seq<Offer>, history: seq<Offer>, log: seq<Message>)
    ensures (history + a) + b == history + (a + b)
    ensures (log + Sent(known, a)) + Sent(CacheAfter(known, a), b) == log + Sent(known, a + b)
    ensures CacheAfter(CacheAfter(known, a), b) == CacheAfter(known, a + b)
  {
    assert (history + a) + b == history + (a + b);
    SentAppend(known, a, b);
    CacheAfterAppend(known, a, b);
  }

  /** The same for one more offer: the step of a loop over single offers. */
  lemma ProcessedOneMore(known: map<string, string>, a: seq<Offer>, o: Offer, history: seq<Offer>, log: seq<Message>)
    ensures (history + a) + [o] == history + (a + [o])
    ensures (log + Sent(known, a)) + Emitted(CacheAfter(known, a), o) == log + Sent(known, a + [o])
    ensures Remember(CacheAfter(known, a), o) == CacheAfter(known, a + [o])
  {
    assert (history + a) + [o] == history + (a + [o]);
    SentExtend(known, a, o);
  }

  /** The same for a loop that walks a fixed list of offers by index. */
  lemma ProcessedPrefix(known: map<string, string>, os: seq<Offer>, i: nat, history: seq<Offer>, log: seq<Message>)
    requires i < |os|
    ensures (history + os[..i]) + [os[i]] == history + os[..i + 1]
    ensures (log + Sent(known, os[..i])) + Emitted(CacheAfter(known, os[..i]), os[i]) == log + Sent(known, os[..i + 1])
    ensures Remember(CacheAfter(known, os[..i]), os[i]) == CacheAfter(known, os[..i + 1])
  {
    assert os[..i + 1] == os[..i] + [os[i]];
    ProcessedOneMore(known, os[..i], os[i], history, log);
  }

  /** One more offer extends what was processed: the step a forward loop takes. */
  lemma SentExtend(known: map<string, string>, os: seq<Offer>, o: Offer)
    ensures Sent(known, os + [o]) == Sent(known, os) + Emitted(CacheAfter(known, os), o)
    ensures CacheAfter(known, os + [o]) == Remember(CacheAfter(known, os), o)
  {
    assert (os + [o])[..|os|] == os;
  }

  // ---------------------------------------------------------------------------
  // Per-topic views.

  lemma {:induction false} PayloadsOnAppend(ms: seq<Message>, ns: seq<Message>, t: string)
    ensures PayloadsOn(ms + ns, t) == PayloadsOn(ms, t) + PayloadsOn(ns, t)
    decreases |ns|
  {
    if ns != [] {
      var mn := ms + ns;
      assert mn[..|mn| - 1] == ms + ns[..|ns| - 1];
      PayloadsOnAppend(ms, ns[..|ns| - 1], t);
    } else {
      assert ms + ns == ms;
    }
  }

  /** A publisher's log made of the messages its gate let through and those it sent
      directly: it holds as many messages as the two together, and on every topic
      that received no direct message it shows the gated payloads in their order. */
  ghost predicate AgreesOffDirectTopics(log: seq<Message>, gated: seq<Message>, direct: seq<Message>) {
    |log| == |gated| + |direct| &&
    forall t :: PayloadsOn(direct, t) == [] ==> PayloadsOn(log, t) == PayloadsOn(gated, t)
  }

  lemma AgreesOffDirectTopicsEmpty()
    ensures AgreesOffDirectTopics([], [], [])
  {
  }

  /** Messages the gate lets through extend the log and the gated messages alike. */
  lemma GatedSendKeepsAgreement(log: seq<Message>, gated: seq<Message>, direct: seq<Message>, ms: seq<Message>)
    requires AgreesOffDirectTopics(log, gated, direct)
    ensures AgreesOffDirectTopics(log + ms, gated + ms, direct)
  {
    forall t | PayloadsOn(direct, t) == [] ensures PayloadsOn(log + ms, t) == PayloadsOn(gated + ms, t) {
      PayloadsOnAppend(log, ms, t);
      PayloadsOnAppend(gated, ms, t);
    }
  }

  /** Messages sent past the gate extend the log and the direct messages alike; the
      topics they go to are no longer covered by the gate's guarantee. */
  lemma DirectSendKeepsAgreement(log: seq<Message>, gated: seq<Message>, direct: seq<Message>, ms: seq<Message>)
    requires AgreesOffDirectTopics(log, gated, direct)
    ensures AgreesOffDirectTopics(log + ms, gated, direct + ms)
  {
    forall t | PayloadsOn(direct + ms, t) == [] ensures PayloadsOn(log + ms, t) == PayloadsOn(gated, t) {
      PayloadsOnAppend(direct, ms, t);
      PayloadsOnAppend(log, ms, t);
      assert |PayloadsOn(direct, t)| + |PayloadsOn(ms, t)| == 0;
    }
  }

  /** The cache always holds the last payload offered on a topic, whether or not the
      offers asked for the check; a topic never offered keeps its initial entry. */
  lemma {:induction false} CacheHoldsLastOffer(known: map<string, string>, os: seq<Offer>, t: string)
    ensures OfferedOn(os, t) != [] ==>
      t in CacheAfter(known, os) && CacheAfter(known, os)[t] == OfferedOn(os, t)[|OfferedOn(os, t)| - 1]
    ensures OfferedOn(os, t) == [] ==>
      (t in CacheAfter(known, os) <==> t in known) && (t in known ==> CacheAfter(known, os)[t] == known[t])
    decreases |os|
  {
    if os != [] {
      CacheHoldsLastOffer(known, os[..|os| - 1], t);
    }
  }

  lemma CollapseSnoc(c: seq<string>, x: string)
    ensures c == [] ==> Collapse(c + [x]) == [x]
    ensures c != [] ==> Collapse(c + [x]) == Collapse(c) + (if c[|c| - 1] == x then [] else [x])
  {
    var s := c + [x];
    if c != [] {
      assert s[..|s| - 1] == c;
    } else {
      assert s == [x];
    }
  }

  /** One offer seen from topic t, given that the cache entry for t holds the last of
      the payloads c offered on t so far. */
  lemma GateStep(k: map<string, string>, o: Offer, t: string, c: seq<string>)
    requires t in k <==> c != []
    requires c != [] ==> k[t] == c[|c| - 1]
    requires o.topic == t ==> o.checkDuplicate
    ensures Collapse(c) + PayloadsOn(Emitted(k, o), t) == Collapse(c + (if o.topic == t then [o.payload] else []))
  {
    if o.topic == t {
      CollapseSnoc(c, o.payload);
      if !Suppressed(k, o) {
        assert PayloadsOn([o.Msg()], t) == [o.payload];
      }
    } else {
      assert c + [] == c;
      if Emitted(k, o) != [] {
        assert PayloadsOn([o.Msg()], t) == [];
      }
    }
  }

  lemma AllCheckedPrefix(os: seq<Offer>, t: string)
    requires os != [] && AllChecked(os, t)
    ensures AllChecked(os[..|os| - 1], t)
    ensures os[|os| - 1].topic == t ==> os[|os| - 1].checkDuplicate
  {
  }

  /** The invariant of the gate: starting from an empty cache, when every offer on a
      topic asks for the check, the broker sees on that topic exactly the offered
      payloads with runs of consecutive duplicates collapsed. */
  lemma {:induction false} GatedTopicSeesCollapsed(os: seq<Offer>, t: string)
    requires AllChecked(os, t)
    ensures PayloadsOn(Sent(map[], os), t) == Collapse(OfferedOn(os, t))
    decreases |os|
  {
    if os != [] {
      var p := os[..|os| - 1];
      AllCheckedPrefix(os, t);
      GatedTopicSeesCollapsed(p, t);
      GatedOneMore(os, t);
    }
  }

  /** The step of the invariant: if it holds before the last offer, it holds after. */
  lemma GatedOneMore(os: seq<Offer>, t: string)
    requires os != [] && AllChecked(os, t)
    requires PayloadsOn(Sent(map[], os[..|os| - 1]), t) == Collapse(OfferedOn(os[..|os| - 1], t))
    ensures PayloadsOn(Sent(map[], os), t) == Collapse(OfferedOn(os, t))
  {
    var p, o := os[..|os| - 1], os[|os| - 1];
    var k := CacheAfter(map[], p);
    SentLast(map[], os);
    assert OfferedOn(os, t) == OfferedOn(p, t) + (if o.topic == t then [o.payload] else []);
    AllCheckedPrefix(os, t);
    CacheHoldsLastOffer(map[], p, t);
    PayloadsOnAppend(Sent(map[], p), Emitted(k, o), t);
    GateStep(k, o, t, OfferedOn(p, t));
  }

  /** When no offer on a topic asks for the check, every offered payload on it is
      published, in order, from any starting cache. */
  lemma {:induction false} UncheckedTopicSeesEverything(known: map<string, string>, os: seq<Offer>, t: string)
    requires NoneChecked(os, t)
    ensures PayloadsOn(Sent(known, os), t) == OfferedOn(os, t)
    decreases |os|
  {
    if os != [] {
      var p, o := os[..|os| - 1], os[|os| - 1];
      assert NoneChecked(p, t) by {
        forall i | 0 <= i < |p| && p[i].topic == t ensures !p[i].checkDuplicate {
          assert p[i] == os[i];
        }
      }
      UncheckedTopicSeesEverything(known, p, t);
      var k := CacheAfter(known, p);
      PayloadsOnAppend(Sent(known, p), Emitted(k, o), t);
      if o.topic == t {
        assert Emitted(k, o) == [o.Msg()];
        assert PayloadsOn([o.Msg()], t) == [o.payload];
      } else if Emitted(k, o) != [] {
        assert PayloadsOn([o.Msg()], t) == [];
      }
    }
  }

  /** What a topic sees depends only on the offers made on that topic: the offers on
      other topics may be removed without changing it. */
  lemma {:induction false} TopicsAreIndependent(known: map<string, string>, os: seq<Offer>, t: string)
    ensures PayloadsOn(Sent(known, os), t) == PayloadsOn(Sent(known, OnlyTopic(os, t)), t)
    ensures (t in CacheAfter(known, os) <==> t in CacheAfter(known, OnlyTopic(os, t)))
    ensures t in CacheAfter(known, os) ==> CacheAfter(known, os)[t] == CacheAfter(known, OnlyTopic(os, t))[t]
    decreases |os|
  {
    CacheOnTopicIsIndependent(known, os, t);
    if os != [] {
      var p, o := os[..|os| - 1], os[|os| - 1];
      TopicsAreIndependent(known, p, t);
      CacheOnTopicIsIndependent(known, p, t);
      var q := OnlyTopic(p, t);
      var k1, k2 := CacheAfter(known, p), CacheAfter(known, q);
      PayloadsOnAppend(Sent(known, p), Emitted(k1, o), t);
      if o.topic == t {
        var qo := q + [o];
        assert OnlyTopic(os, t) == qo;
        SentExtend(known, q, o);
        PayloadsOnAppend(Sent(known, q), Emitted(k2, o), t);
        assert Suppressed(k1, o) == Suppressed(k2, o);
      } else {
        assert OnlyTopic(os, t) == q;
        if Emitted(k1, o) != [] {
          assert PayloadsOn([o.Msg()], t) == [];
        }
      }
    }
  }

  /** The cache entry of a topic depends only on the offers made on that topic. */
  lemma {:induction false} CacheOnTopicIsIndependent(known: map<string, string>, os: seq<Offer>, t: string)
    ensures (t in CacheAfter(known, os) <==> t in CacheAfter(known, OnlyTopic(os, t)))
    ensures t in CacheAfter(known, os) ==> CacheAfter(known, os)[t] == CacheAfter(known, OnlyTopic(os, t))[t]
    decreases |os|
  {
    if os != [] {
      var p, o := os[..|os| - 1], os[|os| - 1];
      CacheOnTopicIsIndependent(known, p, t);
      var q := OnlyTopic(p, t);
      if o.topic == t {
        assert OnlyTopic(os, t) == q + [o];
        SentExtend(known, q, o);
      } else {
        assert OnlyTopic(os, t) == q;
      }
    }
  }

  /** Every message the gate sends is the message of one of the offers. */
  lemma {:induction false} SentComesFromOffers(known: map<string, string>, os: seq<Offer>)
    ensures |Sent(known, os)| <= |os|
    ensures forall m :: m in Sent(known, os) ==> exists i :: 0 <= i < |os| && os[i].Msg() == m
    decreases |os|
  {
    if os != [] {
      var p := os[..|os| - 1];
      SentComesFromOffers(known, p);
      forall m | m in Sent(known, os) ensures exists i :: 0 <= i < |os| && os[i].Msg() == m {
        if m in Sent(known, p) {
          var i :| 0 <= i < |p| && p[i].Msg() == m;
          assert os[i] == p[i];
        } else {
          assert os[|os| - 1].Msg() == m;
        }
      }
    }
  }

  // ---------------------------------------------------------------------------
  // The reference behaviour.

  /** Collapsing never leaves two equal neighbours, keeps the last element and
      keeps the first. */
  lemma {:induction false} CollapseProperties(s: seq<string>)
    ensures |Collapse(s)| <= |s|
    ensures s != [] ==> Collapse(s) != [] && Collapse(s)[0] == s[0]
    ensures s != [] ==> Collapse(s)[|Collapse(s)| - 1] == s[|s| - 1]
    ensures forall i :: 0 <= i < |Collapse(s)| - 1 ==> Collapse(s)[i] != Collapse(s)[i + 1]
    decreases |s|
  {
    if |s| > 1 {
      var p := s[..|s| - 1];
      CollapseProperties(p);
      assert p[|p| - 1] == s[|s| - 2];
    }
  }

  /** Only consecutive repeats are dropped: "a", "b", "a" on one topic is published in
      full, while "a", "a" is published once. */
  lemma CollapseExamples()
    ensures Collapse(["a", "b", "a"]) == ["a", "b", "a"]
    ensures Collapse(["a", "a"]) == ["a"]
  {
    assert ["a", "b", "a"][..2] == ["a", "b"];
    assert ["a", "b"][..1] == ["a"];
    assert ["a", "a"][..1] == ["a"];
  }
}

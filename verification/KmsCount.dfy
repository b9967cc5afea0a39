/** The recorded gates and POSTs of a run are its fetches and its retrieve requests, one for one. */
module KmsCount {
  import opened Common
  import opened Kms
  import opened KmsProtocol

  /** The retrieve requests sent, or only the first of each fetch. */
  function Retrieves(sent: map<Id, Purpose>, first: bool): set<Id> {
    set id | id in sent && Counts(sent[id], first)
  }

  ghost predicate Recorded(s: Sys) {
    |s.posts| == |Retrieves(s.sent, false)| && |s.gates| == |Retrieves(s.sent, true)|
  }

  predicate Counts(p: Purpose, first: bool) {
    p.Retrieve? && (first ==> p.attempt == 1)
  }

  lemma OneMoreRetrieve(sent: map<Id, Purpose>, id: Id, p: Purpose, first: bool)
    requires id !in sent
    ensures Retrieves(sent[id := p], first) == Retrieves(sent, first) + if Counts(p, first) then {id} else {}
    ensures id !in Retrieves(sent, first)
  {
    forall x
      ensures x in Retrieves(sent[id := p], first) <==>
                x in Retrieves(sent, first) || (x == id && Counts(p, first))
    {
      if x != id {
        assert x in sent[id := p] <==> x in sent;
      }
    }
  }

  lemma OneMoreSent(sent: map<Id, Purpose>, id: Id, p: Purpose, first: bool)
    requires id !in sent
    ensures |Retrieves(sent[id := p], first)| == |Retrieves(sent, first)| + if Counts(p, first) then 1 else 0
  {
    OneMoreRetrieve(sent, id, p, first);
  }

  /** A send that is no first attempt of a fetch. */
  lemma SendRecorded(s: Sys, p: Purpose, id: Id)
    requires Recorded(s) && s.box.pending == [] && id !in s.sent && (p.Retrieve? ==> p.attempt != 1)
    ensures Recorded(BeginSend(s, p, id))
  {
    OneMoreSent(s.sent, id, p, false);
    OneMoreSent(s.sent, id, p, true);
  }

  /** A stretch that checked the breaker, with its first attempt if it passed. */
  lemma ProceedRecorded(s: Sys, uri: Uri, c: Client, n: Next, id: Id)
    requires Recorded(s) && s.box.pending == [] && id !in s.sent && (n.Send? ==> n.attempt == 1)
    ensures Recorded(Proceed(s, uri, c, n, id))
  {
    if n.Send? {
      OneMoreSent(s.sent, id, Retrieve(uri, 1), false);
      OneMoreSent(s.sent, id, Retrieve(uri, 1), true);
    }
  }

  lemma DeliverRecorded(s: Sys, id: Id)
    requires Inv(s) && Recorded(s) && Enabled(s, Deliver(id))
    ensures Recorded(Step(s, Deliver(id)))
  {
    var body := s.box.delivered[s.phase.id].body;
    if s.phase.purpose.Handshake? && body.HandshakeBody? && s.phase.purpose.resume.Some? {
      var s1 := s.(client := Initialized(s.client, body.derived, s.now));
      var (c, n) := Gate(s1.client, s1.now);
      ProceedRecorded(s1, s.phase.purpose.resume.value, c, n, id);
    }
  }

  lemma StepRecorded(s: Sys, e: Event)
    requires Inv(s) && Recorded(s) && Enabled(s, e)
    ensures Recorded(Step(s, e))
  {
    match e
    case CallGetKey(uri, id) =>
      var (c, n) := Enter(s.client, uri, s.now);
      ProceedRecorded(s.(out := s.out + [Called(uri)]), uri, c, n, id);
    case DetailsOk(id) => SendRecorded(s, Handshake(s.phase.resume), id);
    case Deliver(id) => DeliverRecorded(s, id);
    case Wake(id) => SendRecorded(s, Retrieve(s.phase.uri, s.phase.attempt + 1), id);
    case ChannelDropped => assert false;
    case _ =>
  }

  lemma {:induction false} RunRecorded(s: Sys, es: seq<Event>)
    requires Inv(s) && Recorded(s) && IsRun(s, es)
    ensures Recorded(After(s, es))
    decreases |es|
  {
    if es != [] {
      StepInv(s, es[0]);
      StepRecorded(s, es[0]);
      RunRecorded(Step(s, es[0]), es[1..]);
    }
  }

  /** From a new client on, every retrieve request counts as one POST and every first one as one fetch past the gate. */
  lemma AllRecorded(es: seq<Event>)
    requires IsRun(INITIAL, es)
    ensures Recorded(After(INITIAL, es))
  {
    RunRecorded(INITIAL, es);
  }
}

/**
 * The worker's code in the order it runs: broker adapter, runtime service, use case and repository,
 * for one message at a time, and the proof that one such call is a run of the protocol.
 */
module Worker {
  import opened Results
  import opened Envelope
  import opened Inbox
  import opened Ingestion

  datatype Failure = Invalid(error: IngestError) | Repository(cause: RepositoryError)

  /** What handling m does to the inbox, and why the message is dead-lettered if it is not acked. */
  function Handled(docs: seq<InboxRecord>, m: Message, draw: Draw, connected: bool): (seq<InboxRecord>, Option<Reason>) {
    match Accept(m)
    case Err(e) => (docs, Some(Rejected(e)))
    case Ok(draft) =>
      var r := Ingest(draft, draw);
      if !connected then (docs, Some(RepositoryFault))
      else if HasKey(docs, r.dedupKey) then (docs, None)
      else if HasId(docs, r.id) then (docs, Some(LostInsertRace))
      else (docs + [r], None)
  }

  class IngestEventUseCase {
    const repository: InboxMongoRepository

    constructor (repository: InboxMongoRepository)
      ensures this.repository == repository
    {
      this.repository := repository;
    }

    /** `IngestionRuntimeService.handle` and `IngestEventUseCase.execute`: nothing is written unless
        the whole message is acceptable. */
    method Execute(m: Message, draw: Draw, connected: bool) returns (result: Result<bool, Failure>)
      requires repository.Valid()
      modifies repository
      ensures repository.Valid()
      ensures repository.docs == Handled(old(repository.docs), m, draw, connected).0
      ensures result.Ok? <==> Handled(old(repository.docs), m, draw, connected).1.None?
      ensures result.Ok? ==>
                && KeyOf(m).Some? && HasKey(repository.docs, KeyOf(m).value)
                && (result.value <==> !HasKey(old(repository.docs), KeyOf(m).value))
      ensures !ValidMessage(m) ==> result == Err(Invalid(Rejection(m))) && repository.docs == old(repository.docs)
      ensures result == Ok(true) ==>
                && repository.docs == old(repository.docs) + [repository.docs[|old(repository.docs)|]]
                && MadeFrom(repository.docs[|old(repository.docs)|], m, draw)
      ensures result != Ok(true) ==> repository.docs == old(repository.docs)
    {
      AcceptedIff(m);
      var draft := Accept(m);
      if draft.Err? {
        return Err(Invalid(draft.error));
      }
      var record := Ingest(draft.value, draw);
      IngestedFields(m, draw);
      AsMapKeys(repository.docs);
      var upserted := repository.UpsertByDedupKey(record, connected);
      AsMapKeys(repository.docs);
      if upserted.Err? {
        return Err(Repository(upserted.error));
      }
      return Ok(upserted.value);
    }
  }

  /** The broker's side of one channel: deliveries it still waits for, and what it was told. */
  class Channel {
    var unacked: map<nat, nat>       // delivery tag -> message
    var acked: set<nat>
    var dead: set<nat>

    constructor ()
      ensures unacked == map[] && acked == {} && dead == {}
    {
      unacked, acked, dead := map[], {}, {};
    }

    method Ack(tag: nat)
      modifies this
      ensures unacked == old(unacked) - {tag} && dead == old(dead)
      ensures acked == old(acked) + if tag in old(unacked) then {old(unacked)[tag]} else {}
    {
      if tag in unacked {
        acked := acked + {unacked[tag]};
      }
      unacked := unacked - {tag};
    }

    /** `nack(msg, false, false)`: not requeued. */
    method Nack(tag: nat)
      modifies this
      ensures unacked == old(unacked) - {tag} && acked == old(acked)
      ensures dead == old(dead) + if tag in old(unacked) then {old(unacked)[tag]} else {}
    {
      if tag in unacked {
        dead := dead + {unacked[tag]};
      }
      unacked := unacked - {tag};
    }

    /** Whatever is unacknowledged goes back to the queue. */
    method Close() returns (requeued: set<nat>)
      modifies this
      ensures requeued == old(unacked).Values && unacked == map[]
      ensures acked == old(acked) && dead == old(dead)
    {
      requeued := unacked.Values;
      unacked := map[];
    }
  }

  datatype Delivery = Delivery(tag: nat, message: Message)

  class RabbitMqBrokerConsumerAdapter {
    const channel: Channel

    constructor (channel: Channel)
      ensures this.channel == channel
    {
      this.channel := channel;
    }

    method Disconnect() returns (requeued: set<nat>)
      modifies channel
      ensures requeued == old(channel.unacked).Values && channel.unacked == map[]
      ensures channel.acked == old(channel.acked) && channel.dead == old(channel.dead)
    {
      requeued := channel.Close();
    }

    /** One ack or one nack for every non-null message still held, none for a null one; the ack only
        after the key is stored. */
    method HandleMessage(msg: Option<Delivery>, useCase: IngestEventUseCase, draw: Draw, connected: bool)
      requires useCase.repository.Valid()
      modifies channel, useCase.repository
      ensures useCase.repository.Valid()
      ensures msg.None? ==>
                && channel.unacked == old(channel.unacked) && channel.acked == old(channel.acked)
                && channel.dead == old(channel.dead) && useCase.repository.docs == old(useCase.repository.docs)
      ensures msg.Some? ==>
                var (docs, reason) := Handled(old(useCase.repository.docs), msg.value.message, draw, connected);
                var settled := if msg.value.tag in old(channel.unacked) then {old(channel.unacked)[msg.value.tag]} else {};
                && useCase.repository.docs == docs
                && channel.unacked == old(channel.unacked) - {msg.value.tag}
                && channel.acked == old(channel.acked) + (if reason.None? then settled else {})
                && channel.dead == old(channel.dead) + (if reason.Some? then settled else {})
                && (reason.None? ==> KeyOf(msg.value.message).Some?
                                     && HasKey(useCase.repository.docs, KeyOf(msg.value.message).value))
    {
      if msg.None? {
        return;
      }
      var result := useCase.Execute(msg.value.message, draw, connected);
      if result.Ok? {
        channel.Ack(msg.value.tag);
      } else {
        channel.Nack(msg.value.tag);
      }
    }
  }

  /** The protocol steps one uninterrupted call of HandleMessage takes. */
  function HandlerSteps(docs: seq<InboxRecord>, m: Message, t: nat, draw: Draw, connected: bool): seq<Step> {
    match Accept(m)
    case Err(_) => [Prepare(t, draw), Nack(t)]
    case Ok(draft) =>
      if !connected then [Prepare(t, draw), Fault(t, false), Nack(t)]
      else if HasKey(docs, draft.dedupKey) then [Prepare(t, draw), Match(t), Ack(t)]
      else if HasId(docs, draw.recordId) then [Prepare(t, draw), Match(t), Insert(t, false), Nack(t)]
      else [Prepare(t, draw), Match(t), Insert(t, false), Ack(t)]
  }

  lemma ExecOne(s: State, step: Step, rest: seq<Step>)
    requires Enabled(s, step) && Admissible(Apply(s, step), rest)
    ensures Admissible(s, [step] + rest) && Exec(s, [step] + rest) == Exec(Apply(s, step), rest)
  {
    assert ([step] + rest)[1..] == rest;
  }

  /** Steps in a row, one by one: a run is admissible when each step is enabled in turn. */
  lemma {:induction false} ExecTwo(s: State, a: Step, b: Step)
    requires Enabled(s, a) && Enabled(Apply(s, a), b)
    ensures Admissible(s, [a, b]) && Exec(s, [a, b]) == Apply(Apply(s, a), b)
  {
    ExecOne(Apply(s, a), b, []);
    assert [b] + [] == [b];
    ExecOne(s, a, [b]);
    assert [a] + [b] == [a, b];
  }

  lemma {:induction false} ExecThree(s: State, a: Step, b: Step, c: Step)
    requires Enabled(s, a) && Enabled(Apply(s, a), b) && Enabled(Apply(Apply(s, a), b), c)
    ensures Admissible(s, [a, b, c]) && Exec(s, [a, b, c]) == Apply(Apply(Apply(s, a), b), c)
  {
    ExecTwo(Apply(s, a), b, c);
    ExecOne(s, a, [b, c]);
    assert [a] + [b, c] == [a, b, c];
  }

  lemma {:induction false} ExecFour(s: State, a: Step, b: Step, c: Step, d: Step)
    requires Enabled(s, a) && Enabled(Apply(s, a), b) && Enabled(Apply(Apply(s, a), b), c)
    requires Enabled(Apply(Apply(Apply(s, a), b), c), d)
    ensures Admissible(s, [a, b, c, d]) && Exec(s, [a, b, c, d]) == Apply(Apply(Apply(Apply(s, a), b), c), d)
  {
    ExecThree(Apply(s, a), b, c, d);
    ExecOne(s, a, [b, c, d]);
    assert [a] + [b, c, d] == [a, b, c, d];
  }

  /** The state HandleMessage leaves: delivery settled, inbox and broker as `Handled` says. */
  function AfterHandling(s: State, t: nat, draw: Draw, connected: bool): State
    requires At(s, t) && s.handlers[t].message < |s.published|
  {
    var h := s.handlers[t];
    var m := s.published[h.message];
    var (docs, reason) := Handled(s.inbox, m, draw, connected);
    s.(inbox := docs,
       handlers := s.handlers[t := h.(held := false, phase := Ended)],
       acked := if reason.None? then s.acked + {h.message} else s.acked,
       dead := if reason.Some? then s.dead[h.message := reason.value] else s.dead,
       minted := if Accept(m).Ok? then s.minted + {draw.recordId} else s.minted)
  }

  lemma LastPhaseStays(s: State, t: nat, p: Phase, q: Phase)
    requires At(s, t)
    ensures SetPhase(SetPhase(s, t, p), t, q) == SetPhase(s, t, q)
    ensures Finish(SetPhase(s, t, p), t) == Finish(s, t)
  {
    assert s.handlers[t := s.handlers[t].(phase := p)][t := s.handlers[t].(phase := q)]
        == s.handlers[t := s.handlers[t].(phase := q)];
    assert s.handlers[t := s.handlers[t].(phase := p)][t := s.handlers[t].(held := false, phase := Ended)]
        == s.handlers[t := s.handlers[t].(held := false, phase := Ended)];
  }

  lemma RejectedRun(s: State, t: nat, draw: Draw)
    requires At(s, t) && s.handlers[t].held && Enabled(s, Prepare(t, draw))
    requires Accept(s.published[s.handlers[t].message]).Err?
    ensures Enabled(Apply(s, Prepare(t, draw)), Nack(t))
    ensures forall connected ::
              Apply(Apply(s, Prepare(t, draw)), Nack(t)) == AfterHandling(s, t, draw, connected)
  {
    LastPhaseStays(s, t, Nacking(Rejected(Accept(s.published[s.handlers[t].message]).error)), Ended);
  }

  /** What Prepare leaves for an acceptable message. */
  lemma PreparedRun(s: State, t: nat, draw: Draw)
    requires At(s, t) && s.handlers[t].held && Enabled(s, Prepare(t, draw))
    requires Accept(s.published[s.handlers[t].message]).Ok?
    ensures var r := Ingest(Accept(s.published[s.handlers[t].message]).value, draw);
            && Apply(s, Prepare(t, draw)) == SetPhase(s.(minted := s.minted + {draw.recordId}), t, Matching(r))
  {
  }

  lemma FaultRun(s: State, t: nat, r: InboxRecord)
    requires At(s, t) && s.handlers[t].held
    ensures var p := SetPhase(s, t, Matching(r));
            && Enabled(p, Fault(t, false))
            && Enabled(Apply(p, Fault(t, false)), Nack(t))
            && Apply(Apply(p, Fault(t, false)), Nack(t))
               == Finish(s, t).(dead := s.dead[s.handlers[t].message := RepositoryFault])
  {
    LastPhaseStays(s, t, Matching(r), Nacking(RepositoryFault));
    LastPhaseStays(s, t, Nacking(RepositoryFault), Ended);
  }

  lemma MatchRun(s: State, t: nat, r: InboxRecord)
    requires At(s, t) && s.handlers[t].held && HasKey(s.inbox, r.dedupKey)
    ensures var p := SetPhase(s, t, Matching(r));
            && Enabled(p, Match(t))
            && Enabled(Apply(p, Match(t)), Ack(t))
            && Apply(Apply(p, Match(t)), Ack(t)) == Finish(s, t).(acked := s.acked + {s.handlers[t].message})
  {
    LastPhaseStays(s, t, Matching(r), Acking(r, false));
    LastPhaseStays(s, t, Acking(r, false), Ended);
  }

  lemma NoMatchRun(s: State, t: nat, r: InboxRecord)
    requires At(s, t) && s.handlers[t].held && !HasKey(s.inbox, r.dedupKey)
    ensures var p := SetPhase(s, t, Matching(r));
            && Enabled(p, Match(t))
            && Apply(p, Match(t)) == SetPhase(s, t, Inserting(r))
  {
    LastPhaseStays(s, t, Matching(r), Inserting(r));
  }

  lemma InsertRun(s: State, t: nat, r: InboxRecord)
    requires At(s, t) && s.handlers[t].held && !HasKey(s.inbox, r.dedupKey)
    ensures var p := SetPhase(s, t, Inserting(r));
            && Enabled(p, Insert(t, false))
            && (HasId(s.inbox, r.id) ==>
                  && Enabled(Apply(p, Insert(t, false)), Nack(t))
                  && Apply(Apply(p, Insert(t, false)), Nack(t))
                     == Finish(s, t).(dead := s.dead[s.handlers[t].message := LostInsertRace]))
            && (!HasId(s.inbox, r.id) ==>
                  && Enabled(Apply(p, Insert(t, false)), Ack(t))
                  && Apply(Apply(p, Insert(t, false)), Ack(t))
                     == Finish(s, t).(acked := s.acked + {s.handlers[t].message}, inbox := s.inbox + [r]))
  {
    LastPhaseStays(s, t, Inserting(r), Nacking(LostInsertRace));
    LastPhaseStays(s, t, Nacking(LostInsertRace), Ended);
    LastPhaseStays(s, t, Inserting(r), Acking(r, true));
    LastPhaseStays(s, t, Acking(r, true), Ended);
  }

  /** One uninterrupted call of HandleMessage is a run of the protocol with the same effect. */
  lemma {:induction false} HandleMessageIsARun(s: State, t: nat, draw: Draw, connected: bool)
    requires At(s, t) && s.handlers[t].held && Enabled(s, Prepare(t, draw))
    ensures var steps := HandlerSteps(s.inbox, s.published[s.handlers[t].message], t, draw, connected);
            Admissible(s, steps) && Exec(s, steps) == AfterHandling(s, t, draw, connected)
  {
    var m := s.published[s.handlers[t].message];
    if Accept(m).Err? {
      RejectedRun(s, t, draw);
      ExecTwo(s, Prepare(t, draw), Nack(t));
    } else {
      var r, u := Ingest(Accept(m).value, draw), s.(minted := s.minted + {draw.recordId});
      PreparedRun(s, t, draw);
      if !connected {
        FaultRun(u, t, r);
        ExecThree(s, Prepare(t, draw), Fault(t, false), Nack(t));
      } else if HasKey(s.inbox, r.dedupKey) {
        MatchRun(u, t, r);
        ExecThree(s, Prepare(t, draw), Match(t), Ack(t));
      } else {
        NoMatchRun(u, t, r);
        InsertRun(u, t, r);
        ExecFour(s, Prepare(t, draw), Match(t), Insert(t, false), if HasId(s.inbox, r.id) then Nack(t) else Ack(t));
      }
    }
  }

  /** A delivered message waiting for its handler, alone. */
  function Delivered(m: Message): State {
    INIT.(published := [m], handlers := [Handler(0, 0, true, Received)], consumers := {0})
  }

  lemma DeliveredIsReached(m: Message, rest: seq<Step>)
    requires Admissible(Delivered(m), rest)
    ensures var steps := [Publish(m)] + ([Start(0)] + ([Deliver(0, 0)] + rest));
            Admissible(INIT, steps) && Exec(INIT, steps) == Exec(Delivered(m), rest)
  {
    var published := Apply(INIT, Publish(m));
    var started := Apply(published, Start(0));
    assert Apply(started, Deliver(0, 0)) == Delivered(m);
    ExecOne(started, Deliver(0, 0), rest);
    ExecOne(published, Start(0), [Deliver(0, 0)] + rest);
    ExecOne(INIT, Publish(m), [Start(0)] + ([Deliver(0, 0)] + rest));
  }

  /** One repository fault is enough: for every valid message, the run that settles it without storing it. */
  lemma FaultLosesMessage(m: Message, draw: Draw)
    requires ValidMessage(m)
    ensures var steps := [Publish(m)] + ([Start(0)] + ([Deliver(0, 0)] + [Prepare(0, draw), Fault(0, false), Nack(0)]));
            && Admissible(INIT, steps) && Settled(Exec(INIT, steps))
            && Exec(INIT, steps).published == [m] && Exec(INIT, steps).inbox == []
            && Exec(INIT, steps).dead == map[0 := RepositoryFault]
            && !Persisted(Exec(INIT, steps).inbox, m)
  {
    AcceptedIff(m);
    HandleMessageIsARun(Delivered(m), 0, draw, false);
    DeliveredIsReached(m, [Prepare(0, draw), Fault(0, false), Nack(0)]);
  }

  /** A repository call can fail after the insert went through: the message is stored and dead-lettered. */
  lemma FaultAfterInsert(m: Message, draw: Draw) returns (r: InboxRecord)
    requires ValidMessage(m)
    ensures MadeFrom(r, m, draw)
    ensures var steps := [Publish(m)] + ([Start(0)] + ([Deliver(0, 0)]
                         + [Prepare(0, draw), Match(0), Fault(0, true), Nack(0)]));
            && Admissible(INIT, steps) && Settled(Exec(INIT, steps))
            && Exec(INIT, steps).inbox == [r] && Exec(INIT, steps).acked == {}
            && Exec(INIT, steps).dead == map[0 := RepositoryFault]
  {
    AcceptedIff(m);
    IngestedFields(m, draw);
    r := Ingest(Accept(m).value, draw);
    var s := Delivered(m);
    var s1 := Apply(s, Prepare(0, draw));
    assert s1 == s.(handlers := [Handler(0, 0, true, Matching(r))], minted := {draw.recordId});
    var s2 := Apply(s1, Match(0));
    assert s2 == s1.(handlers := [Handler(0, 0, true, Inserting(r))]);
    var s3 := Apply(s2, Fault(0, true));
    assert s3 == s2.(handlers := [Handler(0, 0, true, Nacking(RepositoryFault))], inbox := [r]);
    ExecFour(s, Prepare(0, draw), Match(0), Fault(0, true), Nack(0));
    DeliveredIsReached(m, [Prepare(0, draw), Match(0), Fault(0, true), Nack(0)]);
  }

  lemma {:induction false} ExecJoin(s: State, a: seq<Step>, b: seq<Step>)
    requires Admissible(s, a) && Admissible(Exec(s, a), b)
    ensures Admissible(s, a + b) && Exec(s, a + b) == Exec(Exec(s, a), b)
    decreases |a|
  {
    if a == [] {
      assert a + b == b;
    } else {
      ExecJoin(Apply(s, a[0]), a[1..], b);
      assert (a + b)[1..] == a[1..] + b;
    }
  }

  /** Two deliveries of one key that have both found no match. */
  function Racing(m: Message, other: Message, r: InboxRecord, q: InboxRecord): State {
    State([m, other], {}, [Handler(0, 0, true, Inserting(r)), Handler(0, 1, true, Inserting(q))], {0}, [], {}, map[],
          {r.id, q.id})
  }

  /** The loser of the insert race is acked if it is answered with the winner's record, and dead-lettered for the raw
      duplicate-key error otherwise; the winner's record is stored either way. */
  lemma {:induction false} RaceEnds(m: Message, other: Message, r: InboxRecord, q: InboxRecord, seesWinner: bool)
    requires r.dedupKey == q.dedupKey
    ensures var steps := [Insert(0, false), Insert(1, seesWinner), Ack(0), if seesWinner then Ack(1) else Nack(1)];
            && Admissible(Racing(m, other, r, q), steps)
            && var s := Exec(Racing(m, other, r, q), steps);
            && Settled(s) && s.inbox == [r]
            && s.acked == (if seesWinner then {0, 1} else {0})
            && s.dead == (if seesWinner then map[] else map[1 := LostInsertRace])
  {
    var s := Racing(m, other, r, q);
    var s1 := Apply(s, Insert(0, false));
    assert s1 == s.(inbox := [r], handlers := [Handler(0, 0, true, Acking(r, true)), Handler(0, 1, true, Inserting(q))]);
    assert HasKey(s1.inbox, q.dedupKey) by {
      assert s1.inbox[0].dedupKey == q.dedupKey;
    }
    var s2 := Apply(s1, Insert(1, seesWinner));
    var p := if seesWinner then Acking(q, false) else Nacking(LostInsertRace);
    assert s2 == s1.(handlers := [Handler(0, 0, true, Acking(r, true)), Handler(0, 1, true, p)]);
    var s3 := Apply(s2, Ack(0));
    assert s3 == s2.(acked := {0}, handlers := [Handler(0, 0, false, Ended), Handler(0, 1, true, p)]);
    ExecFour(s, Insert(0, false), Insert(1, seesWinner), Ack(0), if seesWinner then Ack(1) else Nack(1));
  }

  /** Handler t takes message t up to its insert; m is its message and d what it draws. */
  lemma {:induction false} Reaches(s: State, t: nat, d: Draw, r: InboxRecord)
    requires t == |s.handlers| && t < |s.published| && 0 in s.consumers && t in s.ready && d.recordId !in s.minted
    requires Accept(s.published[t]).Ok? && r == Ingest(Accept(s.published[t]).value, d) && !HasKey(s.inbox, r.dedupKey)
    ensures var steps := [Deliver(0, t), Prepare(t, d), Match(t)];
            && Admissible(s, steps)
            && Exec(s, steps) == s.(ready := s.ready - {t}, handlers := s.handlers + [Handler(0, t, true, Inserting(r))],
                                    minted := s.minted + {d.recordId})
  {
    var s1 := Apply(s, Deliver(0, t));
    assert s1.handlers == s.handlers + [Handler(0, t, true, Received)];
    var s2 := Apply(s1, Prepare(t, d));
    assert s2.handlers == s.handlers + [Handler(0, t, true, Matching(r))];
    var s3 := Apply(s2, Match(t));
    assert s3.handlers == s.handlers + [Handler(0, t, true, Inserting(r))];
    ExecThree(s, Deliver(0, t), Prepare(t, d), Match(t));
  }

  lemma {:induction false} BothWait(m: Message, other: Message)
    ensures var steps := [Publish(m), Publish(other), Start(0)];
            && Admissible(INIT, steps)
            && Exec(INIT, steps) == INIT.(published := [m, other], ready := {0, 1}, consumers := {0})
  {
    ExecThree(INIT, Publish(m), Publish(other), Start(0));
  }

  lemma {:induction false} FourInARow(s: State, a: seq<Step>, s1: State, b: seq<Step>, s2: State, c: seq<Step>, s3: State,
                                      d: seq<Step>)
    requires Admissible(s, a) && Exec(s, a) == s1 && Admissible(s1, b) && Exec(s1, b) == s2
    requires Admissible(s2, c) && Exec(s2, c) == s3 && Admissible(s3, d)
    ensures Admissible(s, a + (b + (c + d))) && Exec(s, a + (b + (c + d))) == Exec(s3, d)
  {
    ExecJoin(s2, c, d);
    ExecJoin(s1, b, c + d);
    ExecJoin(s, a, b + (c + d));
  }

  lemma {:induction false} Offered(m: Message, d: Draw) returns (r: InboxRecord)
    requires ValidMessage(m)
    ensures Accept(m).Ok? && r == Ingest(Accept(m).value, d) && r.dedupKey == KeyText(m) && MadeFrom(r, m, d)
  {
    AcceptedIff(m);
    IngestedFields(m, d);
    r := Ingest(Accept(m).value, d);
  }

  /** Both are published and delivered to one worker, and both find no match; then the rest. */
  function RaceSteps(m: Message, other: Message, d: Draw, e: Draw, end: seq<Step>): seq<Step> {
    [Publish(m), Publish(other), Start(0)] + ([Deliver(0, 0), Prepare(0, d), Match(0)]
    + ([Deliver(0, 1), Prepare(1, e), Match(1)] + end))
  }

  lemma RaceHasNoFault(m: Message, other: Message, d: Draw, e: Draw, end: seq<Step>)
    requires forall st | st in end :: !st.Fault?
    ensures forall st | st in RaceSteps(m, other, d, e, end) :: !st.Fault?
  {
  }

  lemma {:induction false} RaceRun(m: Message, other: Message, d: Draw, e: Draw, r: InboxRecord, q: InboxRecord,
                                   end: seq<Step>)
    requires Accept(m).Ok? && r == Ingest(Accept(m).value, d)
    requires Accept(other).Ok? && q == Ingest(Accept(other).value, e) && d.recordId != e.recordId
    requires Admissible(Racing(m, other, r, q), end)
    ensures var steps := RaceSteps(m, other, d, e, end);
            Admissible(INIT, steps) && Exec(INIT, steps) == Exec(Racing(m, other, r, q), end)
  {
    var s3 := INIT.(published := [m, other], ready := {0, 1}, consumers := {0});
    var s6 := s3.(ready := {1}, handlers := [Handler(0, 0, true, Inserting(r))], minted := {d.recordId});
    BothWait(m, other);
    Reaches(s3, 0, d, r);
    assert s3.(ready := s3.ready - {0}, handlers := s3.handlers + [Handler(0, 0, true, Inserting(r))],
               minted := s3.minted + {d.recordId}) == s6;
    Reaches(s6, 1, e, q);
    assert s6.(ready := s6.ready - {1}, handlers := s6.handlers + [Handler(0, 1, true, Inserting(q))],
               minted := s6.minted + {e.recordId}) == Racing(m, other, r, q);
    FourInARow(INIT, [Publish(m), Publish(other), Start(0)], s3, [Deliver(0, 0), Prepare(0, d), Match(0)], s6,
               [Deliver(0, 1), Prepare(1, e), Match(1)], Racing(m, other, r, q), end);
  }

  /** So for every two valid messages with one key there is a run, without repository faults, that dead-letters a
      valid message; its key is stored all the same. */
  lemma {:induction false} RaceDeadLetters(m: Message, other: Message, d: Draw, e: Draw)
    returns (steps: seq<Step>, r: InboxRecord)
    requires ValidMessage(m) && ValidMessage(other) && KeyText(m) == KeyText(other) && d.recordId != e.recordId
    ensures MadeFrom(r, m, d)
    ensures Admissible(INIT, steps) && Settled(Exec(INIT, steps)) && (forall st | st in steps :: !st.Fault?)
    ensures var s := Exec(INIT, steps);
            s.acked == {0} && s.dead == map[1 := LostInsertRace] && s.inbox == [r] && Persisted(s.inbox, other)
  {
    var q := Offered(other, e);
    r := Offered(m, d);
    var end := RacersEnd(m, other, r, q);
    RaceRun(m, other, d, e, r, q, end);
    RaceHasNoFault(m, other, d, e, end);
    StoredAlready(r, other);
    steps := RaceSteps(m, other, d, e, end);
  }

  lemma {:induction false} RacersEnd(m: Message, other: Message, r: InboxRecord, q: InboxRecord) returns (end: seq<Step>)
    requires r.dedupKey == q.dedupKey
    ensures forall st | st in end :: !st.Fault?
    ensures Admissible(Racing(m, other, r, q), end)
    ensures var s := Exec(Racing(m, other, r, q), end);
            Settled(s) && s.inbox == [r] && s.acked == {0} && s.dead == map[1 := LostInsertRace]
  {
    RaceEnds(m, other, r, q, false);
    end := [Insert(0, false), Insert(1, false), Ack(0), Nack(1)];
  }

  lemma StoredAlready(r: InboxRecord, m: Message)
    requires ValidMessage(m) && r.dedupKey == KeyText(m)
    ensures Persisted([r], m)
  {
    assert [r][0].dedupKey == KeyText(m);
  }

  /** A stop in mid-upsert, for every valid message: the worker is gone, the message waits to be delivered again, and
      the old handler's insert still goes through. */
  lemma StopInterrupts(m: Message, draw: Draw) returns (r: InboxRecord)
    requires ValidMessage(m)
    ensures MadeFrom(r, m, draw)
    ensures var steps := [Publish(m)] + ([Start(0)] + ([Deliver(0, 0)]
                         + [Prepare(0, draw), Match(0), Stop(0), Insert(0, false)]));
            && Admissible(INIT, steps)
            && var s := Exec(INIT, steps);
            && s.consumers == {} && s.ready == {0} && s.acked == {} && s.dead == map[]
            && s.inbox == [r]
  {
    AcceptedIff(m);
    IngestedFields(m, draw);
    r := Ingest(Accept(m).value, draw);
    var s := Delivered(m);
    var s1 := Apply(s, Prepare(0, draw));
    assert s1 == s.(handlers := [Handler(0, 0, true, Matching(r))], minted := {draw.recordId});
    var s2 := Apply(s1, Match(0));
    assert s2 == s1.(handlers := [Handler(0, 0, true, Inserting(r))]);
    var s3 := Apply(s2, Stop(0));
    assert MessagesHeldBy(s2, 0) == {0} by {
      assert s2.handlers[0].message == 0;
    }
    assert s3 == s2.(ready := {0}, handlers := [Handler(0, 0, false, Inserting(r))], consumers := {});
    ExecFour(s, Prepare(0, draw), Match(0), Stop(0), Insert(0, false));
    DeliveredIsReached(m, [Prepare(0, draw), Match(0), Stop(0), Insert(0, false)]);
  }
}

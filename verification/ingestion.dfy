/**
 * Ingestion as a protocol: messages, workers, handlers and the inbox, one atomic step at a time.
 * A handler is identified by its delivery tag, the index in `handlers`; tags are never reused.
 */
module Ingestion {
  import opened Results
  import opened Envelope
  import opened Inbox

  /** Why a handler gave up on its message. */
  datatype Reason = Rejected(error: IngestError) | LostInsertRace | RepositoryFault

  /** Where a handler is. The stretch between two awaits is one step. */
  datatype Phase =
    | Received
    | Matching(record: InboxRecord)     // upsert issued, filter not yet evaluated
    | Inserting(record: InboxRecord)    // no match found, insert not yet through the unique indexes
    | Acking(record: InboxRecord, inserted: bool)
    | Nacking(reason: Reason)
    | Ended

  /** held: the broker still counts the delivery as unacknowledged on an open channel. */
  datatype Handler = Handler(worker: nat, message: nat, held: bool, phase: Phase)

  datatype State = State(
    published: seq<Message>,     // message i is published[i]
    ready: set<nat>,
    handlers: seq<Handler>,
    consumers: set<nat>,
    inbox: seq<InboxRecord>,
    acked: set<nat>,
    dead: map<nat, Reason>,
    minted: set<string>)         // record ids drawn so far

  datatype Step =
    | Publish(m: Message)
    | Start(worker: nat)                       // consume()
    | Deliver(worker: nat, message: nat)
    | Prepare(tag: nat, draw: Draw)            // JSON.parse .. InboxRecord.ingest
    | Match(tag: nat)
    | Insert(tag: nat, seesWinner: bool)       // on a conflict: sees the winner's record, or the raw error
    | Fault(tag: nat, applied: bool)           // the repository call fails; an insert may have been applied
    | Ack(tag: nat)
    | Nack(tag: nat)
    | Disconnect(worker: nat)                  // channel lost and reopened
    | Stop(worker: nat)                        // disconnect(), which does not wait for handlers
    | Crash(worker: nat)

  const INIT := State([], {}, [], {}, [], {}, map[], {})

  function Unacked(s: State): set<nat> {
    set t | 0 <= t < |s.handlers| && s.handlers[t].held :: s.handlers[t].message
  }

  predicate Settled(s: State) {
    s.ready == {} && Unacked(s) == {}
  }

  predicate At(s: State, tag: nat) {
    tag < |s.handlers|
  }

  predicate Enabled(s: State, step: Step) {
    match step
    case Publish(_) => true
    case Start(w) => w !in s.consumers
    case Deliver(w, i) => w in s.consumers && i in s.ready
    case Prepare(t, draw) =>
      && At(s, t) && s.handlers[t].phase.Received? && s.handlers[t].message < |s.published|
      && draw.recordId !in s.minted
    case Match(t) => At(s, t) && s.handlers[t].phase.Matching?
    case Insert(t, _) => At(s, t) && s.handlers[t].phase.Inserting?
    case Fault(t, applied) =>
      && At(s, t)
      && (s.handlers[t].phase.Matching? || s.handlers[t].phase.Inserting?)
      && (applied ==> s.handlers[t].phase.Inserting? && !Conflict(s.inbox, s.handlers[t].phase.record))
    case Ack(t) => At(s, t) && s.handlers[t].phase.Acking?
    case Nack(t) => At(s, t) && s.handlers[t].phase.Nacking?
    case Disconnect(w) => w in s.consumers
    case Stop(w) => w in s.consumers
    case Crash(w) => w in s.consumers
  }

  function SetPhase(s: State, t: nat, p: Phase): State
    requires At(s, t)
  {
    s.(handlers := s.handlers[t := s.handlers[t].(phase := p)])
  }

  /** Acknowledging removes the delivery from the broker; on a channel that is gone it has no effect. */
  function Finish(s: State, t: nat): State
    requires At(s, t)
  {
    s.(handlers := s.handlers[t := s.handlers[t].(held := false, phase := Ended)])
  }

  function MessagesHeldBy(s: State, w: nat): set<nat> {
    set t | 0 <= t < |s.handlers| && s.handlers[t].held && s.handlers[t].worker == w :: s.handlers[t].message
  }

  function Release(h: Handler, w: nat, dies: bool): Handler {
    if h.worker != w then h
    else if dies then h.(held := false, phase := Ended)
    else h.(held := false)
  }

  /** Every delivery w holds goes back to the queue; its handlers die only with the process. */
  function Requeue(s: State, w: nat, dies: bool): State {
    s.(ready := s.ready + MessagesHeldBy(s, w),
       handlers := seq(|s.handlers|, t requires 0 <= t < |s.handlers| => Release(s.handlers[t], w, dies)))
  }

  function Apply(s: State, step: Step): State
    requires Enabled(s, step)
  {
    match step
    case Publish(m) => s.(published := s.published + [m], ready := s.ready + {|s.published|})
    case Start(w) => s.(consumers := s.consumers + {w})
    case Deliver(w, i) => s.(ready := s.ready - {i}, handlers := s.handlers + [Handler(w, i, true, Received)])
    case Prepare(t, draw) => (
      match Accept(s.published[s.handlers[t].message])
      case Ok(draft) => SetPhase(s, t, Matching(Ingest(draft, draw))).(minted := s.minted + {draw.recordId})
      case Err(e) => SetPhase(s, t, Nacking(Rejected(e))))
    case Match(t) =>
      var r := s.handlers[t].phase.record;
      SetPhase(s, t, if HasKey(s.inbox, r.dedupKey) then Acking(r, false) else Inserting(r))
    case Insert(t, seesWinner) =>
      var r := s.handlers[t].phase.record;
      if !Conflict(s.inbox, r) then SetPhase(s, t, Acking(r, true)).(inbox := s.inbox + [r])
      else if seesWinner && HasKey(s.inbox, r.dedupKey) then SetPhase(s, t, Acking(r, false))
      else SetPhase(s, t, Nacking(LostInsertRace))
    case Fault(t, applied) =>
      var s' := SetPhase(s, t, Nacking(RepositoryFault));
      if applied then s'.(inbox := s.inbox + [s.handlers[t].phase.record]) else s'
    case Ack(t) =>
      var h := s.handlers[t];
      if h.held then Finish(s, t).(acked := s.acked + {h.message}) else Finish(s, t)
    case Nack(t) =>
      var h := s.handlers[t];
      if h.held then Finish(s, t).(dead := s.dead[h.message := h.phase.reason]) else Finish(s, t)
    case Disconnect(w) => Requeue(s, w, false)
    case Stop(w) => Requeue(s, w, false).(consumers := s.consumers - {w})
    case Crash(w) => Requeue(s, w, true).(consumers := s.consumers - {w})
  }

  predicate Admissible(s: State, steps: seq<Step>)
    decreases |steps|
  {
    steps == [] || (Enabled(s, steps[0]) && Admissible(Apply(s, steps[0]), steps[1..]))
  }

  function Exec(s: State, steps: seq<Step>): State
    requires Admissible(s, steps)
    decreases |steps|
  {
    if steps == [] then s else Exec(Apply(s, steps[0]), steps[1..])
  }

  // ---------------------------------------------------------------- invariant

  predicate IsHeld(s: State, i: nat) {
    exists t | 0 <= t < |s.handlers| :: s.handlers[t].held && s.handlers[t].message == i
  }

  /** Each published message is in exactly one of ready, unacked (once), acked, dead-lettered. */
  predicate Placed(s: State) {
    && (forall t | 0 <= t < |s.handlers| :: s.handlers[t].message < |s.published|)
    && (forall i :: i in s.ready ==> i < |s.published| && i !in s.acked && i !in s.dead && !IsHeld(s, i))
    && (forall i :: i in s.acked ==> i < |s.published| && i !in s.dead)
    && (forall i :: i in s.dead ==> i < |s.published|)
    && (forall t | 0 <= t < |s.handlers| && s.handlers[t].held ::
          s.handlers[t].message !in s.acked && s.handlers[t].message !in s.dead && !s.handlers[t].phase.Ended?)
    && (forall t, u | 0 <= t < u < |s.handlers| && s.handlers[t].held && s.handlers[u].held ::
          s.handlers[t].message != s.handlers[u].message)
    && (forall i | 0 <= i < |s.published| :: i in s.ready || i in s.acked || i in s.dead || IsHeld(s, i))
  }

  /** m's key is stored. */
  predicate Persisted(docs: seq<InboxRecord>, m: Message) {
    KeyOf(m).Some? && HasKey(docs, KeyOf(m).value)
  }

  predicate Justified(docs: seq<InboxRecord>, m: Message, reason: Reason) {
    match reason
    case Rejected(e) => !ValidMessage(m) && e == Rejection(m)
    case LostInsertRace => Persisted(docs, m)
    case RepositoryFault => ValidMessage(m)
  }

  predicate PhaseOk(docs: seq<InboxRecord>, m: Message, p: Phase) {
    match p
    case Received => true
    case Matching(r) => BuiltFrom(r, m)
    case Inserting(r) => BuiltFrom(r, m)
    case Acking(r, _) => BuiltFrom(r, m) && HasKey(docs, r.dedupKey)
    case Nacking(reason) => Justified(docs, m, reason)
    case Ended => true
  }

  predicate HandlersOk(s: State) {
    forall t | 0 <= t < |s.handlers| ::
      s.handlers[t].message < |s.published|
      && PhaseOk(s.inbox, s.published[s.handlers[t].message], s.handlers[t].phase)
  }

  predicate AckedStored(s: State) {
    forall i | i in s.acked :: i < |s.published| && Persisted(s.inbox, s.published[i])
  }

  /** Every dead-lettered message has a reason that is true of it. */
  predicate DeadJustified(s: State) {
    forall i | i in s.dead :: i < |s.published| && Justified(s.inbox, s.published[i], s.dead[i])
  }

  predicate SettledOk(s: State) {
    AckedStored(s) && DeadJustified(s)
  }

  predicate FromSome(published: seq<Message>, r: InboxRecord) {
    exists i | 0 <= i < |published| :: BuiltFrom(r, published[i])
  }

  predicate InboxOk(s: State) {
    && UniqueKeys(s.inbox)
    && UniqueIds(s.inbox)
    && (forall j | 0 <= j < |s.inbox| :: FromSome(s.published, s.inbox[j]))
  }

  predicate Pending(p: Phase) {
    p.Matching? || p.Inserting?
  }

  /** Record ids are drawn fresh, so only the dedup key can ever conflict. */
  predicate IdsFresh(s: State) {
    && (forall j | 0 <= j < |s.inbox| :: s.inbox[j].id in s.minted)
    && (forall t | 0 <= t < |s.handlers| && Pending(s.handlers[t].phase) ::
          s.handlers[t].phase.record.id in s.minted && !HasId(s.inbox, s.handlers[t].phase.record.id))
    && (forall t, u | 0 <= t < u < |s.handlers| && Pending(s.handlers[t].phase) && Pending(s.handlers[u].phase) ::
          s.handlers[t].phase.record.id != s.handlers[u].phase.record.id)
  }

  predicate Inv(s: State) {
    Placed(s) && HandlersOk(s) && SettledOk(s) && InboxOk(s) && IdsFresh(s)
  }

  // ---------------------------------------------------------------- preservation, one predicate at a time

  lemma RequeueHandlers(s: State, w: nat, dies: bool)
    ensures var s' := Requeue(s, w, dies);
            && |s'.handlers| == |s.handlers|
            && forall t | 0 <= t < |s.handlers| :: s'.handlers[t] == Release(s.handlers[t], w, dies)
  {
  }

  /** The messages w held are no longer held, the others still are. */
  lemma RequeueHolds(s: State, w: nat, dies: bool, i: nat)
    requires Placed(s)
    ensures IsHeld(Requeue(s, w, dies), i) <==> IsHeld(s, i) && i !in MessagesHeldBy(s, w)
  {
    var s' := Requeue(s, w, dies);
    if IsHeld(s, i) {
      var t :| 0 <= t < |s.handlers| && s.handlers[t].held && s.handlers[t].message == i;
      assert s'.handlers[t] == Release(s.handlers[t], w, dies);
    }
  }

  lemma PlacedRequeue(s: State, w: nat, dies: bool)
    requires Placed(s)
    ensures Placed(Requeue(s, w, dies))
  {
    var s' := Requeue(s, w, dies);
    RequeueHandlers(s, w, dies);
    forall i ensures IsHeld(s', i) <==> IsHeld(s, i) && i !in MessagesHeldBy(s, w) {
      RequeueHolds(s, w, dies, i);
    }
  }

  lemma PlacedDeliver(s: State, w: nat, i: nat)
    requires Placed(s) && Enabled(s, Deliver(w, i))
    ensures Placed(Apply(s, Deliver(w, i)))
  {
    var s' := Apply(s, Deliver(w, i));
    assert s'.handlers[|s.handlers|].message == i;
    assert !IsHeld(s, i);
    forall j ensures IsHeld(s', j) <==> IsHeld(s, j) || i == j {
      if IsHeld(s, j) {
        var t :| 0 <= t < |s.handlers| && s.handlers[t].held && s.handlers[t].message == j;
        assert s'.handlers[t] == s.handlers[t];
      }
    }
  }

  /** The broker forgets one delivery: only its message stops being held. */
  lemma FinishHolds(s: State, t: nat)
    requires Placed(s) && At(s, t)
    ensures forall i :: IsHeld(Finish(s, t), i) <==> IsHeld(s, i) && !(s.handlers[t].held && s.handlers[t].message == i)
  {
    var s' := Finish(s, t);
    forall i ensures IsHeld(s', i) <==> IsHeld(s, i) && !(s.handlers[t].held && s.handlers[t].message == i) {
      if IsHeld(s, i) && !(s.handlers[t].held && s.handlers[t].message == i) {
        var u :| 0 <= u < |s.handlers| && s.handlers[u].held && s.handlers[u].message == i;
        assert s'.handlers[u] == s.handlers[u];
      }
    }
  }

  lemma PlacedSettle(s: State, step: Step)
    requires Placed(s) && Enabled(s, step) && (step.Ack? || step.Nack?)
    ensures Placed(Apply(s, step))
  {
    var s', t := Apply(s, step), step.tag;
    FinishHolds(s, t);
    forall i ensures IsHeld(s', i) <==> IsHeld(Finish(s, t), i) {
    }
    forall u | 0 <= u < |s.handlers| && u != t ensures s'.handlers[u] == s.handlers[u] {
    }
  }

  lemma PlacedPublish(s: State, m: Message)
    requires Placed(s)
    ensures Placed(Apply(s, Publish(m)))
  {
    var s' := Apply(s, Publish(m));
    forall i ensures IsHeld(s', i) <==> IsHeld(s, i) {
    }
    assert !IsHeld(s, |s.published|);
  }

  lemma PlacedConsumers(s: State, consumers: set<nat>)
    requires Placed(s)
    ensures Placed(s.(consumers := consumers))
  {
    PlacedPhase(s, s.(consumers := consumers));
  }

  lemma PlacedStep(s: State, step: Step)
    requires Placed(s) && Enabled(s, step)
    ensures Placed(Apply(s, step))
  {
    match step {
      case Publish(m) => PlacedPublish(s, m);
      case Start(w) => PlacedConsumers(s, s.consumers + {w});
      case Deliver(w, i) => PlacedDeliver(s, w, i);
      case Disconnect(w) => PlacedRequeue(s, w, false);
      case Stop(w) =>
        PlacedRequeue(s, w, false);
        PlacedConsumers(Requeue(s, w, false), s.consumers - {w});
      case Crash(w) =>
        PlacedRequeue(s, w, true);
        PlacedConsumers(Requeue(s, w, true), s.consumers - {w});
      case Ack(t) => PlacedSettle(s, step);
      case Nack(t) => PlacedSettle(s, step);
      case _ => PlacedPhase(s, Apply(s, step));
    }
  }

  /** A step that only moves one handler to another live phase places every message as before. */
  lemma PlacedPhase(s: State, s': State)
    requires Placed(s)
    requires s'.published == s.published && s'.ready == s.ready && s'.acked == s.acked && s'.dead == s.dead
    requires |s'.handlers| == |s.handlers|
    requires forall t | 0 <= t < |s.handlers| ::
               && s'.handlers[t].held == s.handlers[t].held && s'.handlers[t].message == s.handlers[t].message
               && (s'.handlers[t].phase.Ended? ==> s.handlers[t].phase.Ended?)
    ensures Placed(s')
  {
    forall i ensures IsHeld(s', i) <==> IsHeld(s, i) {
      if IsHeld(s, i) {
        var t :| 0 <= t < |s.handlers| && s.handlers[t].held && s.handlers[t].message == i;
        assert s'.handlers[t].held;
      }
    }
  }

  /** The inbox only ever grows at its end, so stored documents never change. */
  lemma InboxGrows(s: State, step: Step)
    requires Enabled(s, step)
    ensures s.inbox <= Apply(s, step).inbox && s.published <= Apply(s, step).published
  {
  }

  lemma HasKeyGrows(docs: seq<InboxRecord>, docs': seq<InboxRecord>, key: string)
    requires docs <= docs' && HasKey(docs, key)
    ensures HasKey(docs', key)
  {
    var j :| 0 <= j < |docs| && docs[j].dedupKey == key;
    assert docs'[j].dedupKey == key;
  }

  lemma PhaseOkGrows(docs: seq<InboxRecord>, docs': seq<InboxRecord>, m: Message, p: Phase)
    requires docs <= docs' && PhaseOk(docs, m, p)
    ensures PhaseOk(docs', m, p)
  {
    if p.Acking? {
      HasKeyGrows(docs, docs', p.record.dedupKey);
    } else if p == Nacking(LostInsertRace) {
      HasKeyGrows(docs, docs', KeyOf(m).value);
    }
  }

  /** The phase the step leaves its own handler in is right for its message. */
  lemma OwnPhaseOk(s: State, step: Step, t: nat)
    requires HandlersOk(s) && IdsFresh(s) && Enabled(s, step) && At(s, t)
    requires Moves(step, t)
    ensures var s' := Apply(s, step);
            PhaseOk(s'.inbox, s.published[s.handlers[t].message], s'.handlers[t].phase)
  {
    var s' := Apply(s, step);
    AcceptedIff(s.published[s.handlers[t].message]);
    if step.Prepare? && Accept(s.published[s.handlers[t].message]).Ok? {
      IngestedFields(s.published[s.handlers[t].message], step.draw);
    }
    if step.Insert? {
      var r := s.handlers[t].phase.record;
      if !Conflict(s.inbox, r) {
        assert s'.inbox[|s.inbox|].dedupKey == r.dedupKey;
      }
    }
  }

  /** The step takes handler t to a new live phase. */
  predicate Moves(step: Step, t: nat) {
    (step.Prepare? || step.Match? || step.Insert? || step.Fault?) && step.tag == t
  }

  lemma HandlerMoves(s: State, step: Step, t: nat)
    requires Enabled(s, step) && At(s, t)
    ensures At(Apply(s, step), t)
    ensures var h' := Apply(s, step).handlers[t];
            && h'.message == s.handlers[t].message
            && (Moves(step, t) || h'.phase == s.handlers[t].phase || h'.phase.Ended?)
  {
  }

  lemma HandlersOkStep(s: State, step: Step)
    requires HandlersOk(s) && IdsFresh(s) && Placed(s) && Enabled(s, step)
    ensures HandlersOk(Apply(s, step))
  {
    var s' := Apply(s, step);
    InboxGrows(s, step);
    forall t | 0 <= t < |s'.handlers|
      ensures s'.handlers[t].message < |s'.published|
              && PhaseOk(s'.inbox, s'.published[s'.handlers[t].message], s'.handlers[t].phase)
    {
      if t < |s.handlers| {
        var m := s.published[s.handlers[t].message];
        HandlerMoves(s, step, t);
        assert s'.published[s'.handlers[t].message] == m;
        if Moves(step, t) {
          OwnPhaseOk(s, step, t);
        } else {
          PhaseOkGrows(s.inbox, s'.inbox, m, s.handlers[t].phase);
        }
      }
    }
  }

  lemma {:induction false} PersistedGrows(docs: seq<InboxRecord>, docs': seq<InboxRecord>, m: Message)
    requires docs <= docs' && Persisted(docs, m)
    ensures Persisted(docs', m)
  {
    HasKeyGrows(docs, docs', KeyOf(m).value);
  }

  lemma StoredStay(s: State, s': State)
    requires AckedStored(s) && s.inbox <= s'.inbox && s.published <= s'.published
    ensures forall i | i in s.acked :: i < |s'.published| && Persisted(s'.inbox, s'.published[i])
  {
    forall i | i in s.acked ensures i < |s'.published| && Persisted(s'.inbox, s'.published[i]) {
      PersistedGrows(s.inbox, s'.inbox, s.published[i]);
    }
  }

  lemma JustifiedStay(s: State, s': State)
    requires DeadJustified(s) && s.inbox <= s'.inbox && s.published <= s'.published
    ensures forall i | i in s.dead :: i < |s'.published| && Justified(s'.inbox, s'.published[i], s.dead[i])
  {
    forall i | i in s.dead ensures i < |s'.published| && Justified(s'.inbox, s'.published[i], s.dead[i]) {
      PhaseOkGrows(s.inbox, s'.inbox, s.published[i], Nacking(s.dead[i]));
    }
  }

  /** An ordinary step acknowledges at most the message of a handler about to ack, which is stored. */
  lemma AckedStoredStep(s: State, step: Step)
    requires HandlersOk(s) && Enabled(s, step) && AckedStored(s)
    ensures AckedStored(Apply(s, step))
  {
    var s' := Apply(s, step);
    InboxGrows(s, step);
    StoredStay(s, s');
    if step.Ack? {
      var h := s.handlers[step.tag];
      assert PhaseOk(s.inbox, s.published[h.message], h.phase);
      assert Persisted(s.inbox, s.published[h.message]);
    } else {
      assert s'.acked == s.acked;
    }
  }

  lemma DeadJustifiedStep(s: State, step: Step)
    requires HandlersOk(s) && Enabled(s, step) && DeadJustified(s)
    ensures DeadJustified(Apply(s, step))
  {
    var s' := Apply(s, step);
    InboxGrows(s, step);
    JustifiedStay(s, s');
    if step.Nack? {
      var h := s.handlers[step.tag];
      assert PhaseOk(s.inbox, s.published[h.message], h.phase);
      assert Justified(s.inbox, s.published[h.message], h.phase.reason);
    } else {
      assert s'.dead == s.dead;
    }
  }

  lemma SettledOkStep(s: State, step: Step)
    requires SettledOk(s) && HandlersOk(s) && Enabled(s, step)
    ensures SettledOk(Apply(s, step))
  {
    AckedStoredStep(s, step);
    DeadJustifiedStep(s, step);
  }

  lemma FromSomeGrows(published: seq<Message>, published': seq<Message>, r: InboxRecord)
    requires published <= published' && FromSome(published, r)
    ensures FromSome(published', r)
  {
    var i :| 0 <= i < |published| && BuiltFrom(r, published[i]);
    assert BuiltFrom(r, published'[i]);
  }

  /** What is stored was stored before, or was the record of the step's handler and in conflict with nothing. */
  lemma StoredOrigin(s: State, step: Step)
    requires Enabled(s, step)
    ensures Apply(s, step).inbox == s.inbox
            || ((step.Insert? || step.Fault?) && Pending(s.handlers[step.tag].phase)
                && !Conflict(s.inbox, s.handlers[step.tag].phase.record)
                && Apply(s, step).inbox == s.inbox + [s.handlers[step.tag].phase.record])
  {
  }

  lemma UniqueAppend(docs: seq<InboxRecord>, r: InboxRecord)
    requires UniqueKeys(docs) && UniqueIds(docs) && !Conflict(docs, r)
    ensures UniqueKeys(docs + [r]) && UniqueIds(docs + [r])
  {
  }

  lemma FromSomeStored(published: seq<Message>, docs: seq<InboxRecord>, h: Handler)
    requires forall j | 0 <= j < |docs| :: FromSome(published, docs[j])
    requires Pending(h.phase) && h.message < |published| && PhaseOk(docs, published[h.message], h.phase)
    ensures forall j | 0 <= j <= |docs| :: FromSome(published, (docs + [h.phase.record])[j])
  {
    assert BuiltFrom(h.phase.record, published[h.message]);
  }

  lemma InboxOkStep(s: State, step: Step)
    requires InboxOk(s) && HandlersOk(s) && Enabled(s, step)
    ensures InboxOk(Apply(s, step))
  {
    var s' := Apply(s, step);
    InboxGrows(s, step);
    StoredOrigin(s, step);
    forall j | 0 <= j < |s.inbox| ensures FromSome(s'.published, s.inbox[j]) {
      FromSomeGrows(s.published, s'.published, s.inbox[j]);
    }
    if s'.inbox != s.inbox {
      var h := s.handlers[step.tag];
      UniqueAppend(s.inbox, h.phase.record);
      FromSomeStored(s'.published, s.inbox, h);
    }
  }

  /** Handlers other than the step's own keep their record or lose it. */
  predicate KeepsRecord(h: Handler, h': Handler) {
    Pending(h'.phase) ==> Pending(h.phase) && h'.phase.record == h.phase.record
  }

  /** Nothing new is minted or inserted: the other steps. */
  lemma IdsFreshQuiet(s: State, s': State)
    requires IdsFresh(s)
    requires s'.minted == s.minted && s'.inbox == s.inbox && |s'.handlers| >= |s.handlers|
    requires forall t | 0 <= t < |s.handlers| :: KeepsRecord(s.handlers[t], s'.handlers[t])
    requires forall t | |s.handlers| <= t < |s'.handlers| :: !Pending(s'.handlers[t].phase)
    ensures IdsFresh(s')
  {
  }

  lemma IdsFreshPrepare(s: State, t: nat, draw: Draw)
    requires IdsFresh(s) && Enabled(s, Prepare(t, draw))
    ensures IdsFresh(Apply(s, Prepare(t, draw)))
  {
    var s' := Apply(s, Prepare(t, draw));
    forall u | 0 <= u < |s.handlers| && u != t ensures s'.handlers[u] == s.handlers[u] {
    }
  }

  lemma IdsFreshInsert(s: State, step: Step)
    requires IdsFresh(s) && Enabled(s, step) && (step.Insert? || step.Fault?)
    ensures IdsFresh(Apply(s, step))
  {
    var s', t := Apply(s, step), step.tag;
    forall u | 0 <= u < |s.handlers| ensures KeepsRecord(s.handlers[u], s'.handlers[u]) {
    }
    forall u | 0 <= u < |s'.handlers| && Pending(s'.handlers[u].phase)
      ensures !HasId(s'.inbox, s'.handlers[u].phase.record.id)
    {
      assert u != t && s'.handlers[u] == s.handlers[u];
    }
  }

  lemma IdsFreshStep(s: State, step: Step)
    requires IdsFresh(s) && Enabled(s, step)
    ensures IdsFresh(Apply(s, step))
  {
    match step {
      case Prepare(t, draw) => IdsFreshPrepare(s, t, draw);
      case Insert(_, _) => IdsFreshInsert(s, step);
      case Fault(_, _) => IdsFreshInsert(s, step);
      case _ => IdsFreshQuiet(s, Apply(s, step));
    }
  }

  lemma InvStep(s: State, step: Step)
    requires Inv(s) && Enabled(s, step)
    ensures Inv(Apply(s, step))
  {
    PlacedStep(s, step);
    HandlersOkStep(s, step);
    SettledOkStep(s, step);
    InboxOkStep(s, step);
    IdsFreshStep(s, step);
  }

  lemma {:induction false} InvRun(s: State, steps: seq<Step>)
    requires Inv(s) && Admissible(s, steps)
    ensures Inv(Exec(s, steps))
    ensures s.inbox <= Exec(s, steps).inbox && s.published <= Exec(s, steps).published
    decreases |steps|
  {
    if steps != [] {
      InvStep(s, steps[0]);
      InboxGrows(s, steps[0]);
      InvRun(Apply(s, steps[0]), steps[1..]);
    }
  }
}

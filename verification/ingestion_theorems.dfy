/** What every run of the ingestion protocol keeps, and where every run ends. */
module IngestionTheorems {
  import opened Results
  import opened Envelope
  import opened Inbox
  import opened Ingestion

  // ---------------------------------------------------------------- conservation

  lemma HeldIsUnacked(s: State)
    ensures forall i: nat :: i in Unacked(s) <==> IsHeld(s, i)
  {
  }

  lemma PlacedAsSets(s: State)
    requires Placed(s)
    ensures forall i: nat :: i < |s.published| <==> i in s.ready || i in Unacked(s) || i in s.acked || i in s.dead.Keys
    ensures s.ready !! Unacked(s) !! s.acked !! s.dead.Keys
  {
    HeldIsUnacked(s);
    forall i: nat | i < |s.published| ensures i in s.ready || i in Unacked(s) || i in s.acked || i in s.dead.Keys {
    }
  }

  /** Every published message is ready, unacked, acked or dead-lettered, in exactly one place and once. */
  lemma {:induction false} Conservation(steps: seq<Step>)
    requires Admissible(INIT, steps)
    ensures var s := Exec(INIT, steps);
            && (forall i: nat ::
                  i < |s.published| <==> i in s.ready || i in Unacked(s) || i in s.acked || i in s.dead.Keys)
            && s.ready !! Unacked(s) !! s.acked !! s.dead.Keys
            && (forall t, u | 0 <= t < u < |s.handlers| && s.handlers[t].held && s.handlers[u].held ::
                  s.handlers[t].message != s.handlers[u].message)
  {
    InvRun(INIT, steps);
    PlacedAsSets(Exec(INIT, steps));
  }

  /** Nothing is acknowledged, or dropped for losing an insert race, before its key is stored; and the
      inbox holds nothing that was not published. */
  lemma {:induction false} AckAfterPersist(steps: seq<Step>)
    requires Admissible(INIT, steps)
    ensures var s := Exec(INIT, steps);
            && (forall i | i in s.acked :: i < |s.published| && Persisted(s.inbox, s.published[i]))
            && (forall i | i in s.dead && s.dead[i].LostInsertRace? :: i < |s.published| && Persisted(s.inbox, s.published[i]))
            && (forall i | i in s.dead && s.dead[i].Rejected? ::
                  i < |s.published| && !ValidMessage(s.published[i]) && s.dead[i].error == Rejection(s.published[i]))
            && (forall j | 0 <= j < |s.inbox| :: FromSome(s.published, s.inbox[j]))
  {
    InvRun(INIT, steps);
  }

  // ---------------------------------------------------------------- what a record is made of

  /** What the step draws, and the message it draws it for. */
  function Own(s: State, step: Step): set<(nat, Draw)>
    requires Enabled(s, step)
  {
    if step.Prepare? then {(s.handlers[step.tag].message, step.draw)} else {}
  }

  function Drawn(s: State, steps: seq<Step>): set<(nat, Draw)>
    requires Admissible(s, steps)
    decreases |steps|
  {
    if steps == [] then {} else Own(s, steps[0]) + Drawn(Apply(s, steps[0]), steps[1..])
  }

  /** r is what message i says, completed by what some delivery of message i drew. */
  predicate MadeOf(r: InboxRecord, published: seq<Message>, i: nat, draws: set<(nat, Draw)>) {
    i < |published| && exists d | d in draws :: d.0 == i && MadeFrom(r, published[i], d.1)
  }

  predicate MadeOfSome(r: InboxRecord, published: seq<Message>, draws: set<(nat, Draw)>) {
    exists i | 0 <= i < |published| :: MadeOf(r, published, i, draws)
  }

  predicate PendingMade(s: State, draws: set<(nat, Draw)>) {
    forall t | 0 <= t < |s.handlers| && Pending(s.handlers[t].phase) ::
      MadeOf(s.handlers[t].phase.record, s.published, s.handlers[t].message, draws)
  }

  predicate StoredMade(s: State, draws: set<(nat, Draw)>) {
    forall j | 0 <= j < |s.inbox| :: MadeOfSome(s.inbox[j], s.published, draws)
  }

  lemma MadeOfGrows(r: InboxRecord, published: seq<Message>, i: nat, draws: set<(nat, Draw)>, published': seq<Message>,
                    draws': set<(nat, Draw)>)
    requires MadeOf(r, published, i, draws) && published <= published' && draws <= draws'
    ensures MadeOf(r, published', i, draws')
  {
    var d :| d in draws && d.0 == i && MadeFrom(r, published[i], d.1);
    assert d in draws' && MadeFrom(r, published'[i], d.1);
  }

  lemma MadeOfSomeGrows(r: InboxRecord, published: seq<Message>, draws: set<(nat, Draw)>, published': seq<Message>,
                        draws': set<(nat, Draw)>)
    requires MadeOfSome(r, published, draws) && published <= published' && draws <= draws'
    ensures MadeOfSome(r, published', draws')
  {
    var i :| 0 <= i < |published| && MadeOf(r, published, i, draws);
    MadeOfGrows(r, published, i, draws, published', draws');
  }

  /** A handler becomes pending only with the record it has just built, or keeps its record. */
  lemma PendingOrigin(s: State, step: Step, t: nat)
    requires Enabled(s, step) && At(Apply(s, step), t) && Pending(Apply(s, step).handlers[t].phase)
    ensures At(s, t) && Apply(s, step).handlers[t].message == s.handlers[t].message
    ensures (Pending(s.handlers[t].phase) && Apply(s, step).handlers[t].phase.record == s.handlers[t].phase.record)
            || (step.Prepare? && step.tag == t && Accept(s.published[s.handlers[t].message]).Ok?
                && Apply(s, step).handlers[t].phase.record
                   == Ingest(Accept(s.published[s.handlers[t].message]).value, step.draw))
  {
  }

  lemma {:induction false} PendingMadeStep(s: State, step: Step, draws: set<(nat, Draw)>)
    requires PendingMade(s, draws) && Enabled(s, step)
    ensures PendingMade(Apply(s, step), draws + Own(s, step))
  {
    var s', all := Apply(s, step), draws + Own(s, step);
    InboxGrows(s, step);
    forall t | 0 <= t < |s'.handlers| && Pending(s'.handlers[t].phase)
      ensures MadeOf(s'.handlers[t].phase.record, s'.published, s'.handlers[t].message, all)
    {
      PendingOrigin(s, step, t);
      var i := s.handlers[t].message;
      if Pending(s.handlers[t].phase) && s'.handlers[t].phase.record == s.handlers[t].phase.record {
        MadeOfGrows(s.handlers[t].phase.record, s.published, i, draws, s'.published, all);
      } else {
        IngestedFields(s.published[i], step.draw);
        assert (i, step.draw) in all;
      }
    }
  }

  lemma {:induction false} StoredMadeStep(s: State, step: Step, draws: set<(nat, Draw)>)
    requires PendingMade(s, draws) && StoredMade(s, draws) && Enabled(s, step)
    ensures StoredMade(Apply(s, step), draws + Own(s, step))
  {
    var s', all := Apply(s, step), draws + Own(s, step);
    InboxGrows(s, step);
    StoredOrigin(s, step);
    forall j | 0 <= j < |s'.inbox| ensures MadeOfSome(s'.inbox[j], s'.published, all) {
      if j < |s.inbox| {
        MadeOfSomeGrows(s.inbox[j], s.published, draws, s'.published, all);
      } else {
        var h := s.handlers[step.tag];
        MadeOfGrows(h.phase.record, s.published, h.message, draws, s'.published, all);
      }
    }
  }

  lemma {:induction false} MadeRun(s: State, steps: seq<Step>, draws: set<(nat, Draw)>)
    requires PendingMade(s, draws) && StoredMade(s, draws) && Admissible(s, steps)
    ensures StoredMade(Exec(s, steps), draws + Drawn(s, steps))
    decreases |steps|
  {
    if steps == [] {
      assert draws + Drawn(s, steps) == draws;
    } else {
      var s', all := Apply(s, steps[0]), draws + Own(s, steps[0]);
      PendingMadeStep(s, steps[0], draws);
      StoredMadeStep(s, steps[0], draws);
      MadeRun(s', steps[1..], all);
      assert all + Drawn(s', steps[1..]) == draws + Drawn(s, steps);
    }
  }

  /** Every stored record, in every run, field by field: key, tenant, event type and payload are those of a valid
      published message; id and time are what one delivery of that message drew, and so is the correlation id unless
      the message has one. */
  lemma {:induction false} StoredFields(steps: seq<Step>, j: nat)
    requires Admissible(INIT, steps) && j < |Exec(INIT, steps).inbox|
    ensures var s := Exec(INIT, steps);
            exists i | 0 <= i < |s.published| :: MadeOf(s.inbox[j], s.published, i, Drawn(INIT, steps))
  {
    MadeRun(INIT, steps, {});
    assert {} + Drawn(INIT, steps) == Drawn(INIT, steps);
    assert MadeOfSome(Exec(INIT, steps).inbox[j], Exec(INIT, steps).published, Drawn(INIT, steps));
  }

  // ---------------------------------------------------------------- stopping

  /** Every handler of the worker has come to its end. */
  predicate Drained(s: State, w: nat) {
    forall t | 0 <= t < |s.handlers| && s.handlers[t].worker == w :: s.handlers[t].phase.Ended?
  }

  lemma StopHoldsNothing(s: State, w: nat)
    requires Enabled(s, Stop(w))
    ensures MessagesHeldBy(Apply(s, Stop(w)), w) == {}
  {
    RequeueHandlers(s, w, false);
  }

  /** Stopping does not drain: what the worker held is ready again while each of its handlers stays where it was,
      one about to insert still inserts, and all of them are done afterwards exactly if they were done before. */
  lemma StopDoesNotDrain(s: State, w: nat)
    requires Placed(s) && Enabled(s, Stop(w))
    ensures var s' := Apply(s, Stop(w));
            && s'.ready == s.ready + MessagesHeldBy(s, w) && MessagesHeldBy(s', w) == {}
            && |s'.handlers| == |s.handlers|
            && (forall t | 0 <= t < |s.handlers| :: s'.handlers[t].phase == s.handlers[t].phase)
            && (forall t: nat, seesWinner | t < |s.handlers| && s.handlers[t].phase.Inserting?
                                            && !Conflict(s.inbox, s.handlers[t].phase.record) ::
                  && Enabled(s', Insert(t, seesWinner))
                  && Apply(s', Insert(t, seesWinner)).inbox == s.inbox + [s.handlers[t].phase.record])
            && (Drained(s', w) <==> Drained(s, w))
            && (Drained(s, w) ==> s'.ready == s.ready)
  {
    RequeueHandlers(s, w, false);
    StopHoldsNothing(s, w);
    if Drained(s, w) {
      assert MessagesHeldBy(s, w) == {};
    }
  }

  predicate HeldByConsumers(s: State) {
    forall t | 0 <= t < |s.handlers| && s.handlers[t].held :: s.handlers[t].worker in s.consumers
  }

  lemma HeldByConsumersStep(s: State, step: Step)
    requires HeldByConsumers(s) && Enabled(s, step)
    ensures HeldByConsumers(Apply(s, step))
  {
    var s' := Apply(s, step);
    forall t | 0 <= t < |s'.handlers| && s'.handlers[t].held ensures s'.handlers[t].worker in s'.consumers {
      if t < |s.handlers| {
        assert s.handlers[t].held && s'.handlers[t].worker == s.handlers[t].worker;
      }
    }
  }

  /** The broker counts a delivery only against a worker that is consuming: one that has stopped or died is given
      nothing until it starts again. */
  lemma {:induction false} OnlyConsumersHold(s: State, steps: seq<Step>)
    requires HeldByConsumers(s) && Admissible(s, steps)
    ensures HeldByConsumers(Exec(s, steps))
    decreases |steps|
  {
    if steps != [] {
      HeldByConsumersStep(s, steps[0]);
      OnlyConsumersHold(Apply(s, steps[0]), steps[1..]);
    }
  }

  // ---------------------------------------------------------------- first write wins

  /** Whatever happens later, one record per key, and the one stored stays as it is. */
  lemma {:induction false} FirstWriteStays(steps: seq<Step>, more: seq<Step>, key: string)
    requires Admissible(INIT, steps) && Admissible(Exec(INIT, steps), more)
    ensures var before, after := Exec(INIT, steps).inbox, Exec(Exec(INIT, steps), more).inbox;
            && UniqueKeys(after) && UniqueIds(after)
            && before <= after
            && (HasKey(before, key) ==> key in AsMap(before) && key in AsMap(after) && AsMap(after)[key] == AsMap(before)[key])
  {
    var s := Exec(INIT, steps);
    InvRun(INIT, steps);
    InvRun(s, more);
    var before, after := s.inbox, Exec(s, more).inbox;
    AsMapHoldsEveryDocument(before);
    AsMapHoldsEveryDocument(after);
    if HasKey(before, key) {
      var j :| 0 <= j < |before| && before[j].dedupKey == key;
      assert after[j] == before[j];
    }
  }

  /** One completed upsert: the record offered and, if the caller got an answer, whether it was inserted. */
  datatype Call = Call(record: InboxRecord, answer: Option<bool>)

  /** The upsert calls a step completes, read off the phase it leaves the handler in. */
  function Completed(s: State, step: Step): seq<Call>
    requires Enabled(s, step)
  {
    match step
    case Match(t) => CompletedBy(s, Apply(s, step), t, false)
    case Insert(t, _) => CompletedBy(s, Apply(s, step), t, true)
    case Fault(t, applied) => CompletedBy(s, Apply(s, step), t, applied)
    case _ => []
  }

  function CompletedBy(s: State, s': State, t: nat, reachedIndex: bool): seq<Call>
    requires At(s, t) && At(s', t) && Pending(s.handlers[t].phase)
  {
    var r, after := s.handlers[t].phase.record, s'.handlers[t].phase;
    if after.Acking? then [Call(r, Some(after.inserted))]
    else if reachedIndex then [Call(r, None)]
    else []
  }

  function Calls(s: State, steps: seq<Step>): seq<Call>
    requires Admissible(s, steps)
    decreases |steps|
  {
    if steps == [] then [] else Completed(s, steps[0]) + Calls(Apply(s, steps[0]), steps[1..])
  }

  /** The same calls made one after another on the atomic map. */
  function Replay(store: map<string, InboxRecord>, calls: seq<Call>): map<string, InboxRecord>
    decreases |calls|
  {
    if calls == [] then store else Replay(AtomicUpsert(store, calls[0].record).0, calls[1..])
  }

  predicate AnswersAgree(store: map<string, InboxRecord>, calls: seq<Call>)
    decreases |calls|
  {
    calls != [] ==>
      && (calls[0].answer.Some? ==> calls[0].answer.value == AtomicUpsert(store, calls[0].record).1)
      && AnswersAgree(AtomicUpsert(store, calls[0].record).0, calls[1..])
  }

  lemma ReplayOne(store: map<string, InboxRecord>, call: Call)
    ensures Replay(store, [call]) == AtomicUpsert(store, call.record).0
    ensures AnswersAgree(store, [call]) <==> call.answer.Some? ==> call.answer.value == AtomicUpsert(store, call.record).1
  {
    assert [call][1..] == [];
  }

  /** At the indexes a fresh record is refused exactly when its key is in the map. */
  lemma ConflictIsPresence(s: State, t: nat)
    requires IdsFresh(s) && At(s, t) && Pending(s.handlers[t].phase)
    ensures Conflict(s.inbox, s.handlers[t].phase.record) <==> s.handlers[t].phase.record.dedupKey in AsMap(s.inbox)
  {
    AsMapKeys(s.inbox);
  }

  lemma InsertRefines(s: State, step: Step)
    requires IdsFresh(s) && Enabled(s, step) && (step.Insert? || (step.Fault? && step.applied))
    ensures var r := s.handlers[step.tag].phase.record;
            && Completed(s, step) != [] && Completed(s, step) == [Completed(s, step)[0]]
            && Completed(s, step)[0].record == r
            && (Completed(s, step)[0].answer == Some(true) ==> r.dedupKey !in AsMap(s.inbox))
            && (Completed(s, step)[0].answer == Some(false) ==> r.dedupKey in AsMap(s.inbox))
            && AsMap(Apply(s, step).inbox) == AtomicUpsert(AsMap(s.inbox), r).0
  {
    ConflictIsPresence(s, step.tag);
    AsMapAppend(s.inbox, s.handlers[step.tag].phase.record);
  }

  lemma StepRefines(s: State, step: Step)
    requires IdsFresh(s) && Enabled(s, step)
    ensures AsMap(Apply(s, step).inbox) == Replay(AsMap(s.inbox), Completed(s, step))
    ensures AnswersAgree(AsMap(s.inbox), Completed(s, step))
  {
    if step.Insert? || (step.Fault? && step.applied) {
      InsertRefines(s, step);
      ReplayOne(AsMap(s.inbox), Completed(s, step)[0]);
    } else if step.Match? && Completed(s, step) != [] {
      AsMapKeys(s.inbox);
      ReplayOne(AsMap(s.inbox), Completed(s, step)[0]);
    } else {
      assert Apply(s, step).inbox == s.inbox;
    }
  }

  lemma {:induction false} ReplaySplits(store: map<string, InboxRecord>, first: seq<Call>, rest: seq<Call>)
    ensures Replay(store, first + rest) == Replay(Replay(store, first), rest)
    ensures AnswersAgree(store, first) && AnswersAgree(Replay(store, first), rest) ==> AnswersAgree(store, first + rest)
    decreases |first|
  {
    if first == [] {
      assert first + rest == rest;
    } else {
      assert (first + rest)[1..] == first[1..] + rest;
      ReplaySplits(AtomicUpsert(store, first[0].record).0, first[1..], rest);
    }
  }

  /** The two-step indexed upsert, under any interleaving, refines the atomic map insert. */
  lemma {:induction false} UpsertRefinesAtomicInsert(s: State, steps: seq<Step>)
    requires Inv(s) && Admissible(s, steps)
    ensures AsMap(Exec(s, steps).inbox) == Replay(AsMap(s.inbox), Calls(s, steps))
    ensures AnswersAgree(AsMap(s.inbox), Calls(s, steps))
    decreases |steps|
  {
    if steps != [] {
      var s' := Apply(s, steps[0]);
      InvStep(s, steps[0]);
      StepRefines(s, steps[0]);
      UpsertRefinesAtomicInsert(s', steps[1..]);
      ReplaySplits(AsMap(s.inbox), Completed(s, steps[0]), Calls(s', steps[1..]));
    }
  }

  function InsertedReports(calls: seq<Call>, key: string): nat {
    if calls == [] then 0
    else (if calls[0].answer == Some(true) && calls[0].record.dedupKey == key then 1 else 0)
         + InsertedReports(calls[1..], key)
  }

  /** The first record offered for a key. */
  function FirstOffered(calls: seq<Call>, key: string): Option<InboxRecord> {
    if calls == [] then None
    else if calls[0].record.dedupKey == key then Some(calls[0].record)
    else FirstOffered(calls[1..], key)
  }

  lemma {:induction false} AtMostOneReport(store: map<string, InboxRecord>, calls: seq<Call>, key: string)
    requires AnswersAgree(store, calls)
    ensures InsertedReports(calls, key) <= if key in store then 0 else 1
    ensures (forall c | c in calls :: c.answer.Some?) ==>
              (InsertedReports(calls, key) == 1 <==> key !in store && key in Replay(store, calls))
    ensures key in Replay(store, calls) <==> key in store || FirstOffered(calls, key).Some?
    ensures key in store ==> Replay(store, calls)[key] == store[key]
    ensures key !in store && FirstOffered(calls, key).Some? ==> Replay(store, calls)[key] == FirstOffered(calls, key).value
    decreases |calls|
  {
    if calls != [] {
      AtMostOneReport(AtomicUpsert(store, calls[0].record).0, calls[1..], key);
    }
  }

  /** Over a whole run at most one upsert per key reports "inserted", the record kept is the first one
      offered, and without repository errors exactly the stored keys were reported, once each. */
  lemma {:induction false} ExactlyOneAndTheFirst(steps: seq<Step>, key: string)
    requires Admissible(INIT, steps)
    ensures var calls, inbox := Calls(INIT, steps), Exec(INIT, steps).inbox;
            && InsertedReports(calls, key) <= 1
            && (HasKey(inbox, key) <==> FirstOffered(calls, key).Some?)
            && (HasKey(inbox, key) ==> key in AsMap(inbox) && AsMap(inbox)[key] == FirstOffered(calls, key).value)
            && ((forall c | c in calls :: c.answer.Some?) ==> (InsertedReports(calls, key) == 1 <==> HasKey(inbox, key)))
  {
    UpsertRefinesAtomicInsert(INIT, steps);
    AtMostOneReport(AsMap(INIT.inbox), Calls(INIT, steps), key);
    AsMapKeys(Exec(INIT, steps).inbox);
  }

  // ---------------------------------------------------------------- schedule independence

  /** The keys of the valid messages: of each its event id, or else the broker's id. */
  function ResolvedKeys(published: seq<Message>): set<string> {
    set i | 0 <= i < |published| && ValidMessage(published[i]) :: KeyText(published[i])
  }

  predicate FaultFree(steps: seq<Step>) {
    forall st | st in steps :: !st.Fault?
  }

  predicate NoFaultSeen(s: State) {
    && (forall i | i in s.dead :: !s.dead[i].RepositoryFault?)
    && (forall t | 0 <= t < |s.handlers| :: s.handlers[t].phase != Nacking(RepositoryFault))
  }

  lemma NoFaultSeenStep(s: State, step: Step)
    requires NoFaultSeen(s) && Enabled(s, step) && !step.Fault?
    ensures NoFaultSeen(Apply(s, step))
  {
    var s' := Apply(s, step);
    forall t | 0 <= t < |s'.handlers| ensures s'.handlers[t].phase != Nacking(RepositoryFault) {
      if t < |s.handlers| {
        assert s.handlers[t].phase != Nacking(RepositoryFault);
      }
    }
    if step.Nack? {
      assert s.handlers[step.tag].phase != Nacking(RepositoryFault);
    }
  }

  lemma {:induction false} NoFaultSeenRun(s: State, steps: seq<Step>)
    requires NoFaultSeen(s) && Admissible(s, steps) && FaultFree(steps)
    ensures NoFaultSeen(Exec(s, steps))
    decreases |steps|
  {
    if steps != [] {
      NoFaultSeenStep(s, steps[0]);
      NoFaultSeenRun(Apply(s, steps[0]), steps[1..]);
    }
  }

  /** Once everything is settled, a valid message is missing from the inbox only if the broker
      dead-lettered it for a repository fault. */
  lemma {:induction false} OnlyFaultsLose(steps: seq<Step>, i: nat)
    requires Admissible(INIT, steps) && Settled(Exec(INIT, steps))
    requires i < |Exec(INIT, steps).published| && KeyOf(Exec(INIT, steps).published[i]).Some?
    ensures var s := Exec(INIT, steps);
            Persisted(s.inbox, s.published[i]) || (i in s.dead && s.dead[i].RepositoryFault?)
  {
    InvRun(INIT, steps);
    HeldIsUnacked(Exec(INIT, steps));
  }

  /** Once everything is settled, a valid message's key is missing exactly when no upsert for that key, by
      this or another message, ever reached the index or a match; and then it was dead-lettered for a fault. */
  lemma {:induction false} LostIff(steps: seq<Step>, i: nat)
    requires Admissible(INIT, steps) && Settled(Exec(INIT, steps))
    requires i < |Exec(INIT, steps).published| && KeyOf(Exec(INIT, steps).published[i]).Some?
    ensures var s := Exec(INIT, steps);
            var lost := !Persisted(s.inbox, s.published[i]);
            && (lost <==> FirstOffered(Calls(INIT, steps), KeyOf(s.published[i]).value).None?)
            && (lost ==> i in s.dead && s.dead[i].RepositoryFault?)
  {
    OnlyFaultsLose(steps, i);
    ExactlyOneAndTheFirst(steps, KeyOf(Exec(INIT, steps).published[i]).value);
  }

  lemma StoredKeysResolve(s: State)
    requires InboxOk(s)
    ensures KeySet(s.inbox) <= ResolvedKeys(s.published)
  {
    forall k | k in KeySet(s.inbox) ensures k in ResolvedKeys(s.published) {
      var j :| 0 <= j < |s.inbox| && s.inbox[j].dedupKey == k;
      assert FromSome(s.published, s.inbox[j]);
      var i :| 0 <= i < |s.published| && BuiltFrom(s.inbox[j], s.published[i]);
      assert KeyOf(s.published[i]) == Some(k);
    }
  }

  /** Without repository faults the settled inbox has exactly the keys of the valid messages. */
  lemma {:induction false} SettledKeys(steps: seq<Step>)
    requires Admissible(INIT, steps) && Settled(Exec(INIT, steps)) && FaultFree(steps)
    ensures KeySet(Exec(INIT, steps).inbox) == ResolvedKeys(Exec(INIT, steps).published)
  {
    var s := Exec(INIT, steps);
    NoFaultSeenRun(INIT, steps);
    assert InboxOk(s) by { InvRun(INIT, steps); }
    StoredKeysResolve(s);
    forall k | k in ResolvedKeys(s.published) ensures k in KeySet(s.inbox) {
      var i :| 0 <= i < |s.published| && KeyOf(s.published[i]) == Some(k);
      OnlyFaultsLose(steps, i);
    }
  }

  /** Whoever loses an insert race is answered with the winner's record. */
  predicate WinnersSeen(steps: seq<Step>) {
    forall st | st in steps && st.Insert? :: st.seesWinner
  }

  predicate NothingDropped(s: State) {
    && (forall i | i in s.dead :: s.dead[i].Rejected?)
    && (forall t | 0 <= t < |s.handlers| && s.handlers[t].phase.Nacking? :: s.handlers[t].phase.reason.Rejected?)
  }

  lemma NothingDroppedStep(s: State, step: Step)
    requires NothingDropped(s) && IdsFresh(s) && Enabled(s, step) && !step.Fault? && (step.Insert? ==> step.seesWinner)
    ensures NothingDropped(Apply(s, step))
  {
    var s' := Apply(s, step);
    forall t | 0 <= t < |s'.handlers| && s'.handlers[t].phase.Nacking? ensures s'.handlers[t].phase.reason.Rejected? {
      if t < |s.handlers| && s'.handlers[t].phase != s.handlers[t].phase {
        assert step.Prepare? || step.Insert?;
      }
    }
  }

  lemma {:induction false} NothingDroppedRun(s: State, steps: seq<Step>)
    requires Inv(s) && NothingDropped(s) && Admissible(s, steps) && FaultFree(steps) && WinnersSeen(steps)
    ensures NothingDropped(Exec(s, steps))
    decreases |steps|
  {
    if steps != [] {
      InvStep(s, steps[0]);
      NothingDroppedStep(s, steps[0]);
      NothingDroppedRun(Apply(s, steps[0]), steps[1..]);
    }
  }

  /** With no repository fault and every race answered, a settled run has acked exactly the valid messages and
      dead-lettered exactly the others, each for the first thing wrong with it. */
  lemma {:induction false} SettledExactly(steps: seq<Step>, i: nat)
    requires Admissible(INIT, steps) && Settled(Exec(INIT, steps)) && FaultFree(steps) && WinnersSeen(steps)
    requires i < |Exec(INIT, steps).published|
    ensures var s := Exec(INIT, steps);
            && (i in s.acked <==> ValidMessage(s.published[i]))
            && (i in s.dead <==> !ValidMessage(s.published[i]))
            && (i in s.dead ==> s.dead[i] == Rejected(Rejection(s.published[i])))
  {
    NothingDroppedRun(INIT, steps);
    AckAfterPersist(steps);
    Conservation(steps);
  }

  /** Two settled fault-free runs over the same messages, in any order, by any workers, through any
      crashes and redeliveries, end with the same keys. */
  lemma {:induction false} ScheduleIndependence(steps1: seq<Step>, steps2: seq<Step>)
    requires Admissible(INIT, steps1) && Settled(Exec(INIT, steps1)) && FaultFree(steps1)
    requires Admissible(INIT, steps2) && Settled(Exec(INIT, steps2)) && FaultFree(steps2)
    requires multiset(Exec(INIT, steps1).published) == multiset(Exec(INIT, steps2).published)
    ensures KeySet(Exec(INIT, steps1).inbox) == KeySet(Exec(INIT, steps2).inbox)
  {
    SettledKeys(steps1);
    SettledKeys(steps2);
    ResolvedKeysOfMultiset(Exec(INIT, steps1).published, Exec(INIT, steps2).published);
    ResolvedKeysOfMultiset(Exec(INIT, steps2).published, Exec(INIT, steps1).published);
  }

  lemma ResolvedKeysOfMultiset(a: seq<Message>, b: seq<Message>)
    requires multiset(a) == multiset(b)
    ensures ResolvedKeys(a) <= ResolvedKeys(b)
  {
    forall k | k in ResolvedKeys(a) ensures k in ResolvedKeys(b) {
      var i :| 0 <= i < |a| && ValidMessage(a[i]) && KeyText(a[i]) == k;
      assert a[i] in multiset(b);
      var j :| 0 <= j < |b| && b[j] == a[i];
      assert ValidMessage(b[j]) && KeyText(b[j]) == k;
    }
  }
}

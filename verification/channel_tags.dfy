/**
 * Delivery tags as the broker numbers them: per channel, from one. The adapter acknowledges through a wrapper
 * that outlives its channel, so a handler left over from a lost channel can name another delivery.
 */
module ChannelTags {
  import opened Results
  import opened Envelope
  import opened Ingestion
  import opened IngestionTheorems

  /** tags[t] is handler t's tag on the channel it was delivered on; sent[w] counts w's present channel. */
  datatype Tagged = Tagged(s: State, tags: seq<nat>, sent: map<nat, nat>)

  const TAGGED_INIT := Tagged(INIT, [], map[])

  function SentOn(ts: Tagged, w: nat): nat {
    if w in ts.sent then ts.sent[w] else 0
  }

  predicate Wellformed(ts: Tagged) {
    |ts.tags| == |ts.s.handlers|
  }

  /** On the worker's present channel, t's tag stands for delivery u. */
  predicate Names(ts: Tagged, t: nat, u: nat)
    requires Wellformed(ts) && At(ts.s, t) && At(ts.s, u)
  {
    && ts.s.handlers[u].held && ts.s.handlers[u].worker == ts.s.handlers[t].worker
    && ts.tags[u] == ts.tags[t]
  }

  /** t's tag stands for somebody else's delivery. */
  predicate Stray(ts: Tagged, t: nat)
    requires Wellformed(ts) && At(ts.s, t)
  {
    exists u | 0 <= u < |ts.s.handlers| :: u != t && Names(ts, t, u)
  }

  ghost function NamedBy(ts: Tagged, t: nat): (u: nat)
    requires Wellformed(ts) && At(ts.s, t) && Stray(ts, t)
    ensures At(ts.s, u) && u != t && Names(ts, t, u)
  {
    var u :| 0 <= u < |ts.s.handlers| && u != t && Names(ts, t, u);
    u
  }

  /** Handler t is done, and the broker settles u's delivery. */
  function Misdirect(s: State, step: Step, u: nat): State
    requires (step.Ack? || step.Nack?) && Enabled(s, step) && At(s, u) && u != step.tag
  {
    var t := step.tag;
    var i := s.handlers[u].message;
    var s' := s.(handlers := s.handlers[t := s.handlers[t].(held := false, phase := Ended)]
                                       [u := s.handlers[u].(held := false)]);
    if step.Ack? then s'.(acked := s.acked + {i}) else s'.(dead := s.dead[i := s.handlers[t].phase.reason])
  }

  ghost function TaggedApply(ts: Tagged, step: Step): (after: Tagged)
    requires Wellformed(ts) && Enabled(ts.s, step)
    ensures Wellformed(after)
  {
    match step
    case Deliver(w, _) => Tagged(Apply(ts.s, step), ts.tags + [SentOn(ts, w) + 1], ts.sent[w := SentOn(ts, w) + 1])
    case Disconnect(w) => Tagged(Apply(ts.s, step), ts.tags, ts.sent[w := 0])
    case Stop(w) => Tagged(Apply(ts.s, step), ts.tags, ts.sent[w := 0])
    case Crash(w) => Tagged(Apply(ts.s, step), ts.tags, ts.sent[w := 0])
    case Ack(t) => ts.(s := if Stray(ts, t) then Misdirect(ts.s, step, NamedBy(ts, t)) else Apply(ts.s, step))
    case Nack(t) => ts.(s := if Stray(ts, t) then Misdirect(ts.s, step, NamedBy(ts, t)) else Apply(ts.s, step))
    case _ => ts.(s := Apply(ts.s, step))
  }

  ghost predicate TaggedAdmissible(ts: Tagged, steps: seq<Step>)
    requires Wellformed(ts)
    decreases |steps|
  {
    steps == [] || (Enabled(ts.s, steps[0]) && TaggedAdmissible(TaggedApply(ts, steps[0]), steps[1..]))
  }

  ghost function TaggedExec(ts: Tagged, steps: seq<Step>): (after: Tagged)
    requires Wellformed(ts) && TaggedAdmissible(ts, steps)
    ensures Wellformed(after)
    decreases |steps|
  {
    if steps == [] then ts else TaggedExec(TaggedApply(ts, steps[0]), steps[1..])
  }

  /** How many deliveries w's channel has seen after these steps, if it had seen n before them: a channel that is
      closed or lost is followed by a new one. */
  function SeenBy(w: nat, n: nat, steps: seq<Step>): nat
    decreases |steps|
  {
    if steps == [] then n
    else
      SeenBy(w, if steps[0].Deliver? && steps[0].worker == w then n + 1
                else if (steps[0].Disconnect? || steps[0].Stop? || steps[0].Crash?) && steps[0].worker == w then 0
                else n, steps[1..])
  }

  lemma {:induction false} SentIsSeen(ts: Tagged, steps: seq<Step>, w: nat)
    requires Wellformed(ts) && TaggedAdmissible(ts, steps)
    ensures SentOn(TaggedExec(ts, steps), w) == SeenBy(w, SentOn(ts, w), steps)
    decreases |steps|
  {
    if steps != [] {
      SentIsSeen(TaggedApply(ts, steps[0]), steps[1..], w);
    }
  }

  /** In every run, the next delivery to a worker is tagged with its place, from one, among those on that worker's
      present channel. */
  lemma {:induction false} TagsCountFromOne(steps: seq<Step>, w: nat, i: nat)
    requires TaggedAdmissible(TAGGED_INIT, steps) && Enabled(TaggedExec(TAGGED_INIT, steps).s, Deliver(w, i))
    ensures var ts := TaggedExec(TAGGED_INIT, steps);
            TaggedApply(ts, Deliver(w, i)).tags == ts.tags + [SeenBy(w, 0, steps) + 1]
  {
    SentIsSeen(TAGGED_INIT, steps, w);
  }

  // ---------------------------------------------------------------- tags of deliveries still held

  /** On one channel no two deliveries share a tag. */
  predicate TagsOk(ts: Tagged) {
    && Wellformed(ts)
    && (forall u | 0 <= u < |ts.tags| && ts.s.handlers[u].held :: 1 <= ts.tags[u] <= SentOn(ts, ts.s.handlers[u].worker))
    && (forall t, u | 0 <= t < u < |ts.tags| && ts.s.handlers[t].held && ts.s.handlers[u].held
                      && ts.s.handlers[t].worker == ts.s.handlers[u].worker :: ts.tags[t] != ts.tags[u])
  }

  /** A handler that still holds its delivery is heard as itself. */
  lemma HoldersAreHeard(ts: Tagged, t: nat)
    requires TagsOk(ts) && At(ts.s, t) && ts.s.handlers[t].held
    ensures !Stray(ts, t)
  {
  }

  lemma TagsOkFewer(ts: Tagged, after: Tagged)
    requires TagsOk(ts) && after.tags == ts.tags && |after.s.handlers| == |ts.s.handlers|
    requires forall t | 0 <= t < |ts.tags| :: after.s.handlers[t].worker == ts.s.handlers[t].worker
    requires forall t | 0 <= t < |ts.tags| && after.s.handlers[t].held ::
               ts.s.handlers[t].held && SentOn(after, ts.s.handlers[t].worker) == SentOn(ts, ts.s.handlers[t].worker)
    ensures TagsOk(after)
  {
  }

  lemma TagsOkDeliver(ts: Tagged, w: nat, i: nat)
    requires TagsOk(ts) && Enabled(ts.s, Deliver(w, i))
    ensures TagsOk(TaggedApply(ts, Deliver(w, i)))
  {
    var after := TaggedApply(ts, Deliver(w, i));
    assert forall t | 0 <= t < |ts.tags| :: after.tags[t] == ts.tags[t] && after.s.handlers[t] == ts.s.handlers[t];
  }

  /** Closing a channel takes the worker's deliveries back before the count starts again. */
  lemma TagsOkClose(ts: Tagged, step: Step)
    requires TagsOk(ts) && Enabled(ts.s, step) && (step.Disconnect? || step.Stop? || step.Crash?)
    ensures TagsOk(TaggedApply(ts, step))
  {
    RequeueHandlers(ts.s, step.worker, step.Crash?);
    TagsOkFewer(ts, TaggedApply(ts, step));
  }

  lemma TagsOkSettle(ts: Tagged, step: Step)
    requires TagsOk(ts) && Enabled(ts.s, step) && (step.Ack? || step.Nack?)
    ensures TagsOk(TaggedApply(ts, step))
  {
    TagsOkFewer(ts, TaggedApply(ts, step));
  }

  lemma QuietDeliveries(s: State, step: Step)
    requires Enabled(s, step)
    requires step.Publish? || step.Start? || step.Prepare? || step.Match? || step.Insert? || step.Fault?
    ensures |Apply(s, step).handlers| == |s.handlers|
    ensures forall t | 0 <= t < |s.handlers| ::
              && Apply(s, step).handlers[t].worker == s.handlers[t].worker
              && Apply(s, step).handlers[t].held == s.handlers[t].held
  {
  }

  lemma {:induction false} TagsOkQuiet(ts: Tagged, step: Step)
    requires TagsOk(ts) && Enabled(ts.s, step)
    requires step.Publish? || step.Start? || step.Prepare? || step.Match? || step.Insert? || step.Fault?
    ensures TagsOk(TaggedApply(ts, step))
  {
    QuietDeliveries(ts.s, step);
    assert TaggedApply(ts, step) == ts.(s := Apply(ts.s, step));
    TagsOkFewer(ts, TaggedApply(ts, step));
  }

  lemma TagsOkStep(ts: Tagged, step: Step)
    requires TagsOk(ts) && Enabled(ts.s, step)
    ensures TagsOk(TaggedApply(ts, step))
  {
    match step {
      case Deliver(w, i) => TagsOkDeliver(ts, w, i);
      case Disconnect(_) => TagsOkClose(ts, step);
      case Stop(_) => TagsOkClose(ts, step);
      case Crash(_) => TagsOkClose(ts, step);
      case Ack(_) => TagsOkSettle(ts, step);
      case Nack(_) => TagsOkSettle(ts, step);
      case _ => TagsOkQuiet(ts, step);
    }
  }

  // ---------------------------------------------------------------- what every run keeps

  /** A stray ack or nack takes one delivery from its holder, and settles that delivery's message. */
  lemma MisdirectHolds(s: State, step: Step, u: nat, i: nat)
    requires Placed(s) && (step.Ack? || step.Nack?) && Enabled(s, step) && !s.handlers[step.tag].held
    requires At(s, u) && u != step.tag && s.handlers[u].held
    ensures IsHeld(Misdirect(s, step, u), i) <==> IsHeld(s, i) && s.handlers[u].message != i
  {
    var s' := Misdirect(s, step, u);
    if IsHeld(s, i) && s.handlers[u].message != i {
      var v :| 0 <= v < |s.handlers| && s.handlers[v].held && s.handlers[v].message == i;
      assert s'.handlers[v] == s.handlers[v];
    }
  }

  lemma MisdirectPlaced(s: State, step: Step, u: nat)
    requires Placed(s) && (step.Ack? || step.Nack?) && Enabled(s, step) && !s.handlers[step.tag].held
    requires At(s, u) && u != step.tag && s.handlers[u].held
    ensures Placed(Misdirect(s, step, u))
  {
    forall i: nat ensures IsHeld(Misdirect(s, step, u), i) <==> IsHeld(s, i) && s.handlers[u].message != i {
      MisdirectHolds(s, step, u, i);
    }
  }

  /** Handlers that keep their message, and their phase unless they end, stay right for their message. */
  lemma HandlersOkQuiet(s: State, s': State)
    requires HandlersOk(s) && s'.inbox == s.inbox && s'.published == s.published && |s'.handlers| == |s.handlers|
    requires forall v | 0 <= v < |s.handlers| ::
               s'.handlers[v].message == s.handlers[v].message && s'.handlers[v].phase in {s.handlers[v].phase, Ended}
    ensures HandlersOk(s')
  {
    forall v | 0 <= v < |s.handlers|
      ensures s'.handlers[v].message < |s.published|
              && PhaseOk(s.inbox, s.published[s'.handlers[v].message], s'.handlers[v].phase)
    {
      assert PhaseOk(s.inbox, s.published[s.handlers[v].message], s.handlers[v].phase);
    }
  }

  lemma {:induction false} InboxOkQuiet(s: State, s': State)
    requires InboxOk(s) && s'.inbox == s.inbox && s'.published == s.published
    ensures InboxOk(s')
  {
  }

  /** s' differs from s at most in what the broker counts, and in handlers that have ended. */
  predicate OnlyEnds(s: State, s': State) {
    && s'.inbox == s.inbox && s'.published == s.published && s'.minted == s.minted && |s'.handlers| == |s.handlers|
    && forall v | 0 <= v < |s.handlers| ::
         s'.handlers[v].message == s.handlers[v].message && s'.handlers[v].phase in {s.handlers[v].phase, Ended}
  }

  lemma MisdirectOnlyEnds(s: State, step: Step, u: nat)
    requires (step.Ack? || step.Nack?) && Enabled(s, step) && At(s, u) && u != step.tag
    ensures OnlyEnds(s, Misdirect(s, step, u))
  {
  }

  lemma {:induction false} MisdirectKeeps(s: State, step: Step, u: nat)
    requires HandlersOk(s) && IdsFresh(s) && InboxOk(s)
    requires (step.Ack? || step.Nack?) && Enabled(s, step) && At(s, u) && u != step.tag
    ensures var s' := Misdirect(s, step, u); HandlersOk(s') && IdsFresh(s') && InboxOk(s')
  {
    MisdirectOnlyEnds(s, step, u);
    OnlyEndsKeeps(s, Misdirect(s, step, u));
  }

  lemma {:induction false} OnlyEndsKeeps(s: State, s': State)
    requires HandlersOk(s) && IdsFresh(s) && InboxOk(s) && OnlyEnds(s, s')
    ensures HandlersOk(s') && IdsFresh(s') && InboxOk(s')
  {
    forall v | 0 <= v < |s.handlers| ensures KeepsRecord(s.handlers[v], s'.handlers[v]) {
    }
    IdsFreshQuiet(s, s');
    HandlersOkQuiet(s, s');
    InboxOkQuiet(s, s');
  }

  /** All of the protocol's invariant but what is said of settled messages. */
  predicate TaggedInv(ts: Tagged) {
    TagsOk(ts) && Placed(ts.s) && HandlersOk(ts.s) && IdsFresh(ts.s) && InboxOk(ts.s)
  }

  predicate GoesAstray(ts: Tagged, step: Step)
    requires Wellformed(ts) && Enabled(ts.s, step)
  {
    (step.Ack? || step.Nack?) && Stray(ts, step.tag)
  }

  lemma StrayState(ts: Tagged, step: Step)
    requires Wellformed(ts) && Enabled(ts.s, step)
    ensures TaggedApply(ts, step).s == if GoesAstray(ts, step) then Misdirect(ts.s, step, NamedBy(ts, step.tag))
                                       else Apply(ts.s, step)
  {
  }

  lemma TaggedInvStep(ts: Tagged, step: Step)
    requires TaggedInv(ts) && Enabled(ts.s, step)
    ensures TaggedInv(TaggedApply(ts, step))
  {
    TagsOkStep(ts, step);
    StrayState(ts, step);
    if GoesAstray(ts, step) {
      if ts.s.handlers[step.tag].held {
        HoldersAreHeard(ts, step.tag);
      }
      MisdirectPlaced(ts.s, step, NamedBy(ts, step.tag));
      MisdirectKeeps(ts.s, step, NamedBy(ts, step.tag));
    } else {
      PlacedStep(ts.s, step);
      HandlersOkStep(ts.s, step);
      InboxOkStep(ts.s, step);
      IdsFreshStep(ts.s, step);
    }
  }

  lemma {:induction false} TaggedInvRun(ts: Tagged, steps: seq<Step>)
    requires TaggedInv(ts) && TaggedAdmissible(ts, steps)
    ensures TaggedInv(TaggedExec(ts, steps))
    decreases |steps|
  {
    if steps != [] {
      TaggedInvStep(ts, steps[0]);
      TaggedInvRun(TaggedApply(ts, steps[0]), steps[1..]);
    }
  }

  /** Whatever goes astray, every published message stays in exactly one place, and the inbox keeps one record per
      key, built from some published message. */
  lemma {:induction false} ConservationPerChannel(steps: seq<Step>)
    requires TaggedAdmissible(TAGGED_INIT, steps)
    ensures var s := TaggedExec(TAGGED_INIT, steps).s;
            && (forall i: nat ::
                  i < |s.published| <==> i in s.ready || i in Unacked(s) || i in s.acked || i in s.dead.Keys)
            && s.ready !! Unacked(s) !! s.acked !! s.dead.Keys
            && InboxOk(s)
  {
    TaggedInvRun(TAGGED_INIT, steps);
    PlacedAsSets(TaggedExec(TAGGED_INIT, steps).s);
  }

  // ---------------------------------------------------------------- when settled messages are settled rightly

  /** The message whose delivery a stray ack or nack names. */
  ghost function Victim(ts: Tagged, t: nat): (i: nat)
    requires Wellformed(ts) && At(ts.s, t) && Stray(ts, t)
  {
    ts.s.handlers[NamedBy(ts, t)].message
  }

  /** The step is no stray ack, or names a delivery whose key is stored at that moment. */
  ghost predicate AckFits(ts: Tagged, step: Step)
    requires Wellformed(ts) && Enabled(ts.s, step)
  {
    step.Ack? && Stray(ts, step.tag) ==>
      Victim(ts, step.tag) < |ts.s.published| && Persisted(ts.s.inbox, ts.s.published[Victim(ts, step.tag)])
  }

  ghost predicate NackFits(ts: Tagged, step: Step)
    requires Wellformed(ts) && Enabled(ts.s, step)
  {
    step.Nack? && Stray(ts, step.tag) ==>
      && Victim(ts, step.tag) < |ts.s.published|
      && Justified(ts.s.inbox, ts.s.published[Victim(ts, step.tag)], ts.s.handlers[step.tag].phase.reason)
  }

  /** A stray ack adds its victim to the acknowledged messages, and nothing else. */
  lemma MisdirectAcked(s: State, step: Step, u: nat)
    requires (step.Ack? || step.Nack?) && Enabled(s, step) && At(s, u) && u != step.tag && AckedStored(s)
    ensures AckedStored(Misdirect(s, step, u)) <==>
            (step.Ack? ==> s.handlers[u].message < |s.published| && Persisted(s.inbox, s.published[s.handlers[u].message]))
  {
    var s', i := Misdirect(s, step, u), s.handlers[u].message;
    assert s'.inbox == s.inbox && s'.published == s.published;
    if step.Ack? {
      assert i in s'.acked;
    }
  }

  lemma MisdirectDead(s: State, step: Step, u: nat)
    requires (step.Ack? || step.Nack?) && Enabled(s, step) && At(s, u) && u != step.tag && DeadJustified(s)
    ensures DeadJustified(Misdirect(s, step, u)) <==>
            (step.Nack? ==> && s.handlers[u].message < |s.published|
                            && Justified(s.inbox, s.published[s.handlers[u].message], s.handlers[step.tag].phase.reason))
  {
    var s', i := Misdirect(s, step, u), s.handlers[u].message;
    assert s'.inbox == s.inbox && s'.published == s.published;
    if step.Nack? {
      assert i in s'.dead && s'.dead[i] == s.handlers[step.tag].phase.reason;
    }
  }

  /** One step keeps "acked is stored" exactly when it is no stray ack of an unstored message. */
  lemma StrayAckIff(ts: Tagged, step: Step)
    requires TaggedInv(ts) && Enabled(ts.s, step) && AckedStored(ts.s)
    ensures AckedStored(TaggedApply(ts, step).s) <==> AckFits(ts, step)
  {
    StrayState(ts, step);
    if GoesAstray(ts, step) {
      MisdirectAcked(ts.s, step, NamedBy(ts, step.tag));
    } else {
      AckedStoredStep(ts.s, step);
    }
  }

  /** And "dead-lettered is justified" exactly when it is no stray nack with a reason that is not the victim's. */
  lemma StrayNackIff(ts: Tagged, step: Step)
    requires TaggedInv(ts) && Enabled(ts.s, step) && DeadJustified(ts.s)
    ensures DeadJustified(TaggedApply(ts, step).s) <==> NackFits(ts, step)
  {
    StrayState(ts, step);
    if GoesAstray(ts, step) {
      MisdirectDead(ts.s, step, NamedBy(ts, step.tag));
    } else {
      DeadJustifiedStep(ts.s, step);
    }
  }

  ghost predicate AlwaysStored(ts: Tagged, steps: seq<Step>)
    requires Wellformed(ts) && TaggedAdmissible(ts, steps)
    decreases |steps|
  {
    AckedStored(ts.s) && (steps != [] ==> AlwaysStored(TaggedApply(ts, steps[0]), steps[1..]))
  }

  ghost predicate AlwaysJustified(ts: Tagged, steps: seq<Step>)
    requires Wellformed(ts) && TaggedAdmissible(ts, steps)
    decreases |steps|
  {
    DeadJustified(ts.s) && (steps != [] ==> AlwaysJustified(TaggedApply(ts, steps[0]), steps[1..]))
  }

  ghost predicate AllAcksFit(ts: Tagged, steps: seq<Step>)
    requires Wellformed(ts) && TaggedAdmissible(ts, steps)
    decreases |steps|
  {
    steps != [] ==> AckFits(ts, steps[0]) && AllAcksFit(TaggedApply(ts, steps[0]), steps[1..])
  }

  ghost predicate AllNacksFit(ts: Tagged, steps: seq<Step>)
    requires Wellformed(ts) && TaggedAdmissible(ts, steps)
    decreases |steps|
  {
    steps != [] ==> NackFits(ts, steps[0]) && AllNacksFit(TaggedApply(ts, steps[0]), steps[1..])
  }

  lemma {:induction false} AlwaysStoredIff(ts: Tagged, steps: seq<Step>)
    requires TaggedInv(ts) && AckedStored(ts.s) && TaggedAdmissible(ts, steps)
    ensures AlwaysStored(ts, steps) <==> AllAcksFit(ts, steps)
    decreases |steps|
  {
    if steps != [] {
      TaggedInvStep(ts, steps[0]);
      StrayAckIff(ts, steps[0]);
      if AckFits(ts, steps[0]) {
        AlwaysStoredIff(TaggedApply(ts, steps[0]), steps[1..]);
      } else {
        assert !AlwaysStored(TaggedApply(ts, steps[0]), steps[1..]);
      }
    }
  }

  lemma {:induction false} AlwaysJustifiedIff(ts: Tagged, steps: seq<Step>)
    requires TaggedInv(ts) && DeadJustified(ts.s) && TaggedAdmissible(ts, steps)
    ensures AlwaysJustified(ts, steps) <==> AllNacksFit(ts, steps)
    decreases |steps|
  {
    if steps != [] {
      TaggedInvStep(ts, steps[0]);
      StrayNackIff(ts, steps[0]);
      if NackFits(ts, steps[0]) {
        AlwaysJustifiedIff(TaggedApply(ts, steps[0]), steps[1..]);
      } else {
        assert !AlwaysJustified(TaggedApply(ts, steps[0]), steps[1..]);
      }
    }
  }

  /** With tags numbered per channel, in every run: all through it acked is stored exactly when no ack of it is stray
      and names a message not stored at that moment; and dead-lettered is justified exactly when no nack of it is
      stray and gives its victim a reason that is not true of it. */
  lemma SettledRightlyIff(steps: seq<Step>)
    requires TaggedAdmissible(TAGGED_INIT, steps)
    ensures AlwaysStored(TAGGED_INIT, steps) <==> AllAcksFit(TAGGED_INIT, steps)
    ensures AlwaysJustified(TAGGED_INIT, steps) <==> AllNacksFit(TAGGED_INIT, steps)
  {
    AlwaysStoredIff(TAGGED_INIT, steps);
    AlwaysJustifiedIff(TAGGED_INIT, steps);
  }

  // ---------------------------------------------------------------- when tags do not matter

  /** No ack or nack of the run goes astray. */
  ghost predicate NoneStray(ts: Tagged, steps: seq<Step>)
    requires Wellformed(ts) && TaggedAdmissible(ts, steps)
    decreases |steps|
  {
    steps != [] ==>
      && (steps[0].Ack? || steps[0].Nack? ==> !Stray(ts, steps[0].tag))
      && NoneStray(TaggedApply(ts, steps[0]), steps[1..])
  }

  /** Then the run is one of the protocol with tags that are never reused, and all its theorems hold. */
  lemma {:induction false} TagsAreTransparent(ts: Tagged, steps: seq<Step>)
    requires Wellformed(ts) && TaggedAdmissible(ts, steps) && NoneStray(ts, steps)
    ensures Admissible(ts.s, steps) && TaggedExec(ts, steps).s == Exec(ts.s, steps)
    decreases |steps|
  {
    if steps != [] {
      assert TaggedApply(ts, steps[0]).s == Apply(ts.s, steps[0]);
      TagsAreTransparent(TaggedApply(ts, steps[0]), steps[1..]);
    }
  }

  /** A channel is closed or lost only once its handlers are done, or together with them. */
  predicate Outlived(s: State, step: Step) {
    (step.Disconnect? || step.Stop?)
    && exists t | 0 <= t < |s.handlers| :: s.handlers[t].worker == step.worker && !s.handlers[t].phase.Ended?
  }

  ghost predicate NoneOutlives(ts: Tagged, steps: seq<Step>)
    requires Wellformed(ts) && TaggedAdmissible(ts, steps)
    decreases |steps|
  {
    steps != [] ==> !Outlived(ts.s, steps[0]) && NoneOutlives(TaggedApply(ts, steps[0]), steps[1..])
  }

  predicate LiveAreHeld(s: State) {
    forall t | 0 <= t < |s.handlers| && !s.handlers[t].phase.Ended? :: s.handlers[t].held
  }

  lemma LiveAreHeldStep(s: State, step: Step)
    requires LiveAreHeld(s) && Enabled(s, step) && !Outlived(s, step)
    ensures LiveAreHeld(Apply(s, step))
  {
    var s' := Apply(s, step);
    forall t | 0 <= t < |s'.handlers| && !s'.handlers[t].phase.Ended? ensures s'.handlers[t].held {
      if t < |s.handlers| {
        assert !s.handlers[t].phase.Ended?;
      }
    }
  }

  lemma {:induction false} NoneGoAstray(ts: Tagged, steps: seq<Step>)
    requires TagsOk(ts) && LiveAreHeld(ts.s) && TaggedAdmissible(ts, steps) && NoneOutlives(ts, steps)
    ensures NoneStray(ts, steps)
    decreases |steps|
  {
    if steps != [] {
      var step := steps[0];
      if step.Ack? || step.Nack? {
        HoldersAreHeard(ts, step.tag);
      }
      assert TaggedApply(ts, step).s == Apply(ts.s, step);
      TagsOkStep(ts, step);
      LiveAreHeldStep(ts.s, step);
      NoneGoAstray(TaggedApply(ts, step), steps[1..]);
    }
  }

  /** With tags numbered per channel, an ack still comes only after its key is stored, in every run in which no
      live handler outlives its channel. */
  lemma {:induction false} AckAfterPersistPerChannel(steps: seq<Step>)
    requires TaggedAdmissible(TAGGED_INIT, steps) && NoneOutlives(TAGGED_INIT, steps)
    ensures var s := TaggedExec(TAGGED_INIT, steps).s;
            && Inv(s)
            && (forall i | i in s.acked :: i < |s.published| && Persisted(s.inbox, s.published[i]))
            && (forall i: nat | i < |s.published| :: i in s.ready || i in Unacked(s) || i in s.acked || i in s.dead.Keys)
  {
    NoneGoAstray(TAGGED_INIT, steps);
    TagsAreTransparent(TAGGED_INIT, steps);
    AckAfterPersist(steps);
    Conservation(steps);
    InvRun(INIT, steps);
  }

  // ---------------------------------------------------------------- the runs that break it

  lemma {:induction false} TaggedThen(ts: Tagged, step: Step, rest: seq<Step>, steps: seq<Step>)
    requires Wellformed(ts) && Enabled(ts.s, step) && steps == [step] + rest
    requires TaggedAdmissible(TaggedApply(ts, step), rest)
    ensures TaggedAdmissible(ts, steps) && TaggedExec(ts, steps) == TaggedExec(TaggedApply(ts, step), rest)
  {
    assert steps[1..] == rest;
  }

  /** The channel is lost and reopened; the old handler acks; the worker dies. */
  const LOSS := [Disconnect(0), Deliver(0, 1), Ack(0), Crash(0)]

  /** Handler 0 has stored its message; message 1 still waits. */
  function Stored(m: Message, other: Message, r: InboxRecord): Tagged {
    Tagged(State([m, other], {1}, [Handler(0, 0, true, Acking(r, true))], {0}, [r], {}, map[], {r.id}), [1], map[0 := 1])
  }

  /** Publish both, deliver the first, store it; then the rest. */
  function StoringSteps(m: Message, other: Message, draw: Draw, rest: seq<Step>): seq<Step> {
    [Publish(m)] + ([Publish(other)] + ([Start(0)] + ([Deliver(0, 0)]
    + ([Prepare(0, draw)] + ([Match(0)] + ([Insert(0, false)] + rest))))))
  }

  lemma StoringIsFaultFree(m: Message, other: Message, draw: Draw, rest: seq<Step>)
    requires FaultFree(rest)
    ensures FaultFree(StoringSteps(m, other, draw, rest))
  {
    var steps := StoringSteps(m, other, draw, rest);
    assert steps == [Publish(m), Publish(other), Start(0), Deliver(0, 0), Prepare(0, draw), Match(0),
                     Insert(0, false)] + rest;
  }

  /** Handler 0 has received its message; message 1 waits. */
  function Taken(m: Message, other: Message): Tagged {
    Tagged(State([m, other], {1}, [Handler(0, 0, true, Received)], {0}, [], {}, map[], {}), [1], map[0 := 1])
  }

  lemma {:induction false} TakenIsReached(m: Message, other: Message, rest: seq<Step>)
    requires TaggedAdmissible(Taken(m, other), rest)
    ensures var steps := [Publish(m)] + ([Publish(other)] + ([Start(0)] + ([Deliver(0, 0)] + rest)));
            TaggedAdmissible(TAGGED_INIT, steps) && TaggedExec(TAGGED_INIT, steps) == TaggedExec(Taken(m, other), rest)
  {
    var t1 := TaggedApply(TAGGED_INIT, Publish(m));
    var t2 := TaggedApply(t1, Publish(other));
    var t3 := TaggedApply(t2, Start(0));
    assert TaggedApply(t3, Deliver(0, 0)) == Taken(m, other);
    var s4 := [Deliver(0, 0)] + rest;
    var s3 := [Start(0)] + s4;
    var s2 := [Publish(other)] + s3;
    TaggedThen(t3, Deliver(0, 0), rest, s4);
    TaggedThen(t2, Start(0), s4, s3);
    TaggedThen(t1, Publish(other), s3, s2);
    TaggedThen(TAGGED_INIT, Publish(m), s2, [Publish(m)] + s2);
  }

  lemma {:induction false} StoredFromTaken(m: Message, other: Message, draw: Draw, rest: seq<Step>)
    requires Accept(m).Ok?
    requires TaggedAdmissible(Stored(m, other, Ingest(Accept(m).value, draw)), rest)
    ensures var r := Ingest(Accept(m).value, draw);
            var steps := [Prepare(0, draw)] + ([Match(0)] + ([Insert(0, false)] + rest));
            && TaggedAdmissible(Taken(m, other), steps)
            && TaggedExec(Taken(m, other), steps) == TaggedExec(Stored(m, other, r), rest)
  {
    var r, t4 := Ingest(Accept(m).value, draw), Taken(m, other);
    var t5 := TaggedApply(t4, Prepare(0, draw));
    assert t5 == t4.(s := t4.s.(handlers := [Handler(0, 0, true, Matching(r))], minted := {r.id}));
    var t6 := TaggedApply(t5, Match(0));
    assert t6 == t5.(s := t5.s.(handlers := [Handler(0, 0, true, Inserting(r))]));
    assert TaggedApply(t6, Insert(0, false)) == Stored(m, other, r);
    var s7 := [Insert(0, false)] + rest;
    var s6 := [Match(0)] + s7;
    TaggedThen(t6, Insert(0, false), rest, s7);
    TaggedThen(t5, Match(0), s7, s6);
    TaggedThen(t4, Prepare(0, draw), s6, [Prepare(0, draw)] + s6);
  }

  lemma {:induction false} StoredIsReached(m: Message, other: Message, draw: Draw, rest: seq<Step>)
    requires Accept(m).Ok?
    requires TaggedAdmissible(Stored(m, other, Ingest(Accept(m).value, draw)), rest)
    ensures var r := Ingest(Accept(m).value, draw);
            var steps := StoringSteps(m, other, draw, rest);
            TaggedAdmissible(TAGGED_INIT, steps) && TaggedExec(TAGGED_INIT, steps) == TaggedExec(Stored(m, other, r), rest)
  {
    StoredFromTaken(m, other, draw, rest);
    TakenIsReached(m, other, [Prepare(0, draw)] + ([Match(0)] + ([Insert(0, false)] + rest)));
  }

  lemma {:induction false} LossRun(m: Message, other: Message, r: InboxRecord)
    ensures var ts := Stored(m, other, r);
            && TaggedAdmissible(ts, LOSS)
            && TaggedExec(ts, LOSS).s
               == State([m, other], {0}, [Handler(0, 0, false, Ended), Handler(0, 1, false, Ended)], {}, [r], {1}, map[],
                        {r.id})
  {
    var ts := Stored(m, other, r);
    var t1 := TaggedApply(ts, Disconnect(0));
    assert MessagesHeldBy(ts.s, 0) == {0} by {
      assert ts.s.handlers[0].message == 0;
    }
    assert t1 == Tagged(ts.s.(ready := {0, 1}, handlers := [Handler(0, 0, false, Acking(r, true))]), [1], map[0 := 0]);
    var t2 := TaggedApply(t1, Deliver(0, 1));
    assert t2.s == t1.s.(ready := {0}, handlers := [Handler(0, 0, false, Acking(r, true)), Handler(0, 1, true, Received)]);
    assert t2.tags == [1, 1];
    assert Names(t2, 0, 1);
    var t3 := TaggedApply(t2, Ack(0));
    assert t3.s == t2.s.(acked := {1}, handlers := [Handler(0, 0, false, Ended), Handler(0, 1, false, Received)]);
    var t4 := TaggedApply(t3, Crash(0));
    assert MessagesHeldBy(t3.s, 0) == {};
    TaggedThen(t3, Crash(0), [], [Crash(0)]);
    TaggedThen(t2, Ack(0), [Crash(0)], [Ack(0), Crash(0)]);
    TaggedThen(t1, Deliver(0, 1), [Ack(0), Crash(0)], [Deliver(0, 1), Ack(0), Crash(0)]);
    TaggedThen(ts, Disconnect(0), [Deliver(0, 1), Ack(0), Crash(0)], LOSS);
  }

  /** Otherwise, for every two valid messages with different keys: handler 0 outlives its channel, its ack names
      the delivery of the other message on the new one, and that message is acked without ever being stored. */
  lemma {:induction false} StrayAckLosesMessage(m: Message, other: Message, draw: Draw) returns (steps: seq<Step>)
    requires ValidMessage(m) && ValidMessage(other) && KeyText(m) != KeyText(other)
    ensures TaggedAdmissible(TAGGED_INIT, steps) && FaultFree(steps)
    ensures var s := TaggedExec(TAGGED_INIT, steps).s;
            && s.published == [m, other] && s.acked == {1} && s.ready == {0}
            && !Persisted(s.inbox, other)
            && forall t | 0 <= t < |s.handlers| :: s.handlers[t].phase.Ended?
  {
    var r := OfferedRecord(m, draw);
    LossRun(m, other, r);
    StoredIsReached(m, other, draw, LOSS);
    assert FaultFree(LOSS);
    StoringIsFaultFree(m, other, draw, LOSS);
    steps := StoringSteps(m, other, draw, LOSS);
    NotStored(m, other, r);
  }

  lemma OfferedRecord(m: Message, draw: Draw) returns (r: InboxRecord)
    requires ValidMessage(m)
    ensures Accept(m).Ok? && r == Ingest(Accept(m).value, draw) && r.dedupKey == KeyText(m)
  {
    AcceptedIff(m);
    r := Ingest(Accept(m).value, draw);
  }

  lemma NotStored(m: Message, other: Message, r: InboxRecord)
    requires r.dedupKey == KeyText(m) && KeyText(m) != KeyText(other)
    ensures !Persisted([r], other)
  {
  }

  /** Handler 0 has refused its message; message 1 waits. */
  function Refused(m: Message, other: Message, e: IngestError): Tagged {
    Tagged(State([m, other], {1}, [Handler(0, 0, true, Nacking(Rejected(e)))], {0}, [], {}, map[], {}), [1], map[0 := 1])
  }

  const REFUSAL := [Disconnect(0), Deliver(0, 1), Nack(0), Crash(0)]

  lemma {:induction false} RefusalRun(m: Message, other: Message, e: IngestError)
    ensures var ts := Refused(m, other, e);
            && TaggedAdmissible(ts, REFUSAL)
            && TaggedExec(ts, REFUSAL).s
               == State([m, other], {0}, [Handler(0, 0, false, Ended), Handler(0, 1, false, Ended)], {}, [], {},
                        map[1 := Rejected(e)], {})
  {
    var ts := Refused(m, other, e);
    var t1 := TaggedApply(ts, Disconnect(0));
    assert MessagesHeldBy(ts.s, 0) == {0} by {
      assert ts.s.handlers[0].message == 0;
    }
    assert t1 == Tagged(ts.s.(ready := {0, 1}, handlers := [Handler(0, 0, false, Nacking(Rejected(e)))]), [1], map[0 := 0]);
    var t2 := TaggedApply(t1, Deliver(0, 1));
    assert t2.s == t1.s.(ready := {0},
                         handlers := [Handler(0, 0, false, Nacking(Rejected(e))), Handler(0, 1, true, Received)]);
    assert t2.tags == [1, 1];
    assert Names(t2, 0, 1);
    var t3 := TaggedApply(t2, Nack(0));
    assert t3.s == t2.s.(dead := map[1 := Rejected(e)],
                         handlers := [Handler(0, 0, false, Ended), Handler(0, 1, false, Received)]);
    assert MessagesHeldBy(t3.s, 0) == {};
    TaggedThen(t3, Crash(0), [], [Crash(0)]);
    TaggedThen(t2, Nack(0), [Crash(0)], [Nack(0), Crash(0)]);
    TaggedThen(t1, Deliver(0, 1), [Nack(0), Crash(0)], [Deliver(0, 1), Nack(0), Crash(0)]);
    TaggedThen(ts, Disconnect(0), [Deliver(0, 1), Nack(0), Crash(0)], REFUSAL);
  }

  function RefusingSteps(m: Message, other: Message, draw: Draw): seq<Step> {
    [Publish(m)] + ([Publish(other)] + ([Start(0)] + ([Deliver(0, 0)] + ([Prepare(0, draw)] + REFUSAL))))
  }

  lemma RefusingIsFaultFree(m: Message, other: Message, draw: Draw)
    ensures FaultFree(RefusingSteps(m, other, draw))
  {
    assert RefusingSteps(m, other, draw)
        == [Publish(m), Publish(other), Start(0), Deliver(0, 0), Prepare(0, draw)] + REFUSAL;
  }

  /** The same with a nack: for every invalid and every valid message, the fault-free run that dead-letters the valid
      one for the other's error, without ever storing it. */
  lemma StrayNackLosesMessage(m: Message, other: Message, draw: Draw) returns (steps: seq<Step>)
    requires !ValidMessage(m) && ValidMessage(other)
    ensures TaggedAdmissible(TAGGED_INIT, steps) && FaultFree(steps)
    ensures var s := TaggedExec(TAGGED_INIT, steps).s;
            && s.published == [m, other] && s.dead == map[1 := Rejected(Rejection(m))] && s.ready == {0}
            && s.inbox == [] && forall t | 0 <= t < |s.handlers| :: s.handlers[t].phase.Ended?
  {
    AcceptedIff(m);
    var e := Rejection(m);
    RefusalRun(m, other, e);
    assert TaggedApply(Taken(m, other), Prepare(0, draw)) == Refused(m, other, e);
    TaggedThen(Taken(m, other), Prepare(0, draw), REFUSAL, [Prepare(0, draw)] + REFUSAL);
    TakenIsReached(m, other, [Prepare(0, draw)] + REFUSAL);
    RefusingIsFaultFree(m, other, draw);
    steps := RefusingSteps(m, other, draw);
  }
}

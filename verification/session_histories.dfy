/** What interleaved sessions publish: about each record its history, as in the serial run, and when. */
module SessionHistories {
  import opened TargetUrl
  import opened Subscription
  import opened UseCases
  import opened StoreTheorems
  import opened Sessions

  // ---------------------------------------------------------------- published events, record by record

  /** Session k has saved the record and not yet published. */
  predicate Owes(w: World, k: nat, id: string)
    requires k < |w.phases|
  {
    w.phases[k].Saved? && w.phases[k].copy.id == id
  }

  predicate NobodyOwes(w: World, id: string) {
    forall k | 0 <= k < |w.phases| :: !Owes(w, k, id)
  }

  /** About this record, served is what has been published and what one session still owes. */
  predicate CaughtUp(w: World, served: seq<DomainEvent>, id: string) {
    && (forall k | 0 <= k < |w.phases| && Owes(w, k, id) ::
          OfId(served, id) == OfId(w.published, id) + w.phases[k].copy.domainEvents)
    && (NobodyOwes(w, id) ==> OfId(served, id) == OfId(w.published, id))
  }

  /** What the step adds to the serial run. */
  ghost function Newly(parse: UrlParser, requests: seq<Request>, w: World, step: Step): seq<DomainEvent>
    requires |requests| == |w.phases|
  {
    if Ends(parse, requests, w, step) then Serve(parse, w.docs, requests[step.session]).events else []
  }

  /** A session does not save a record while another has saved it and not yet published. */
  predicate PaysFirst(w: World, step: Step) {
    Enabled(w, step) && step.Save? && !Clash(w.docs, ToDocument(w.phases[step.session].copy)) ==>
      NobodyOwes(w, w.phases[step.session].copy.id)
  }

  ghost predicate AllPayFirst(parse: UrlParser, requests: seq<Request>, w: World, steps: seq<Step>)
    requires |requests| == |w.phases|
    decreases |steps|
  {
    steps != [] ==>
      && AllPayFirst(parse, requests, w, steps[..|steps| - 1])
      && PaysFirst(Run(parse, requests, w, steps[..|steps| - 1]), steps[|steps| - 1])
  }

  predicate DebtsApart(w: World) {
    forall j, k | 0 <= j < k < |w.phases| && w.phases[j].Saved? && w.phases[k].Saved? ::
      w.phases[j].copy.id != w.phases[k].copy.id
  }

  lemma DebtsApartStep(parse: UrlParser, requests: seq<Request>, w: World, step: Step)
    requires |requests| == |w.phases| && DebtsApart(w) && PaysFirst(w, step)
    ensures DebtsApart(Apply(parse, requests, w, step))
  {
    var after := Apply(parse, requests, w, step);
    forall j, k | 0 <= j < k < |w.phases| && after.phases[j].Saved? && after.phases[k].Saved?
      ensures after.phases[j].copy.id != after.phases[k].copy.id
    {
      if j != step.session && k != step.session {
        assert after.phases[j] == w.phases[j] && after.phases[k] == w.phases[k];
      } else if Enabled(w, step) {
        var other := if j == step.session then k else j;
        assert after.phases[other] == w.phases[other];
        assert !Owes(w, other, w.phases[step.session].copy.id);
      }
    }
  }

  /** Nobody else owes anything about the record that this step saves or publishes. */
  lemma OnlyDebtor(parse: UrlParser, requests: seq<Request>, w: World, step: Step)
    requires Sound(parse, requests, w) && DebtsApart(w) && PaysFirst(w, step) && Enabled(w, step)
    requires step.Publish? || (step.Save? && !Clash(w.docs, ToDocument(w.phases[step.session].copy)))
    ensures var a := w.phases[step.session].copy;
            && AtMostOneOf(a.domainEvents, a.id)
            && forall j | 0 <= j < |w.phases| && j != step.session :: !Owes(w, j, a.id)
  {
    assert SessionOk(parse, w.docs, requests[step.session], w.phases[step.session]);
  }

  predicate OnlyMoves(w: World, after: World, k: nat) {
    |after.phases| == |w.phases| && forall j | 0 <= j < |w.phases| && j != k :: after.phases[j] == w.phases[j]
  }

  lemma OthersOweTheSame(w: World, after: World, k: nat, id: string)
    requires OnlyMoves(w, after, k)
    ensures forall j | 0 <= j < |w.phases| && j != k :: Owes(after, j, id) <==> Owes(w, j, id)
  {
    forall j | 0 <= j < |w.phases| && j != k ensures Owes(after, j, id) <==> Owes(w, j, id) {
      assert after.phases[j] == w.phases[j];
    }
  }

  lemma CaughtUpWithOne(w: World, served: seq<DomainEvent>, id: string, k: nat)
    requires k < |w.phases| && Owes(w, k, id) && forall j | 0 <= j < |w.phases| && j != k :: !Owes(w, j, id)
    requires OfId(served, id) == OfId(w.published, id) + w.phases[k].copy.domainEvents
    ensures CaughtUp(w, served, id)
  {
  }

  lemma DebtPaid(w: World, after: World, served: seq<DomainEvent>, id: string, k: nat)
    requires CaughtUp(w, served, id)
    requires k < |w.phases| && Owes(w, k, id) && forall j | 0 <= j < |w.phases| && j != k :: !Owes(w, j, id)
    requires OnlyMoves(w, after, k) && !Owes(after, k, id)
    requires OfId(after.published, id) == OfId(w.published, id) + w.phases[k].copy.domainEvents
    ensures CaughtUp(after, served, id)
  {
    OthersOweTheSame(w, after, k, id);
    assert NobodyOwes(after, id);
  }

  /** About other records nothing is owed or paid that was not before. */
  lemma CaughtUpElsewhere(w: World, after: World, served: seq<DomainEvent>, more: seq<DomainEvent>, id: string, k: nat)
    requires CaughtUp(w, served, id) && k < |w.phases| && !Owes(w, k, id)
    requires OnlyMoves(w, after, k) && !Owes(after, k, id)
    requires OfId(after.published, id) == OfId(w.published, id) && OfId(more, id) == OfId(served, id)
    ensures CaughtUp(after, more, id)
  {
    OthersOweTheSame(w, after, k, id);
    forall j | 0 <= j < |w.phases| && Owes(after, j, id)
      ensures OfId(more, id) == OfId(after.published, id) + after.phases[j].copy.domainEvents
    {
      assert j != k && Owes(w, j, id) && after.phases[j] == w.phases[j];
    }
    if NobodyOwes(after, id) {
      forall j | 0 <= j < |w.phases| ensures !Owes(w, j, id) {
        assert j != k ==> !Owes(after, j, id);
      }
    }
  }

  /** Session k saves its copy, and nobody else owes anything about it. */
  lemma CaughtUpSave(w: World, after: World, k: nat, a: Aggregate, served: seq<DomainEvent>, id: string)
    requires CaughtUp(w, served, id) && AtMostOneOf(a.domainEvents, a.id)
    requires k < |w.phases| && w.phases[k] == Loaded(a) && forall j | 0 <= j < |w.phases| && j != k :: !Owes(w, j, a.id)
    requires OnlyMoves(w, after, k) && after.phases[k] == Saved(a) && after.published == w.published
    ensures CaughtUp(after, served + a.domainEvents, id)
  {
    OfIdAfter(served, a.domainEvents, a.id, id);
    if a.id == id {
      OthersOweTheSame(w, after, k, id);
      forall j | 0 <= j < |w.phases| ensures !Owes(w, j, id) {
        assert j != k ==> !Owes(w, j, a.id);
      }
      assert NobodyOwes(w, id);
      CaughtUpWithOne(after, served + a.domainEvents, id, k);
    } else {
      CaughtUpElsewhere(w, after, served, served + a.domainEvents, id, k);
    }
  }

  lemma CaughtUpPublish(w: World, after: World, k: nat, a: Aggregate, served: seq<DomainEvent>, id: string)
    requires CaughtUp(w, served, id) && AtMostOneOf(a.domainEvents, a.id)
    requires k < |w.phases| && w.phases[k] == Saved(a) && forall j | 0 <= j < |w.phases| && j != k :: !Owes(w, j, a.id)
    requires OnlyMoves(w, after, k) && !after.phases[k].Saved? && after.published == w.published + a.domainEvents
    ensures CaughtUp(after, served, id)
  {
    OfIdAfter(w.published, a.domainEvents, a.id, id);
    if a.id == id {
      assert forall j | 0 <= j < |w.phases| && j != k :: !Owes(w, j, id);
      DebtPaid(w, after, served, id, k);
    } else {
      CaughtUpElsewhere(w, after, served, served, id, k);
    }
  }

  /** A step that neither saves nor publishes owes and pays nothing. */
  lemma CaughtUpQuiet(w: World, after: World, served: seq<DomainEvent>, id: string)
    requires CaughtUp(w, served, id) && after.published == w.published && |after.phases| == |w.phases|
    requires forall k | 0 <= k < |w.phases| ::
               after.phases[k].Saved? || w.phases[k].Saved? ==> after.phases[k] == w.phases[k]
    ensures CaughtUp(after, served, id)
  {
    forall k | 0 <= k < |w.phases| ensures Owes(after, k, id) <==> Owes(w, k, id) {
    }
  }

  lemma NewlySaved(parse: UrlParser, requests: seq<Request>, w: World, k: nat)
    requires Sound(parse, requests, w) && k < |requests| && w.phases[k].Loaded? && SavesCurrent(parse, requests, w, Save(k))
    ensures Newly(parse, requests, w, Save(k))
            == if Clash(w.docs, ToDocument(w.phases[k].copy)) then [] else w.phases[k].copy.domainEvents
  {
    assert SessionOk(parse, w.docs, requests[k], w.phases[k]);
    SaveIsServe(parse, w.docs, requests[k], w.phases[k].copy);
  }

  lemma SaveOrPublish(parse: UrlParser, requests: seq<Request>, w: World, step: Step, a: Aggregate,
                      served: seq<DomainEvent>, id: string)
    requires |requests| == |w.phases| && CaughtUp(w, served, id) && AtMostOneOf(a.domainEvents, a.id)
    requires Enabled(w, step) && (step.Publish? || (step.Save? && !Clash(w.docs, ToDocument(a))))
    requires w.phases[step.session].copy == a
    requires forall j | 0 <= j < |w.phases| && j != step.session :: !Owes(w, j, a.id)
    ensures CaughtUp(Apply(parse, requests, w, step), if step.Save? then served + a.domainEvents else served, id)
  {
    if step.Save? {
      CaughtUpSave(w, Apply(parse, requests, w, step), step.session, a, served, id);
    } else {
      CaughtUpPublish(w, Apply(parse, requests, w, step), step.session, a, served, id);
    }
  }

  lemma NeitherSavesNorPublishes(parse: UrlParser, requests: seq<Request>, w: World, step: Step,
                                 served: seq<DomainEvent>, id: string)
    requires |requests| == |w.phases| && CaughtUp(w, served, id)
    requires Enabled(w, step) && !step.Read? ==> step.Save? && Clash(w.docs, ToDocument(w.phases[step.session].copy))
    ensures CaughtUp(Apply(parse, requests, w, step), served, id)
  {
    CaughtUpQuiet(w, Apply(parse, requests, w, step), served, id);
  }

  lemma CaughtUpStep(parse: UrlParser, requests: seq<Request>, w: World, step: Step, served: seq<DomainEvent>, id: string)
    requires Sound(parse, requests, w) && SavesCurrent(parse, requests, w, step)
    requires DebtsApart(w) && PaysFirst(w, step) && CaughtUp(w, served, id)
    ensures CaughtUp(Apply(parse, requests, w, step), served + Newly(parse, requests, w, step), id)
  {
    NewlyKnown(parse, requests, w, step);
    assert served + [] == served;
    if Enabled(w, step) && !step.Read? && (step.Publish? || !Clash(w.docs, ToDocument(w.phases[step.session].copy))) {
      OnlyDebtor(parse, requests, w, step);
      SaveOrPublish(parse, requests, w, step, w.phases[step.session].copy, served, id);
    } else {
      NeitherSavesNorPublishes(parse, requests, w, step, served, id);
    }
  }

  lemma NewlyKnown(parse: UrlParser, requests: seq<Request>, w: World, step: Step)
    requires Sound(parse, requests, w) && SavesCurrent(parse, requests, w, step)
    ensures Newly(parse, requests, w, step)
            == if Enabled(w, step) && step.Save? && !Clash(w.docs, ToDocument(w.phases[step.session].copy))
               then w.phases[step.session].copy.domainEvents else []
  {
    if Enabled(w, step) && step.Save? {
      NewlySaved(parse, requests, w, step.session);
    }
  }

  lemma {:induction false} NewlyServed(parse: UrlParser, requests: seq<Request>, w: World, steps: seq<Step>)
    requires |requests| == |w.phases| && steps != []
    requires var front := steps[..|steps| - 1];
             Run(parse, requests, w, front).docs == ServeAll(parse, w.docs, Serial(parse, requests, w, front)).0
    ensures var front, step := steps[..|steps| - 1], steps[|steps| - 1];
            ServeAll(parse, w.docs, Serial(parse, requests, w, steps)).1
            == ServeAll(parse, w.docs, Serial(parse, requests, w, front)).1
               + Newly(parse, requests, Run(parse, requests, w, front), step)
  {
    var front, step := steps[..|steps| - 1], steps[|steps| - 1];
    var served := ServeAll(parse, w.docs, Serial(parse, requests, w, front)).1;
    SerialLast(parse, requests, w, steps);
    if Ends(parse, requests, Run(parse, requests, w, front), step) {
      ServeAllAppend(parse, w.docs, Serial(parse, requests, w, front), requests[step.session]);
    } else {
      assert served + [] == served;
    }
  }

  lemma NothingServed(parse: UrlParser, requests: seq<Request>, w: World, id: string)
    requires |requests| == |w.phases| && NobodyOwes(w, id) && w.published == []
    ensures CaughtUp(Run(parse, requests, w, []), ServeAll(parse, w.docs, Serial(parse, requests, w, [])).1, id)
  {
    assert EndOrder(parse, requests, w, []) == [];
    assert Serial(parse, requests, w, []) == [];
  }

  /** Where a run may start. */
  ghost predicate Ready(parse: UrlParser, requests: seq<Request>, w: World) {
    && Normalising(parse) && DistinctIds(requests) && Sound(parse, requests, w)
    && CurrentBut(parse, requests, w, {}) && DebtsApart(w)
  }

  /** What the run so far has shown of the world reached. */
  lemma {:induction false} SerialisedDocs(parse: UrlParser, requests: seq<Request>, w: World, steps: seq<Step>)
    requires Ready(parse, requests, w) && NoStaleSave(parse, requests, w, steps)
    ensures Run(parse, requests, w, steps).docs == ServeAll(parse, w.docs, Serial(parse, requests, w, steps)).0
  {
    Serialisation(parse, requests, w, steps);
  }

  lemma {:induction false} DebtsApartRun(parse: UrlParser, requests: seq<Request>, w: World, steps: seq<Step>)
    requires |requests| == |w.phases| && DebtsApart(w) && AllPayFirst(parse, requests, w, steps)
    ensures DebtsApart(Run(parse, requests, w, steps))
    decreases |steps|
  {
    if steps != [] {
      DebtsApartRun(parse, requests, w, steps[..|steps| - 1]);
      DebtsApartStep(parse, requests, Run(parse, requests, w, steps[..|steps| - 1]), steps[|steps| - 1]);
    }
  }

  /** If no overtaken copy is saved, and no record is saved again before it has been published, what is published
      about a record is at every moment what the serial run publishes about it, short of what its one session
      between save and publish still owes. */
  lemma {:induction false} PublishedPerRecord(parse: UrlParser, requests: seq<Request>, w: World, steps: seq<Step>,
                                              id: string)
    requires Ready(parse, requests, w) && NobodyOwes(w, id) && w.published == []
    requires NoStaleSave(parse, requests, w, steps) && AllPayFirst(parse, requests, w, steps)
    ensures CaughtUp(Run(parse, requests, w, steps), ServeAll(parse, w.docs, Serial(parse, requests, w, steps)).1, id)
    decreases |steps|
  {
    if steps == [] {
      NothingServed(parse, requests, w, id);
    } else {
      var front := steps[..|steps| - 1];
      PublishedPerRecord(parse, requests, w, front, id);
      SerialisedDocs(parse, requests, w, front);
      DebtsApartRun(parse, requests, w, front);
      LastSavesCurrent(parse, requests, w, steps);
      CaughtUpStep(parse, requests, Run(parse, requests, w, front), steps[|steps| - 1],
                   ServeAll(parse, w.docs, Serial(parse, requests, w, front)).1, id);
      NewlyServed(parse, requests, w, steps);
    }
  }

  // ---------------------------------------------------------------- time

  /** A session that gets to change its copy reads a clock that never runs backwards. */
  ghost predicate Clocked(parse: UrlParser, requests: seq<Request>, w: World, step: Step, from: int, to: int)
    requires |requests| == |w.phases|
  {
    && from <= to
    && (Enabled(w, step) && step.Read? && Prepare(parse, w.docs, requests[step.session]).Ok? ==>
          ReadsClock(requests[step.session], from, to))
  }

  ghost predicate ClockedRun(parse: UrlParser, requests: seq<Request>, w: World, steps: seq<Step>, clock: seq<int>)
    requires |requests| == |w.phases|
    decreases |steps|
  {
    && |clock| == |steps| + 1
    && (steps != [] ==>
          var n := |steps| - 1;
          && ClockedRun(parse, requests, w, steps[..n], clock[..n + 1])
          && Clocked(parse, requests, Run(parse, requests, w, steps[..n]), steps[n], clock[n], clock[n + 1]))
  }

  /** Nothing stored or held is from after clock, and every copy not overtaken was changed in time for its
      record. */
  predicate Punctual(requests: seq<Request>, w: World, clock: int, gone: set<nat>)
    requires |requests| == |w.phases|
  {
    && NoneAfter(w.docs, clock)
    && (forall k | 0 <= k < |requests| && w.phases[k].Loaded? :: w.phases[k].copy.updatedAt <= clock)
    && (forall k | 0 <= k < |requests| && w.phases[k].Loaded? && k !in gone :: InTime(w.docs, requests[k]))
  }

  lemma PunctualRead(parse: UrlParser, requests: seq<Request>, w: World, k: nat, from: int, to: int, gone: set<nat>)
    requires Sound(parse, requests, w) && Punctual(requests, w, from, gone)
    requires Enabled(w, Read(k)) && Clocked(parse, requests, w, Read(k), from, to)
    ensures Punctual(requests, Apply(parse, requests, w, Read(k)), to, gone)
  {
    assert SessionOk(parse, w.docs, requests[k], w.phases[k]);
    if Prepare(parse, w.docs, requests[k]).Ok? {
      PreparedTimes(parse, w.docs, requests[k]);
    }
  }

  /** A save that does not overtake a session does not make it late. */
  lemma InTimeUnder(parse: UrlParser, requests: seq<Request>, w: World, k: nat, j: nat)
    requires Sound(parse, requests, w) && Enabled(w, Save(k)) && j < |requests| && j != k && w.phases[j].Loaded?
    requires InTime(w.docs, requests[j]) && !Overtakes(parse, requests, w, Save(k), j)
    ensures InTime(Apply(parse, requests, w, Save(k)).docs, requests[j])
  {
    assert SessionOk(parse, w.docs, requests[k], w.phases[k]);
    if Apply(parse, requests, w, Save(k)).docs != w.docs {
      InTimeFrame(w.docs, ToDocument(w.phases[k].copy), requests[j]);
    }
  }

  /** A save of another record makes no session late. */
  lemma InTimeFrame(docs: Store, r: SubscriptionRecord, req: Request)
    requires InTime(docs, req) && r.id != Target(req)
    ensures InTime(docs[r.id := r], req)
  {
  }

  lemma PunctualSave(parse: UrlParser, requests: seq<Request>, w: World, k: nat, from: int, to: int,
                     gone: set<nat>, more: set<nat>)
    requires Sound(parse, requests, w) && Punctual(requests, w, from, gone) && from <= to && Enabled(w, Save(k))
    requires forall j: nat | j < |requests| && (j in gone || Overtakes(parse, requests, w, Save(k), j)) :: j in more
    ensures Punctual(requests, Apply(parse, requests, w, Save(k)), to, more)
  {
    var after := Apply(parse, requests, w, Save(k));
    forall j | 0 <= j < |requests| && after.phases[j].Loaded? && j !in more ensures InTime(after.docs, requests[j]) {
      assert j != k && after.phases[j] == w.phases[j];
      InTimeUnder(parse, requests, w, k, j);
    }
  }

  lemma PunctualStep(parse: UrlParser, requests: seq<Request>, w: World, step: Step, from: int, to: int,
                     gone: set<nat>, more: set<nat>)
    requires Sound(parse, requests, w) && Punctual(requests, w, from, gone) && Clocked(parse, requests, w, step, from, to)
    requires forall j: nat | j < |requests| && (j in gone || Overtakes(parse, requests, w, step, j)) :: j in more
    ensures Punctual(requests, Apply(parse, requests, w, step), to, more)
  {
    if Enabled(w, step) {
      match step {
        case Read(k) => PunctualRead(parse, requests, w, k, from, to, gone);
        case Save(k) => PunctualSave(parse, requests, w, k, from, to, gone, more);
        case Publish(_) =>
      }
    }
  }

  lemma ClockedFront(parse: UrlParser, requests: seq<Request>, w: World, steps: seq<Step>, clock: seq<int>)
    requires |requests| == |w.phases| && steps != [] && ClockedRun(parse, requests, w, steps, clock)
    ensures var n := |steps| - 1;
            && |clock| == n + 2 && clock[..n + 1][0] == clock[0] && clock[..n + 1][n] == clock[n]
            && ClockedRun(parse, requests, w, steps[..n], clock[..n + 1])
            && Clocked(parse, requests, Run(parse, requests, w, steps[..n]), steps[n], clock[n], clock[n + 1])
  {
  }

  /** In every interleaving under such a clock. */
  lemma {:induction false} PunctualRun(parse: UrlParser, requests: seq<Request>, w: World, steps: seq<Step>,
                                       clock: seq<int>)
    requires Normalising(parse) && DistinctIds(requests) && Sound(parse, requests, w)
    requires ClockedRun(parse, requests, w, steps, clock) && Punctual(requests, w, clock[0], {})
    ensures Punctual(requests, Run(parse, requests, w, steps), clock[|steps|], Overtaken(parse, requests, w, steps))
    decreases |steps|
  {
    if steps != [] {
      var n := |steps| - 1;
      ClockedFront(parse, requests, w, steps, clock);
      PunctualRun(parse, requests, w, steps[..n], clock[..n + 1]);
      SoundRun(parse, requests, w, steps[..n]);
      PunctualStep(parse, requests, Run(parse, requests, w, steps[..n]), steps[n], clock[n], clock[n + 1],
                   Overtaken(parse, requests, w, steps[..n]), Overtaken(parse, requests, w, steps));
    }
  }

  /** A session that is decided here after a successful preparation changed its copy in time. */
  lemma EndsInTime(requests: seq<Request>, parse: UrlParser, w: World, step: Step, clock: int, gone: set<nat>)
    requires |requests| == |w.phases| && Punctual(requests, w, clock, gone)
    requires Enabled(w, step) && step.Save? ==> step.session !in gone
    ensures Ends(parse, requests, w, step) && Prepare(parse, w.docs, requests[step.session]).Ok? ==>
              InTime(w.docs, requests[step.session])
  {
  }

  lemma {:induction false} InTimeMore(parse: UrlParser, requests: seq<Request>, w: World, steps: seq<Step>)
    requires |requests| == |w.phases| && steps != []
    requires var front := steps[..|steps| - 1];
             && Run(parse, requests, w, front).docs == ServeAll(parse, w.docs, Serial(parse, requests, w, front)).0
             && InTimeRun(parse, w.docs, Serial(parse, requests, w, front))
    requires var before, step := Run(parse, requests, w, steps[..|steps| - 1]), steps[|steps| - 1];
             Ends(parse, requests, before, step) && Prepare(parse, before.docs, requests[step.session]).Ok? ==>
               InTime(before.docs, requests[step.session])
    ensures InTimeRun(parse, w.docs, Serial(parse, requests, w, steps))
  {
    var front, step := steps[..|steps| - 1], steps[|steps| - 1];
    SerialLast(parse, requests, w, steps);
    if Ends(parse, requests, Run(parse, requests, w, front), step) {
      var reqs, req := Serial(parse, requests, w, front), requests[step.session];
      assert (reqs + [req])[..|reqs|] == reqs;
    }
  }

  lemma NothingLate(parse: UrlParser, requests: seq<Request>, w: World)
    requires |requests| == |w.phases|
    ensures InTimeRun(parse, w.docs, Serial(parse, requests, w, []))
  {
    assert Serial(parse, requests, w, []) == [];
  }

  /** A clock that never runs backwards, read in the order of the reads, is in time in the serial run, which
      goes by the order of the saves. */
  lemma {:induction false} InTimeUnlessOvertaken(parse: UrlParser, requests: seq<Request>, w: World, steps: seq<Step>,
                                                 clock: seq<int>)
    requires Ready(parse, requests, w) && NoStaleSave(parse, requests, w, steps)
    requires ClockedRun(parse, requests, w, steps, clock) && Punctual(requests, w, clock[0], {})
    ensures InTimeRun(parse, w.docs, Serial(parse, requests, w, steps))
    decreases |steps|
  {
    if steps == [] {
      NothingLate(parse, requests, w);
    } else {
      var n := |steps| - 1;
      ClockedFront(parse, requests, w, steps, clock);
      InTimeUnlessOvertaken(parse, requests, w, steps[..n], clock[..n + 1]);
      PunctualRun(parse, requests, w, steps[..n], clock[..n + 1]);
      SerialisedDocs(parse, requests, w, steps[..n]);
      EndsInTime(requests, parse, Run(parse, requests, w, steps[..n]), steps[n], clock[n],
                 Overtaken(parse, requests, w, steps[..n]));
      InTimeMore(parse, requests, w, steps);
    }
  }

  // ---------------------------------------------------------------- histories

  /** From an empty store and under a clock that never runs backwards, if no overtaken copy is saved and no record
      is saved again before it has been published: whenever no session is between saving and publishing a record,
      what has been published about it is its whole history, which determines its stored status. */
  lemma {:induction false} HistoriesUnlessOvertaken(parse: UrlParser, requests: seq<Request>, steps: seq<Step>,
                                                    clock: seq<int>, id: string)
    requires Normalising(parse) && DistinctIds(requests) && forall k | 0 <= k < |requests| :: Fresh(map[], requests[k])
    requires NoStaleSave(parse, requests, Begin(map[], |requests|), steps)
    requires AllPayFirst(parse, requests, Begin(map[], |requests|), steps)
    requires ClockedRun(parse, requests, Begin(map[], |requests|), steps, clock)
    ensures var after := Run(parse, requests, Begin(map[], |requests|), steps);
            NobodyOwes(after, id) ==>
              && (id in after.docs ==> Told(after.docs[id], OfId(after.published, id)))
              && (id !in after.docs ==> OfId(after.published, id) == [])
  {
    var w := Begin(map[], |requests|);
    WaitingIsCurrent(parse, requests, map[]);
    Serialisation(parse, requests, w, steps);
    PublishedPerRecord(parse, requests, w, steps, id);
    InTimeUnlessOvertaken(parse, requests, w, steps, clock);
    PublishedIsHistory(parse, Serial(parse, requests, w, steps));
  }

  // ---------------------------------------------------------------- sessions that do not overlap

  /** A session that gets to change a record does not read it while another has read and not yet published it. */
  ghost predicate AloneToTheEnd(parse: UrlParser, requests: seq<Request>, w: World, step: Step)
    requires |requests| == |w.phases|
  {
    Enabled(w, step) && step.Read? && Prepare(parse, w.docs, requests[step.session]).Ok? ==>
      forall j | 0 <= j < |w.phases| && Busy(w, j) :: Target(requests[j]) != Target(requests[step.session])
  }

  predicate Busy(w: World, j: nat)
    requires j < |w.phases|
  {
    w.phases[j].Loaded? || w.phases[j].Saved?
  }

  predicate BusyApart(requests: seq<Request>, w: World)
    requires |requests| == |w.phases|
  {
    forall j, k | 0 <= j < k < |requests| && Busy(w, j) && Busy(w, k) :: Target(requests[j]) != Target(requests[k])
  }

  ghost predicate NoOverlapToTheEnd(parse: UrlParser, requests: seq<Request>, w: World, steps: seq<Step>)
    requires |requests| == |w.phases|
    decreases |steps|
  {
    steps != [] ==>
      && NoOverlapToTheEnd(parse, requests, w, steps[..|steps| - 1])
      && AloneToTheEnd(parse, requests, Run(parse, requests, w, steps[..|steps| - 1]), steps[|steps| - 1])
  }

  lemma BusyApartStep(parse: UrlParser, requests: seq<Request>, w: World, step: Step)
    requires Sound(parse, requests, w) && BusyApart(requests, w) && AloneToTheEnd(parse, requests, w, step)
    ensures BusyApart(requests, Apply(parse, requests, w, step)) && Alone(parse, requests, w, step) && PaysFirst(w, step)
  {
    var after := Apply(parse, requests, w, step);
    assert forall j | 0 <= j < |requests| && j != step.session :: Busy(after, j) <==> Busy(w, j);
    if Enabled(w, step) && step.Save? {
      var k := step.session;
      assert SessionOk(parse, w.docs, requests[k], w.phases[k]);
      forall j | 0 <= j < |w.phases| ensures !Owes(w, j, w.phases[k].copy.id) {
        assert SessionOk(parse, w.docs, requests[j], w.phases[j]);
        assert j != k && Busy(w, j) && Busy(w, k) ==> Target(requests[j]) != Target(requests[k]);
      }
    }
  }

  /** In particular, from an empty store and without overlap from read to publish. */
  lemma {:induction false} HistoriesWithoutOverlap(parse: UrlParser, requests: seq<Request>, steps: seq<Step>,
                                                   clock: seq<int>, id: string)
    requires Normalising(parse) && DistinctIds(requests) && forall k | 0 <= k < |requests| :: Fresh(map[], requests[k])
    requires NoOverlapToTheEnd(parse, requests, Begin(map[], |requests|), steps)
    requires ClockedRun(parse, requests, Begin(map[], |requests|), steps, clock)
    ensures var after := Run(parse, requests, Begin(map[], |requests|), steps);
            NobodyOwes(after, id) ==>
              && (id in after.docs ==> Told(after.docs[id], OfId(after.published, id)))
              && (id !in after.docs ==> OfId(after.published, id) == [])
  {
    WaitingIsCurrent(parse, requests, map[]);
    NoOverlapSuffices(parse, requests, Begin(map[], |requests|), steps);
    HistoriesUnlessOvertaken(parse, requests, steps, clock, id);
  }

  /** Sessions that do not overlap from read to publish meet both conditions. */
  lemma {:induction false} NoOverlapSuffices(parse: UrlParser, requests: seq<Request>, w: World, steps: seq<Step>)
    requires Ready(parse, requests, w) && BusyApart(requests, w) && NoOverlapToTheEnd(parse, requests, w, steps)
    ensures BusyApart(requests, Run(parse, requests, w, steps))
    ensures NoOverlap(parse, requests, w, steps) && AllPayFirst(parse, requests, w, steps)
    ensures NoStaleSave(parse, requests, w, steps)
    decreases |steps|
  {
    if steps != [] {
      var front := steps[..|steps| - 1];
      NoOverlapSuffices(parse, requests, w, front);
      SoundRun(parse, requests, w, front);
      BusyApartStep(parse, requests, Run(parse, requests, w, front), steps[|steps| - 1]);
    }
    assert TargetsApart(requests, w);
    NoOverlapIsNoStaleSave(parse, requests, w, steps);
  }
}

/**
 * The use cases as sessions that interleave: each reads, works on a private copy, later saves the whole
 * record, and later still publishes its events. What holds in every interleaving, and what needs no session to
 * save a copy that another has overtaken.
 */
module Sessions {
  import opened Results
  import opened Text
  import opened TargetUrl
  import opened UrlAcceptance
  import opened Subscription
  import opened UseCases
  import opened StoreTheorems

  datatype Phase =
    | Waiting
    | Loaded(copy: Aggregate)
    | Saved(copy: Aggregate)
    | Finished(outcome: Result<Aggregate, UseCaseError>)

  /** Session k serves requests[k]. */
  datatype World = World(docs: Store, phases: seq<Phase>, published: seq<DomainEvent>)

  function Begin(docs: Store, sessions: nat): World {
    World(docs, seq(sessions, _ => Waiting), [])
  }

  /** Between two awaits: find and change; save; publish. */
  datatype Step = Read(session: nat) | Save(session: nat) | Publish(session: nat)

  predicate Enabled(w: World, step: Step) {
    step.session < |w.phases|
    && match step
       case Read(k) => w.phases[k].Waiting?
       case Save(k) => w.phases[k].Loaded?
       case Publish(k) => w.phases[k].Saved?
  }

  /** One step of one session; a step its session is not ready for does nothing. */
  ghost function Apply(parse: UrlParser, requests: seq<Request>, w: World, step: Step): (after: World)
    requires |requests| == |w.phases|
    ensures |after.phases| == |requests|
  {
    if !Enabled(w, step) then w
    else
      var k := step.session;
      match step
      case Read(_) => (
        match Prepare(parse, w.docs, requests[k])
        case Err(e) => w.(phases := w.phases[k := Finished(Err(e))])
        case Ok(a) => w.(phases := w.phases[k := Loaded(a)]))
      case Save(_) =>
        var a := w.phases[k].copy;
        var served := Commit(w.docs, a);
        if served.result.Err? then w.(phases := w.phases[k := Finished(Err(served.result.error))])
        else w.(docs := served.docs, phases := w.phases[k := Saved(a)])
      case Publish(_) =>
        var a := w.phases[k].copy;
        w.(phases := w.phases[k := Finished(Ok(a.Drained()))], published := w.published + a.domainEvents)
  }

  /** Any interleaving: the steps in the order in which they happen. */
  ghost function Run(parse: UrlParser, requests: seq<Request>, w: World, steps: seq<Step>): (after: World)
    requires |requests| == |w.phases|
    ensures |after.phases| == |requests|
    decreases |steps|
  {
    if steps == [] then w
    else Apply(parse, requests, Run(parse, requests, w, steps[..|steps| - 1]), steps[|steps| - 1])
  }

  lemma {:induction false} RunAppend(parse: UrlParser, requests: seq<Request>, w: World, steps: seq<Step>, step: Step)
    requires |requests| == |w.phases|
    ensures Run(parse, requests, w, steps + [step]) == Apply(parse, requests, Run(parse, requests, w, steps), step)
  {
    assert (steps + [step])[..|steps|] == steps;
  }

  // ---------------------------------------------------------------- every interleaving

  /** New ids are pairwise different. */
  predicate DistinctIds(requests: seq<Request>) {
    forall i, j | 0 <= i < j < |requests| && requests[i].CreateRequest? && requests[j].CreateRequest? ::
      requests[i].freshId != requests[j].freshId
  }

  /** A private copy belongs to its request's record and tenant, whatever happened to the record since. */
  ghost predicate Holds(parse: UrlParser, docs: Store, req: Request, copy: Aggregate) {
    && FieldsOk(parse, ToDocument(copy))
    && copy.id == Target(req) && copy.tenantId == req.tenantId && AtMostOneOf(copy.domainEvents, copy.id)
    && (!req.CreateRequest? ==> req.id in docs && docs[req.id].tenantId == req.tenantId)
  }

  /** The store has not answered yet. */
  predicate Open(phase: Phase) {
    phase.Waiting? || phase.Loaded?
  }

  ghost predicate SessionOk(parse: UrlParser, docs: Store, req: Request, phase: Phase) {
    && (Open(phase) ==> Fresh(docs, req))
    && (phase.Loaded? || phase.Saved? ==> Holds(parse, docs, req, phase.copy))
  }

  ghost predicate Sound(parse: UrlParser, requests: seq<Request>, w: World) {
    && |w.phases| == |requests|
    && StoreOk(parse, w.docs)
    && forall k | 0 <= k < |requests| :: SessionOk(parse, w.docs, requests[k], w.phases[k])
  }

  lemma ReadHolds(parse: UrlParser, docs: Store, req: Request)
    requires Normalising(parse) && StoreOk(parse, docs) && Fresh(docs, req) && Prepare(parse, docs, req).Ok?
    ensures Holds(parse, docs, req, Prepare(parse, docs, req).value)
  {
    PreparedOk(parse, docs, req);
  }

  lemma SaveKeepsStoreOk(parse: UrlParser, docs: Store, a: Aggregate)
    requires StoreOk(parse, docs) && FieldsOk(parse, ToDocument(a))
    ensures StoreOk(parse, Commit(docs, a).docs)
  {
    CommitKeepsUnique(docs, a);
  }

  /** What one session saves leaves every other session's standing as it was. */
  lemma SaveKeepsSession(parse: UrlParser, docs: Store, a: Aggregate, req: Request, phase: Phase)
    requires SessionOk(parse, docs, req, phase)
    requires a.id in docs ==> docs[a.id].tenantId == a.tenantId
    requires req.CreateRequest? && Open(phase) ==> a.id != req.freshId
    ensures SessionOk(parse, Commit(docs, a).docs, req, phase)
  {
  }

  lemma SoundStep(parse: UrlParser, requests: seq<Request>, w: World, step: Step)
    requires Normalising(parse) && DistinctIds(requests) && Sound(parse, requests, w)
    ensures Sound(parse, requests, Apply(parse, requests, w, step))
  {
    if Enabled(w, step) {
      var k := step.session;
      assert SessionOk(parse, w.docs, requests[k], w.phases[k]);
      if step.Read? {
        if Prepare(parse, w.docs, requests[k]).Ok? {
          ReadHolds(parse, w.docs, requests[k]);
        }
      } else if step.Save? {
        SoundSave(parse, requests, w, k);
      }
    }
  }

  lemma SoundSave(parse: UrlParser, requests: seq<Request>, w: World, k: nat)
    requires DistinctIds(requests) && Sound(parse, requests, w) && k < |requests| && w.phases[k].Loaded?
    ensures Sound(parse, requests, Apply(parse, requests, w, Save(k)))
  {
    var a := w.phases[k].copy;
    assert SessionOk(parse, w.docs, requests[k], w.phases[k]);
    SaveKeepsStoreOk(parse, w.docs, a);
    var after := Apply(parse, requests, w, Save(k));
    forall j | 0 <= j < |requests| ensures SessionOk(parse, after.docs, requests[j], after.phases[j]) {
      if j != k {
        assert SessionOk(parse, w.docs, requests[j], w.phases[j]);
        SaveKeepsSession(parse, w.docs, a, requests[j], w.phases[j]);
      }
    }
  }

  lemma {:induction false} SoundRun(parse: UrlParser, requests: seq<Request>, w: World, steps: seq<Step>)
    requires Normalising(parse) && DistinctIds(requests) && Sound(parse, requests, w)
    ensures Sound(parse, requests, Run(parse, requests, w, steps))
    decreases |steps|
  {
    if steps != [] {
      SoundRun(parse, requests, w, steps[..|steps| - 1]);
      SoundStep(parse, requests, Run(parse, requests, w, steps[..|steps| - 1]), steps[|steps| - 1]);
    }
  }

  /** In every interleaving every stored URL is public and its own normal form. */
  lemma {:induction false} PublicInEveryInterleaving(parse: UrlParser, requests: seq<Request>, docs: Store,
                                                     steps: seq<Step>, id: string)
    requires Normalising(parse) && DistinctIds(requests)
    requires StoreOk(parse, docs) && forall k | 0 <= k < |requests| :: Fresh(docs, requests[k])
    ensures var after := Run(parse, requests, Begin(docs, |requests|), steps).docs;
            id in after ==> && parse(after[id].targetUrl).Some? && PublicUrl(parse(after[id].targetUrl).value)
                            && parse(after[id].targetUrl).value.href == after[id].targetUrl
  {
    SoundRun(parse, requests, Begin(docs, |requests|), steps);
    var after := Run(parse, requests, Begin(docs, |requests|), steps).docs;
    if id in after {
      assert StoredUrl(parse, after[id].targetUrl);
    }
  }

  /** No interleaving, overlapping or not, breaks the uniqueness of (tenantId, targetUrl). */
  lemma {:induction false} UniqueInEveryInterleaving(parse: UrlParser, requests: seq<Request>, w: World, steps: seq<Step>)
    requires |requests| == |w.phases| && UniqueUrls(w.docs)
    ensures UniqueUrls(Run(parse, requests, w, steps).docs)
    decreases |steps|
  {
    if steps != [] {
      UniqueInEveryInterleaving(parse, requests, w, steps[..|steps| - 1]);
      var before, step := Run(parse, requests, w, steps[..|steps| - 1]), steps[|steps| - 1];
      if Enabled(before, step) && step.Save? {
        CommitKeepsUnique(before.docs, before.phases[step.session].copy);
      }
    }
  }

  /** Nor does any interleaving of one tenant's sessions touch another tenant's records. */
  lemma {:induction false} TenantFrameInEveryInterleaving(parse: UrlParser, requests: seq<Request>, w: World,
                                                          steps: seq<Step>, t: string)
    requires Normalising(parse) && DistinctIds(requests) && Sound(parse, requests, w)
    requires forall k | 0 <= k < |requests| :: requests[k].tenantId == t
    ensures Others(Run(parse, requests, w, steps).docs, t) == Others(w.docs, t)
    decreases |steps|
  {
    if steps != [] {
      TenantFrameInEveryInterleaving(parse, requests, w, steps[..|steps| - 1], t);
      SoundRun(parse, requests, w, steps[..|steps| - 1]);
      TenantFrameOfStep(parse, requests, Run(parse, requests, w, steps[..|steps| - 1]), steps[|steps| - 1], t);
    }
  }

  lemma TenantFrameOfStep(parse: UrlParser, requests: seq<Request>, w: World, step: Step, t: string)
    requires Sound(parse, requests, w) && forall k | 0 <= k < |requests| :: requests[k].tenantId == t
    ensures Others(Apply(parse, requests, w, step).docs, t) == Others(w.docs, t)
  {
    if Enabled(w, step) && step.Save? {
      assert SessionOk(parse, w.docs, requests[step.session], w.phases[step.session]);
      OthersAfterSave(w.docs, ToDocument(w.phases[step.session].copy));
    }
  }

  /** Tenant t's steps of an interleaving. */
  function StepsOf(requests: seq<Request>, steps: seq<Step>, t: string): seq<Step> {
    if steps == [] then []
    else
      var front, step := StepsOf(requests, steps[..|steps| - 1], t), steps[|steps| - 1];
      if Own(requests, step, t) then front + [step] else front
  }

  predicate Own(requests: seq<Request>, step: Step, t: string) {
    step.session < |requests| && requests[step.session].tenantId == t
  }

  /** Two worlds that tenant t cannot tell apart: the same records of its own, its sessions at the same point. */
  predicate SameFor(requests: seq<Request>, a: World, b: World, t: string)
    requires |requests| == |a.phases| == |b.phases|
  {
    && Mine(a.docs, t) == Mine(b.docs, t)
    && forall k | 0 <= k < |requests| && requests[k].tenantId == t :: a.phases[k] == b.phases[k]
  }

  lemma SameForOwnStep(parse: UrlParser, requests: seq<Request>, a: World, b: World, step: Step, t: string)
    requires Sound(parse, requests, a) && Sound(parse, requests, b) && SameFor(requests, a, b, t)
    requires Own(requests, step, t)
    ensures SameFor(requests, Apply(parse, requests, a, step), Apply(parse, requests, b, step), t)
  {
    if Enabled(a, step) {
      match step {
        case Read(k) => SamePrepare(parse, a.docs, b.docs, requests[k]);
        case Save(k) => SameForSave(parse, requests, a, b, k, t);
        case Publish(_) =>
      }
    }
  }

  lemma SameForSave(parse: UrlParser, requests: seq<Request>, a: World, b: World, k: nat, t: string)
    requires Sound(parse, requests, a) && Sound(parse, requests, b) && SameFor(requests, a, b, t)
    requires k < |requests| && requests[k].tenantId == t && Enabled(a, Save(k))
    ensures SameFor(requests, Apply(parse, requests, a, Save(k)), Apply(parse, requests, b, Save(k)), t)
  {
    assert SessionOk(parse, a.docs, requests[k], a.phases[k]);
    var r := ToDocument(a.phases[k].copy);
    SameClash(a.docs, b.docs, r);
    MineAfterSave(a.docs, r);
    MineAfterSave(b.docs, r);
  }

  /** Another tenant's step shows to t in nothing. */
  lemma SameForOtherStep(parse: UrlParser, requests: seq<Request>, a: World, b: World, step: Step, t: string)
    requires Sound(parse, requests, a) && |b.phases| == |requests| && SameFor(requests, a, b, t)
    requires !Own(requests, step, t)
    ensures SameFor(requests, Apply(parse, requests, a, step), b, t)
  {
    if Enabled(a, step) && step.Save? {
      var k := step.session;
      assert SessionOk(parse, a.docs, requests[k], a.phases[k]);
      OthersAfterSave(a.docs, ToDocument(a.phases[k].copy));
      MineAmongOthers(a.docs, Apply(parse, requests, a, step).docs, requests[k].tenantId, t);
    }
  }

  /** In every interleaving of any number of tenants' sessions, overlapping or not, each tenant's records and
      sessions end as in the run of its own steps alone. */
  lemma {:induction false} InterleavingsDoNotInterfere(parse: UrlParser, requests: seq<Request>, w: World,
                                                       steps: seq<Step>, t: string)
    requires Normalising(parse) && DistinctIds(requests) && Sound(parse, requests, w)
    ensures SameFor(requests, Run(parse, requests, w, steps), Run(parse, requests, w, StepsOf(requests, steps, t)), t)
    decreases |steps|
  {
    if steps != [] {
      var front, step := steps[..|steps| - 1], steps[|steps| - 1];
      var own := StepsOf(requests, front, t);
      var a, b := Run(parse, requests, w, front), Run(parse, requests, w, own);
      InterleavingsDoNotInterfere(parse, requests, w, front, t);
      SoundRun(parse, requests, w, front);
      if Own(requests, step, t) {
        SoundRun(parse, requests, w, own);
        RunAppend(parse, requests, w, own, step);
        SameForOwnStep(parse, requests, a, b, step, t);
      } else {
        SameForOtherStep(parse, requests, a, b, step, t);
      }
    }
  }

  // ---------------------------------------------------------------- deletes

  /** Session k is about to write the record over with something else. */
  predicate Stale(w: World, k: nat, id: string)
    requires id in w.docs && k < |w.phases|
  {
    w.phases[k].Loaded? && w.phases[k].copy.id == id && ToDocument(w.phases[k].copy) != w.docs[id]
  }

  predicate NoStaleCopy(w: World, id: string)
    requires id in w.docs
  {
    forall k | 0 <= k < |w.phases| :: !Stale(w, k, id)
  }

  predicate SavableStaleCopy(w: World, id: string)
    requires id in w.docs
  {
    exists k | 0 <= k < |w.phases| :: Stale(w, k, id) && !Clash(w.docs, ToDocument(w.phases[k].copy))
  }

  ghost predicate StillThere(parse: UrlParser, requests: seq<Request>, w: World, steps: seq<Step>, id: string)
    requires |requests| == |w.phases| && id in w.docs
  {
    var after := Run(parse, requests, w, steps).docs;
    id in after && after[id] == w.docs[id]
  }

  lemma DeletedStep(parse: UrlParser, requests: seq<Request>, w: World, step: Step, id: string)
    requires Normalising(parse) && Sound(parse, requests, w)
    requires id in w.docs && w.docs[id].status == Deleted && NoStaleCopy(w, id)
    ensures var after := Apply(parse, requests, w, step);
            id in after.docs && after.docs[id] == w.docs[id] && NoStaleCopy(after, id)
  {
    var after := Apply(parse, requests, w, step);
    assert Enabled(w, step) ==> !Stale(w, step.session, id);
    forall k | 0 <= k < |w.phases| && k != step.session ensures after.phases[k] == w.phases[k] && !Stale(w, k, id) {
    }
    if Enabled(w, step) && step.Read? {
      var req := requests[step.session];
      assert SessionOk(parse, w.docs, req, w.phases[step.session]);
      if Prepare(parse, w.docs, req).Ok? {
        PreparedOk(parse, w.docs, req);
        if Target(req) == id {
          DeletedReadsBack(parse, w.docs, req);
        }
      }
    }
  }

  lemma {:induction false} DeletedRun(parse: UrlParser, requests: seq<Request>, w: World, steps: seq<Step>, id: string)
    requires Normalising(parse) && DistinctIds(requests) && Sound(parse, requests, w)
    requires id in w.docs && w.docs[id].status == Deleted && NoStaleCopy(w, id)
    ensures StillThere(parse, requests, w, steps, id) && NoStaleCopy(Run(parse, requests, w, steps), id)
    decreases |steps|
  {
    if steps != [] {
      var front := steps[..|steps| - 1];
      DeletedRun(parse, requests, w, front, id);
      SoundRun(parse, requests, w, front);
      DeletedStep(parse, requests, Run(parse, requests, w, front), steps[|steps| - 1], id);
    }
  }

  lemma {:induction false} RunOne(parse: UrlParser, requests: seq<Request>, w: World, step: Step)
    requires |requests| == |w.phases|
    ensures Run(parse, requests, w, [step]) == Apply(parse, requests, w, step)
  {
    assert [step][..0] == [];
  }

  /** When DELETED is final under interleaving. It is, in every continuation, if at that moment no session
      holds a different copy of the record; sessions that start later may overlap as they like. It is not if
      some session holds a different copy that the index would let it save. */
  lemma DeletedIsFinalWhen(parse: UrlParser, requests: seq<Request>, w: World, id: string)
    requires Normalising(parse) && DistinctIds(requests) && Sound(parse, requests, w)
    requires id in w.docs && w.docs[id].status == Deleted
    ensures NoStaleCopy(w, id) ==> forall steps: seq<Step> :: StillThere(parse, requests, w, steps, id)
    ensures SavableStaleCopy(w, id) ==> !(forall steps: seq<Step> :: StillThere(parse, requests, w, steps, id))
  {
    if NoStaleCopy(w, id) {
      forall steps: seq<Step> ensures StillThere(parse, requests, w, steps, id) {
        DeletedRun(parse, requests, w, steps, id);
      }
    }
    if SavableStaleCopy(w, id) {
      var step := BreakingSave(parse, requests, w, id);
    }
  }

  lemma BreakingSave(parse: UrlParser, requests: seq<Request>, w: World, id: string) returns (step: Step)
    requires |requests| == |w.phases| && id in w.docs && SavableStaleCopy(w, id)
    ensures !StillThere(parse, requests, w, [step], id)
  {
    var k :| 0 <= k < |w.phases| && Stale(w, k, id) && !Clash(w.docs, ToDocument(w.phases[k].copy));
    step := Save(k);
    RunOne(parse, requests, w, step);
  }

  /** While no session holds a copy with another URL, no index stands in the way and the two meet. */
  lemma DeletedIsFinalIff(parse: UrlParser, requests: seq<Request>, w: World, id: string)
    requires Normalising(parse) && DistinctIds(requests) && Sound(parse, requests, w)
    requires id in w.docs && w.docs[id].status == Deleted
    requires forall k | 0 <= k < |w.phases| && Stale(w, k, id) :: w.phases[k].copy.targetUrl == w.docs[id].targetUrl
    ensures (forall steps: seq<Step> :: StillThere(parse, requests, w, steps, id)) <==> NoStaleCopy(w, id)
  {
    DeletedIsFinalWhen(parse, requests, w, id);
    if k :| 0 <= k < |w.phases| && Stale(w, k, id) {
      assert SessionOk(parse, w.docs, requests[k], w.phases[k]);
      SameUrlNoClash(parse, w.docs, requests[k], w.phases[k].copy);
      assert SavableStaleCopy(w, id);
    }
  }

  /** In the world reached, the record is there and no session could save another copy of it. */
  ghost predicate Unthreatened(parse: UrlParser, requests: seq<Request>, w: World, steps: seq<Step>, id: string)
    requires |requests| == |w.phases|
  {
    var after := Run(parse, requests, w, steps);
    id in after.docs && !SavableStaleCopy(after, id)
  }

  lemma UnthreatenedStep(parse: UrlParser, requests: seq<Request>, w: World, step: Step, id: string)
    requires |requests| == |w.phases| && id in w.docs && !SavableStaleCopy(w, id)
    ensures var after := Apply(parse, requests, w, step).docs; id in after && after[id] == w.docs[id]
  {
    if Enabled(w, step) && step.Save? && w.phases[step.session].copy.id == id {
      assert !(Stale(w, step.session, id) && !Clash(w.docs, ToDocument(w.phases[step.session].copy)));
    }
  }

  lemma {:induction false} UnthreatenedRun(parse: UrlParser, requests: seq<Request>, w: World, steps: seq<Step>, id: string)
    requires |requests| == |w.phases| && id in w.docs
    requires forall some: seq<Step> :: Unthreatened(parse, requests, w, some, id)
    ensures StillThere(parse, requests, w, steps, id)
    decreases |steps|
  {
    if steps != [] {
      var front := steps[..|steps| - 1];
      UnthreatenedRun(parse, requests, w, front, id);
      assert Unthreatened(parse, requests, w, front, id);
      UnthreatenedStep(parse, requests, Run(parse, requests, w, front), steps[|steps| - 1], id);
    }
  }

  /** In general a record is final exactly when no continuation reaches a session that could save a different
      copy of it: also one that the index refuses now and accepts once its URL is free again. */
  lemma FinalIffNeverSavable(parse: UrlParser, requests: seq<Request>, w: World, id: string)
    requires |requests| == |w.phases| && id in w.docs
    ensures (forall steps: seq<Step> :: StillThere(parse, requests, w, steps, id))
            <==> (forall steps: seq<Step> :: Unthreatened(parse, requests, w, steps, id))
  {
    if forall steps: seq<Step> :: Unthreatened(parse, requests, w, steps, id) {
      forall steps: seq<Step> ensures StillThere(parse, requests, w, steps, id) {
        UnthreatenedRun(parse, requests, w, steps, id);
      }
    }
    if forall steps: seq<Step> :: StillThere(parse, requests, w, steps, id) {
      forall steps: seq<Step> ensures Unthreatened(parse, requests, w, steps, id) {
        FinalIsUnthreatened(parse, requests, w, steps, id);
      }
    }
  }

  lemma FinalIsUnthreatened(parse: UrlParser, requests: seq<Request>, w: World, steps: seq<Step>, id: string)
    requires |requests| == |w.phases| && id in w.docs
    requires forall some: seq<Step> :: StillThere(parse, requests, w, some, id)
    ensures Unthreatened(parse, requests, w, steps, id)
  {
    assert StillThere(parse, requests, w, steps, id);
    var after := Run(parse, requests, w, steps);
    forall k | 0 <= k < |after.phases|
      ensures !(Stale(after, k, id) && !Clash(after.docs, ToDocument(after.phases[k].copy)))
    {
      RunAppend(parse, requests, w, steps, Save(k));
      assert StillThere(parse, requests, w, steps + [Save(k)], id);
    }
  }

  /** The record's own URL is nobody else's. */
  lemma SameUrlNoClash(parse: UrlParser, docs: Store, req: Request, copy: Aggregate)
    requires StoreOk(parse, docs) && Holds(parse, docs, req, copy) && Fresh(docs, req)
    requires copy.id in docs && docs[copy.id].targetUrl == copy.targetUrl
    ensures !Clash(docs, ToDocument(copy))
  {
  }

  lemma {:induction false} ServeTwo(parse: UrlParser, docs: Store, first: Request, second: Request)
    ensures ServeAll(parse, docs, [first, second]).0 == Serve(parse, Serve(parse, docs, first).docs, second).docs
  {
    assert [first, second][..1] == [first] && [first][..0] == [];
    assert ServeAll(parse, docs, [first]).0 == Serve(parse, docs, first).docs;
  }

  /** One step further along a run. */
  lemma {:induction false} RunThen(parse: UrlParser, requests: seq<Request>, w: World, before: seq<Step>, middle: World,
                                   step: Step, steps: seq<Step>)
    requires |requests| == |w.phases| && Run(parse, requests, w, before) == middle && steps == before + [step]
    ensures Run(parse, requests, w, steps) == Apply(parse, requests, middle, step)
  {
    RunAppend(parse, requests, w, before, step);
  }

  /** The only record of its collection meets no clash. */
  lemma AloneSaves(r: SubscriptionRecord, a: Aggregate)
    requires a.id == r.id
    ensures Commit(map[r.id := r], a) == Served(map[r.id := ToDocument(a)], a.domainEvents, Ok(a.Drained()))
  {
  }

  function PauseRequest(r: SubscriptionRecord, now: int): Request {
    UpdateRequest(r.id, r.tenantId, None, None, Some(Paused), now, now, now)
  }

  /** Both requests, each prepared on the active record. */
  lemma BothPrepare(parse: UrlParser, r: SubscriptionRecord, now: int)
    requires FieldsOk(parse, r) && |r.targetUrl| <= MAX_LENGTH && r.status != Deleted
    ensures var delete := Prepare(parse, map[r.id := r], DeleteRequest(r.id, r.tenantId, now));
            delete.Ok? && ToDocument(delete.value) == r.(status := Deleted, updatedAt := now)
    ensures var pause := Prepare(parse, map[r.id := r], PauseRequest(r, now));
            if r.status == Active then pause.Ok? && ToDocument(pause.value) == r.(status := Paused, updatedAt := now)
            else pause.Err?
  {
    RecordRoundTrip(parse, r);
    PatchComputes(parse, ToAggregate(parse, r).value, PauseRequest(r, now));
  }

  lemma DeletedRefusesPause(parse: UrlParser, r: SubscriptionRecord, now: int)
    requires FieldsOk(parse, r) && r.status == Deleted
    ensures Prepare(parse, map[r.id := r], PauseRequest(r, now)).Err?
  {
    RecordRoundTrip(parse, r);
  }

  lemma SerialOrders(parse: UrlParser, r: SubscriptionRecord, now: int)
    requires FieldsOk(parse, r) && |r.targetUrl| <= MAX_LENGTH && r.status == Active
    ensures var pause, delete := PauseRequest(r, now), DeleteRequest(r.id, r.tenantId, now);
            var docs: Store := map[r.id := r];
            && ServeAll(parse, docs, [pause, delete]).0 == map[r.id := r.(status := Deleted, updatedAt := now)]
            && ServeAll(parse, docs, [delete, pause]).0 == map[r.id := r.(status := Deleted, updatedAt := now)]
  {
    var pause, delete := PauseRequest(r, now), DeleteRequest(r.id, r.tenantId, now);
    var docs: Store := map[r.id := r];
    var paused, deleted := r.(status := Paused, updatedAt := now), r.(status := Deleted, updatedAt := now);
    BothPrepare(parse, r, now);
    BothPrepare(parse, paused, now);
    DeletedRefusesPause(parse, deleted, now);
    AloneSaves(r, Prepare(parse, docs, pause).value);
    AloneSaves(r, Prepare(parse, docs, delete).value);
    AloneSaves(paused, Prepare(parse, map[r.id := paused], delete).value);
    ServeTwo(parse, docs, pause, delete);
    ServeTwo(parse, docs, delete, pause);
  }

  const OVERLAP := [Read(0), Read(1), Save(1), Publish(1), Save(0), Publish(0)]

  /** The failing schedule, for every active readable record: a pause read before the delete and saved after
      it. Both report success, the record ends up paused and its events are published in an order no history
      has; in either serial order it ends up deleted. */
  lemma OverlapRevivesDeleted(parse: UrlParser, r: SubscriptionRecord, now: int)
    requires FieldsOk(parse, r) && |r.targetUrl| <= MAX_LENGTH && r.status == Active
    ensures var requests := [PauseRequest(r, now), DeleteRequest(r.id, r.tenantId, now)];
            var docs: Store := map[r.id := r];
            var after := Run(parse, requests, World(docs, [Waiting, Waiting], []), OVERLAP);
            && after.phases[0].Finished? && after.phases[0].outcome.Ok? && after.phases[0].outcome.value.status == Paused
            && after.phases[1].Finished? && after.phases[1].outcome.Ok? && after.phases[1].outcome.value.status == Deleted
            && after.docs == map[r.id := r.(status := Paused, updatedAt := now)]
            && Kinds(after.published) == [SubscriptionDeleted, SubscriptionPaused]
            && ServeAll(parse, docs, requests).0 == map[r.id := r.(status := Deleted, updatedAt := now)]
            && ServeAll(parse, docs, [requests[1], requests[0]]).0 == map[r.id := r.(status := Deleted, updatedAt := now)]
  {
    var requests := [PauseRequest(r, now), DeleteRequest(r.id, r.tenantId, now)];
    var docs: Store := map[r.id := r];
    SerialOrders(parse, r, now);
    BothPrepare(parse, r, now);
    BothEvents(parse, r, now);
    var pause, delete := Prepare(parse, docs, requests[0]).value, Prepare(parse, docs, requests[1]).value;
    OverlappingSchedule(parse, r, requests, pause, delete);
  }

  lemma BothEvents(parse: UrlParser, r: SubscriptionRecord, now: int)
    requires FieldsOk(parse, r) && |r.targetUrl| <= MAX_LENGTH && r.status == Active
    ensures var pause := Prepare(parse, map[r.id := r], PauseRequest(r, now));
            var delete := Prepare(parse, map[r.id := r], DeleteRequest(r.id, r.tenantId, now));
            pause.Ok? && delete.Ok?
            && Kinds(delete.value.domainEvents + pause.value.domainEvents) == [SubscriptionDeleted, SubscriptionPaused]
  {
    BothPrepare(parse, r, now);
    PatchComputes(parse, ToAggregate(parse, r).value, PauseRequest(r, now));
  }

  lemma {:induction false} OverlappingReads(parse: UrlParser, requests: seq<Request>, docs: Store,
                                            first: Aggregate, second: Aggregate)
    requires |requests| == 2
    ensures Prepare(parse, docs, requests[0]) == Ok(first) && Prepare(parse, docs, requests[1]) == Ok(second) ==>
              Run(parse, requests, World(docs, [Waiting, Waiting], []), OVERLAP[..2])
              == World(docs, [Loaded(first), Loaded(second)], [])
  {
    if Prepare(parse, docs, requests[0]) == Ok(first) && Prepare(parse, docs, requests[1]) == Ok(second) {
      var w := World(docs, [Waiting, Waiting], []);
      RunOne(parse, requests, w, Read(0));
      RunThen(parse, requests, w, [Read(0)], World(docs, [Loaded(first), Waiting], []), Read(1), OVERLAP[..2]);
    }
  }

  lemma {:induction false} OverlappingSchedule(parse: UrlParser, r: SubscriptionRecord, requests: seq<Request>,
                                               first: Aggregate, second: Aggregate)
    requires |requests| == 2 && first.id == r.id && second.id == r.id
    ensures var docs: Store := map[r.id := r];
            Prepare(parse, docs, requests[0]) == Ok(first) && Prepare(parse, docs, requests[1]) == Ok(second) ==>
              Run(parse, requests, World(docs, [Waiting, Waiting], []), OVERLAP)
              == World(map[r.id := ToDocument(first)],
                       [Finished(Ok(first.Drained())), Finished(Ok(second.Drained()))],
                       second.domainEvents + first.domainEvents)
  {
    var docs: Store := map[r.id := r];
    if Prepare(parse, docs, requests[0]) == Ok(first) && Prepare(parse, docs, requests[1]) == Ok(second) {
      var w := World(docs, [Waiting, Waiting], []);
      var w2 := World(docs, [Loaded(first), Loaded(second)], []);
      var w3 := World(map[r.id := ToDocument(second)], [Loaded(first), Saved(second)], []);
      var w4 := w3.(phases := [Loaded(first), Finished(Ok(second.Drained()))], published := second.domainEvents);
      var w5 := w4.(docs := map[r.id := ToDocument(first)], phases := [Saved(first), Finished(Ok(second.Drained()))]);
      AloneSaves(r, second);
      AloneSaves(ToDocument(second), first);
      OverlappingReads(parse, requests, docs, first, second);
      RunThen(parse, requests, w, OVERLAP[..2], w2, Save(1), OVERLAP[..3]);
      RunThen(parse, requests, w, OVERLAP[..3], w3, Publish(1), OVERLAP[..4]);
      RunThen(parse, requests, w, OVERLAP[..4], w4, Save(0), OVERLAP[..5]);
      RunThen(parse, requests, w, OVERLAP[..5], w5, Publish(0), OVERLAP);
    }
  }

  // ---------------------------------------------------------------- serialisation

  /** The step decides its session's outcome: at its read if that fails, otherwise at its save. */
  ghost predicate Ends(parse: UrlParser, requests: seq<Request>, w: World, step: Step)
    requires |requests| == |w.phases|
  {
    Enabled(w, step) && (step.Save? || (step.Read? && Prepare(parse, w.docs, requests[step.session]).Err?))
  }

  /** What a session whose outcome is decided hands back, at once or once it has published. */
  function Outcome(phase: Phase): Result<Aggregate, UseCaseError>
    requires !Open(phase)
  {
    if phase.Saved? then Ok(phase.copy.Drained()) else phase.outcome
  }

  predicate InRange(order: seq<nat>, n: nat) {
    forall i | 0 <= i < |order| :: order[i] < n
  }

  /** The sessions in the order in which their outcomes are decided. */
  ghost function EndOrder(parse: UrlParser, requests: seq<Request>, w: World, steps: seq<Step>): (order: seq<nat>)
    requires |requests| == |w.phases|
    ensures InRange(order, |requests|)
    decreases |steps|
  {
    if steps == [] then []
    else
      var front, step := steps[..|steps| - 1], steps[|steps| - 1];
      EndOrder(parse, requests, w, front)
      + (if Ends(parse, requests, Run(parse, requests, w, front), step) then [step.session] else [])
  }

  function InOrder(requests: seq<Request>, order: seq<nat>): seq<Request>
    requires InRange(order, |requests|)
  {
    seq(|order|, i requires 0 <= i < |order| => requests[order[i]])
  }

  /** The same result; only a create that lost a race at the index fails there instead of at the check. */
  predicate Agree(req: Request, interleaved: Phase, serial: Result<Aggregate, UseCaseError>) {
    && !Open(interleaved)
    && (Outcome(interleaved) == serial
        || (req.CreateRequest? && Outcome(interleaved) == Err(IndexConflict) && serial.Err?))
  }

  /** Each session of the order has the result it would have when they are served one by one. */
  ghost predicate AllAgree(parse: UrlParser, requests: seq<Request>, docs: Store, order: seq<nat>, phases: seq<Phase>)
    requires InRange(order, |requests|) && |phases| == |requests|
    decreases |order|
  {
    order != [] ==>
      var front, k := order[..|order| - 1], order[|order| - 1];
      && AllAgree(parse, requests, docs, front, phases)
      && Agree(requests[k], phases[k],
               Serve(parse, ServeAll(parse, docs, InOrder(requests, front)).0, requests[k]).result)
  }

  /** The private copy is what preparing again would give, but for a URL taken meanwhile. */
  ghost predicate Current(parse: UrlParser, docs: Store, req: Request, copy: Aggregate) {
    if req.CreateRequest? then
      && !IsBlank(req.tenantId)
      && Url(parse, req.targetUrl) == Ok(copy.targetUrl)
      && NewAggregate(req, copy.targetUrl) == Ok(copy)
    else Prepare(parse, docs, req) == Ok(copy)
  }

  /** The step changes the record under session k, which holds a copy of it. */
  ghost predicate Overtakes(parse: UrlParser, requests: seq<Request>, w: World, step: Step, k: nat)
    requires |requests| == |w.phases| && k < |requests|
  {
    && Enabled(w, step) && step.Save? && step.session != k
    && w.phases[k].Loaded? && Target(requests[k]) == Target(requests[step.session])
    && Apply(parse, requests, w, step).docs != w.docs
  }

  /** The sessions whose copy of a record another session's save has overtaken. */
  ghost function Overtaken(parse: UrlParser, requests: seq<Request>, w: World, steps: seq<Step>): set<nat>
    requires |requests| == |w.phases|
    decreases |steps|
  {
    if steps == [] then {}
    else
      var front, step := steps[..|steps| - 1], steps[|steps| - 1];
      var before := Run(parse, requests, w, front);
      set k: nat | k < |requests|
                   && (k in Overtaken(parse, requests, w, front) || Overtakes(parse, requests, before, step, k))
  }

  /** No session saves a copy that has been overtaken. Reads may happen at any time, and a session that never
      gets to its save, or to its publish, stands in nobody's way. */
  ghost predicate NoStaleSave(parse: UrlParser, requests: seq<Request>, w: World, steps: seq<Step>)
    requires |requests| == |w.phases|
    decreases |steps|
  {
    steps != [] ==>
      var front, step := steps[..|steps| - 1], steps[|steps| - 1];
      && NoStaleSave(parse, requests, w, front)
      && (Enabled(Run(parse, requests, w, front), step) && step.Save? ==>
            step.session !in Overtaken(parse, requests, w, front))
  }

  /** Every private copy is current, but for the sessions gone. */
  ghost predicate CurrentBut(parse: UrlParser, requests: seq<Request>, w: World, gone: set<nat>)
    requires |requests| == |w.phases|
  {
    forall k | 0 <= k < |requests| && w.phases[k].Loaded? && k !in gone ::
      Current(parse, w.docs, requests[k], w.phases[k].copy)
  }

  /** If the step is a save, it saves a current copy. */
  ghost predicate SavesCurrent(parse: UrlParser, requests: seq<Request>, w: World, step: Step)
    requires |requests| == |w.phases|
  {
    Enabled(w, step) && step.Save? ==>
      Current(parse, w.docs, requests[step.session], w.phases[step.session].copy)
  }

  lemma ReadIsCurrent(parse: UrlParser, docs: Store, req: Request)
    requires Prepare(parse, docs, req).Ok?
    ensures Current(parse, docs, req, Prepare(parse, docs, req).value)
  {
  }

  /** A save of another record leaves a copy current. */
  lemma CurrentFrame(parse: UrlParser, docs: Store, r: SubscriptionRecord, req: Request, copy: Aggregate)
    requires Current(parse, docs, req, copy) && r.id != Target(req)
    ensures Current(parse, docs[r.id := r], req, copy)
  {
    if !req.CreateRequest? {
      assert FindById(docs[r.id := r], req.id, req.tenantId) == FindById(docs, req.id, req.tenantId);
    }
  }

  lemma CurrentAfterCommit(parse: UrlParser, docs: Store, a: Aggregate, req: Request, copy: Aggregate)
    requires Current(parse, docs, req, copy) && a.id != Target(req)
    ensures Current(parse, Commit(docs, a).docs, req, copy)
  {
    CurrentFrame(parse, docs, ToDocument(a), req, copy);
  }

  /** Saving a current copy is serving the request now. */
  lemma SaveIsServe(parse: UrlParser, docs: Store, req: Request, copy: Aggregate)
    requires Current(parse, docs, req, copy) && Fresh(docs, req)
    ensures Serve(parse, docs, req).docs == Commit(docs, copy).docs
    ensures Serve(parse, docs, req).events == Commit(docs, copy).events
    ensures Agree(req, Finished(Commit(docs, copy).result), Serve(parse, docs, req).result)
  {
    if req.CreateRequest? {
      TakenIsClash(docs, ToDocument(copy));
    }
  }

  lemma CurrentRead(parse: UrlParser, requests: seq<Request>, w: World, k: nat, gone: set<nat>)
    requires |requests| == |w.phases| && CurrentBut(parse, requests, w, gone) && Enabled(w, Read(k))
    ensures CurrentBut(parse, requests, Apply(parse, requests, w, Read(k)), gone)
  {
    if Prepare(parse, w.docs, requests[k]).Ok? {
      ReadIsCurrent(parse, w.docs, requests[k]);
    }
  }

  /** Session j's copy stays current under another session's save that does not overtake it. */
  lemma CurrentUnder(parse: UrlParser, requests: seq<Request>, w: World, k: nat, j: nat)
    requires Sound(parse, requests, w) && Enabled(w, Save(k)) && j < |requests| && j != k && w.phases[j].Loaded?
    requires Current(parse, w.docs, requests[j], w.phases[j].copy) && !Overtakes(parse, requests, w, Save(k), j)
    ensures Current(parse, Apply(parse, requests, w, Save(k)).docs, requests[j], w.phases[j].copy)
  {
    assert SessionOk(parse, w.docs, requests[k], w.phases[k]);
    if Apply(parse, requests, w, Save(k)).docs != w.docs {
      CurrentAfterCommit(parse, w.docs, w.phases[k].copy, requests[j], w.phases[j].copy);
    }
  }

  lemma CurrentSave(parse: UrlParser, requests: seq<Request>, w: World, k: nat, gone: set<nat>, more: set<nat>)
    requires Sound(parse, requests, w) && CurrentBut(parse, requests, w, gone) && Enabled(w, Save(k))
    requires forall j: nat | j < |requests| && (j in gone || Overtakes(parse, requests, w, Save(k), j)) :: j in more
    ensures CurrentBut(parse, requests, Apply(parse, requests, w, Save(k)), more)
  {
    var after := Apply(parse, requests, w, Save(k));
    forall j | 0 <= j < |requests| && after.phases[j].Loaded? && j !in more
      ensures Current(parse, after.docs, requests[j], after.phases[j].copy)
    {
      assert j != k && after.phases[j] == w.phases[j];
      CurrentUnder(parse, requests, w, k, j);
    }
  }

  lemma CurrentStep(parse: UrlParser, requests: seq<Request>, w: World, step: Step, gone: set<nat>, more: set<nat>)
    requires Sound(parse, requests, w) && CurrentBut(parse, requests, w, gone)
    requires forall j: nat | j < |requests| && (j in gone || Overtakes(parse, requests, w, step, j)) :: j in more
    ensures CurrentBut(parse, requests, Apply(parse, requests, w, step), more)
  {
    if Enabled(w, step) {
      match step {
        case Read(k) => CurrentRead(parse, requests, w, k, gone);
        case Save(k) => CurrentSave(parse, requests, w, k, gone, more);
        case Publish(_) =>
      }
    }
  }

  /** In every interleaving, the copies that nobody has overtaken are current. */
  lemma {:induction false} CurrentRun(parse: UrlParser, requests: seq<Request>, w: World, steps: seq<Step>)
    requires Normalising(parse) && DistinctIds(requests) && Sound(parse, requests, w)
    requires CurrentBut(parse, requests, w, {})
    ensures CurrentBut(parse, requests, Run(parse, requests, w, steps), Overtaken(parse, requests, w, steps))
    decreases |steps|
  {
    if steps != [] {
      var front := steps[..|steps| - 1];
      CurrentRun(parse, requests, w, front);
      SoundRun(parse, requests, w, front);
      CurrentStep(parse, requests, Run(parse, requests, w, front), steps[|steps| - 1],
                  Overtaken(parse, requests, w, front), Overtaken(parse, requests, w, steps));
    }
  }

  /** A run without stale saves saves only current copies. */
  lemma {:induction false} LastSavesCurrent(parse: UrlParser, requests: seq<Request>, w: World, steps: seq<Step>)
    requires Normalising(parse) && DistinctIds(requests) && Sound(parse, requests, w)
    requires CurrentBut(parse, requests, w, {}) && steps != [] && NoStaleSave(parse, requests, w, steps)
    ensures var before := Run(parse, requests, w, steps[..|steps| - 1]);
            Sound(parse, requests, before) && SavesCurrent(parse, requests, before, steps[|steps| - 1])
  {
    CurrentRun(parse, requests, w, steps[..|steps| - 1]);
    SoundRun(parse, requests, w, steps[..|steps| - 1]);
  }

  lemma InOrderAppend(requests: seq<Request>, order: seq<nat>, k: nat)
    requires InRange(order, |requests|) && k < |requests|
    ensures InRange(order + [k], |requests|)
    ensures InOrder(requests, order + [k]) == InOrder(requests, order) + [requests[k]]
  {
  }

  lemma {:induction false} ServeAllAppend(parse: UrlParser, docs: Store, reqs: seq<Request>, req: Request)
    ensures ServeAll(parse, docs, reqs + [req]).0 == Serve(parse, ServeAll(parse, docs, reqs).0, req).docs
    ensures ServeAll(parse, docs, reqs + [req]).1
            == ServeAll(parse, docs, reqs).1 + Serve(parse, ServeAll(parse, docs, reqs).0, req).events
    ensures FreshRun(parse, docs, reqs + [req])
            <==> FreshRun(parse, docs, reqs) && Fresh(ServeAll(parse, docs, reqs).0, req)
  {
    assert (reqs + [req])[..|reqs|] == reqs;
  }

  /** The serial run that the interleaving is compared with. */
  ghost function Serial(parse: UrlParser, requests: seq<Request>, w: World, steps: seq<Step>): seq<Request>
    requires |requests| == |w.phases|
  {
    InOrder(requests, EndOrder(parse, requests, w, steps))
  }

  lemma {:induction false} SerialLast(parse: UrlParser, requests: seq<Request>, w: World, steps: seq<Step>)
    requires |requests| == |w.phases| && steps != []
    ensures var front, step := steps[..|steps| - 1], steps[|steps| - 1];
            Serial(parse, requests, w, steps)
            == if Ends(parse, requests, Run(parse, requests, w, front), step)
               then Serial(parse, requests, w, front) + [requests[step.session]]
               else Serial(parse, requests, w, front)
  {
    var front, step := steps[..|steps| - 1], steps[|steps| - 1];
    if Ends(parse, requests, Run(parse, requests, w, front), step) {
      InOrderAppend(requests, EndOrder(parse, requests, w, front), step.session);
    }
  }

  /** A session that has ended keeps its outcome. */
  lemma {:induction false} AgreementStays(parse: UrlParser, requests: seq<Request>, docs: Store, order: seq<nat>,
                                          w: World, step: Step)
    requires |requests| == |w.phases| && InRange(order, |requests|)
    requires AllAgree(parse, requests, docs, order, w.phases)
    ensures AllAgree(parse, requests, docs, order, Apply(parse, requests, w, step).phases)
    decreases |order|
  {
    if order != [] {
      AgreementStays(parse, requests, docs, order[..|order| - 1], w, step);
    }
  }

  /** Ending a session here and now is serving its request here and now. */
  lemma EndIsServe(parse: UrlParser, requests: seq<Request>, w: World, step: Step)
    requires Sound(parse, requests, w) && SavesCurrent(parse, requests, w, step)
    ensures var after := Apply(parse, requests, w, step);
            if Ends(parse, requests, w, step) then
              var req := requests[step.session];
              && Fresh(w.docs, req)
              && after.docs == Serve(parse, w.docs, req).docs
              && Agree(req, after.phases[step.session], Serve(parse, w.docs, req).result)
            else after.docs == w.docs
  {
    if Ends(parse, requests, w, step) {
      var k := step.session;
      assert SessionOk(parse, w.docs, requests[k], w.phases[k]);
      if step.Save? {
        SaveIsServe(parse, w.docs, requests[k], w.phases[k].copy);
      }
    }
  }

  /** The world w has done what serving the sessions of order one by one, from docs, does. */
  ghost predicate Serialised(parse: UrlParser, requests: seq<Request>, docs: Store, order: seq<nat>, w: World)
    requires InRange(order, |requests|) && |w.phases| == |requests|
  {
    && w.docs == ServeAll(parse, docs, InOrder(requests, order)).0
    && AllAgree(parse, requests, docs, order, w.phases)
    && FreshRun(parse, docs, InOrder(requests, order))
  }

  lemma {:induction false} SerialisedAppend(parse: UrlParser, requests: seq<Request>, docs: Store,
                                        order: seq<nat>, before: World, after: World, k: nat)
    requires InRange(order, |requests|) && k < |requests| && |before.phases| == |after.phases| == |requests|
    requires Serialised(parse, requests, docs, order, before) && AllAgree(parse, requests, docs, order, after.phases)
    requires Fresh(before.docs, requests[k]) && after.docs == Serve(parse, before.docs, requests[k]).docs
    requires Agree(requests[k], after.phases[k], Serve(parse, before.docs, requests[k]).result)
    ensures InRange(order + [k], |requests|) && Serialised(parse, requests, docs, order + [k], after)
  {
    InOrderAppend(requests, order, k);
    ServeAllAppend(parse, docs, InOrder(requests, order), requests[k]);
    assert (order + [k])[..|order|] == order;
  }

  lemma SerialisedStep(parse: UrlParser, requests: seq<Request>, docs: Store, order: seq<nat>, w: World, step: Step)
    requires Sound(parse, requests, w) && SavesCurrent(parse, requests, w, step) && InRange(order, |requests|)
    requires Serialised(parse, requests, docs, order, w)
    ensures var after := Apply(parse, requests, w, step);
            var longer := order + (if Ends(parse, requests, w, step) then [step.session] else []);
            InRange(longer, |requests|) && Serialised(parse, requests, docs, longer, after)
  {
    EndIsServe(parse, requests, w, step);
    AgreementStays(parse, requests, docs, order, w, step);
    if Ends(parse, requests, w, step) {
      SerialisedAppend(parse, requests, docs, order, w, Apply(parse, requests, w, step), step.session);
    } else {
      assert order + [] == order;
    }
  }

  /** An interleaving in which no session saves a copy that has been overtaken leaves the store, and gives each
      session the outcome, of serving the requests one by one in the order in which the outcomes are decided: at
      the save, or at the read when that already fails. That serial run has fresh ids as well, so everything
      proved of serial runs holds of it. */
  lemma {:induction false} Serialisation(parse: UrlParser, requests: seq<Request>, w: World, steps: seq<Step>)
    requires Normalising(parse) && DistinctIds(requests) && Sound(parse, requests, w)
    requires CurrentBut(parse, requests, w, {}) && NoStaleSave(parse, requests, w, steps)
    ensures Serialised(parse, requests, w.docs, EndOrder(parse, requests, w, steps), Run(parse, requests, w, steps))
    decreases |steps|
  {
    if steps != [] {
      var front := steps[..|steps| - 1];
      Serialisation(parse, requests, w, front);
      LastSavesCurrent(parse, requests, w, steps);
      SerialisedStep(parse, requests, w.docs, EndOrder(parse, requests, w, front), Run(parse, requests, w, front),
                     steps[|steps| - 1]);
    }
  }

  ghost predicate EndedOnce(requests: seq<Request>, order: seq<nat>, phases: seq<Phase>)
    requires |phases| == |requests|
  {
    && (forall k | 0 <= k < |phases| :: k in order <==> !Open(phases[k]))
    && (forall i, j | 0 <= i < j < |order| :: order[i] != order[j])
  }

  /** The order names every session whose outcome is decided, once. */
  lemma {:induction false} EndOrderIsExact(parse: UrlParser, requests: seq<Request>, w: World, steps: seq<Step>)
    requires |requests| == |w.phases| && forall k | 0 <= k < |w.phases| :: Open(w.phases[k])
    ensures EndedOnce(requests, EndOrder(parse, requests, w, steps), Run(parse, requests, w, steps).phases)
    decreases |steps|
  {
    if steps != [] {
      var front, step := steps[..|steps| - 1], steps[|steps| - 1];
      EndOrderIsExact(parse, requests, w, front);
      var before, ended := Run(parse, requests, w, front), EndOrder(parse, requests, w, front);
      if Ends(parse, requests, before, step) {
        EndedOnceAppend(requests, ended, before.phases, step.session,
                        Apply(parse, requests, before, step).phases[step.session]);
      }
    }
  }

  lemma EndedOnceAppend(requests: seq<Request>, order: seq<nat>, phases: seq<Phase>, k: nat, phase: Phase)
    requires |phases| == |requests| && k < |phases| && Open(phases[k]) && !Open(phase)
    requires EndedOnce(requests, order, phases)
    ensures EndedOnce(requests, order + [k], phases[k := phase])
  {
    forall j | 0 <= j < |phases| ensures j in order + [k] <==> !Open(phases[k := phase][j]) {
      assert j in order + [k] <==> j in order || j == k;
    }
  }

  /** Sessions that have not begun yet, on a valid store and with new ids, may start any of the above. */
  lemma WaitingIsCurrent(parse: UrlParser, requests: seq<Request>, docs: Store)
    requires StoreOk(parse, docs) && forall k | 0 <= k < |requests| :: Fresh(docs, requests[k])
    ensures var w := Begin(docs, |requests|);
            && Sound(parse, requests, w) && CurrentBut(parse, requests, w, {}) && TargetsApart(requests, w)
  {
  }

  /** Serial-run results carry over: a record deleted at any moment of the run is untouched at its end. */
  lemma {:induction false} DeletedIsFinalUnlessOvertaken(parse: UrlParser, requests: seq<Request>, w: World,
                                                         steps: seq<Step>, moment: nat, id: string)
    requires Normalising(parse) && DistinctIds(requests) && Sound(parse, requests, w)
    requires CurrentBut(parse, requests, w, {}) && NoStaleSave(parse, requests, w, steps) && moment <= |steps|
    requires var middle := Run(parse, requests, w, steps[..moment]).docs; id in middle && middle[id].status == Deleted
    ensures var middle, end := Run(parse, requests, w, steps[..moment]).docs, Run(parse, requests, w, steps).docs;
            id in end && end[id] == middle[id]
    decreases |steps|
  {
    if moment == |steps| {
      assert steps[..moment] == steps;
    } else {
      var front := steps[..|steps| - 1];
      assert front[..moment] == steps[..moment];
      DeletedIsFinalUnlessOvertaken(parse, requests, w, front, moment, id);
      LastSavesCurrent(parse, requests, w, steps);
      DeletedStepCurrent(parse, requests, Run(parse, requests, w, front), steps[|steps| - 1], id);
    }
  }

  lemma DeletedStepCurrent(parse: UrlParser, requests: seq<Request>, w: World, step: Step, id: string)
    requires Normalising(parse) && Sound(parse, requests, w) && SavesCurrent(parse, requests, w, step)
    requires id in w.docs && w.docs[id].status == Deleted
    ensures var after := Apply(parse, requests, w, step).docs; id in after && after[id] == w.docs[id]
  {
    EndIsServe(parse, requests, w, step);
    if Ends(parse, requests, w, step) {
      DeletedSurvives(parse, w.docs, requests[step.session], id);
    }
  }

  // ---------------------------------------------------------------- sessions that do not overlap

  /** A session that gets to change a record does not read it while another is between reading and saving it. */
  ghost predicate Alone(parse: UrlParser, requests: seq<Request>, w: World, step: Step)
    requires |requests| == |w.phases|
  {
    Enabled(w, step) && step.Read? && Prepare(parse, w.docs, requests[step.session]).Ok? ==>
      forall j | 0 <= j < |w.phases| && w.phases[j].Loaded? :: Target(requests[j]) != Target(requests[step.session])
  }

  ghost predicate NoOverlap(parse: UrlParser, requests: seq<Request>, w: World, steps: seq<Step>)
    requires |requests| == |w.phases|
    decreases |steps|
  {
    steps != [] ==>
      && NoOverlap(parse, requests, w, steps[..|steps| - 1])
      && Alone(parse, requests, Run(parse, requests, w, steps[..|steps| - 1]), steps[|steps| - 1])
  }

  predicate TargetsApart(requests: seq<Request>, w: World)
    requires |requests| == |w.phases|
  {
    forall j, k | 0 <= j < k < |requests| && w.phases[j].Loaded? && w.phases[k].Loaded? ::
      Target(requests[j]) != Target(requests[k])
  }

  lemma TargetsApartStep(parse: UrlParser, requests: seq<Request>, w: World, step: Step)
    requires |requests| == |w.phases| && TargetsApart(requests, w) && Alone(parse, requests, w, step)
    ensures TargetsApart(requests, Apply(parse, requests, w, step))
    ensures forall k: nat | k < |requests| :: !Overtakes(parse, requests, w, step, k)
  {
    var after := Apply(parse, requests, w, step);
    assert forall j | 0 <= j < |requests| && j != step.session :: after.phases[j] == w.phases[j];
  }

  /** Without overlap nobody is overtaken, so all of the above applies. */
  lemma {:induction false} NoOverlapIsNoStaleSave(parse: UrlParser, requests: seq<Request>, w: World, steps: seq<Step>)
    requires |requests| == |w.phases| && TargetsApart(requests, w) && NoOverlap(parse, requests, w, steps)
    ensures Overtaken(parse, requests, w, steps) == {} && NoStaleSave(parse, requests, w, steps)
    ensures TargetsApart(requests, Run(parse, requests, w, steps))
    decreases |steps|
  {
    if steps != [] {
      NoOverlapIsNoStaleSave(parse, requests, w, steps[..|steps| - 1]);
      TargetsApartStep(parse, requests, Run(parse, requests, w, steps[..|steps| - 1]), steps[|steps| - 1]);
    }
  }

  /** Sessions on one record that do not overlap between read and save serialise, and a delete is final. */
  lemma {:induction false} WithoutOverlap(parse: UrlParser, requests: seq<Request>, w: World, steps: seq<Step>,
                                          moment: nat, id: string)
    requires Normalising(parse) && DistinctIds(requests) && Sound(parse, requests, w)
    requires CurrentBut(parse, requests, w, {}) && TargetsApart(requests, w) && NoOverlap(parse, requests, w, steps)
    requires moment <= |steps|
    ensures Serialised(parse, requests, w.docs, EndOrder(parse, requests, w, steps), Run(parse, requests, w, steps))
    ensures var middle, end := Run(parse, requests, w, steps[..moment]).docs, Run(parse, requests, w, steps).docs;
            id in middle && middle[id].status == Deleted ==> id in end && end[id] == middle[id]
  {
    NoOverlapIsNoStaleSave(parse, requests, w, steps);
    Serialisation(parse, requests, w, steps);
    var middle := Run(parse, requests, w, steps[..moment]).docs;
    if id in middle && middle[id].status == Deleted {
      DeletedIsFinalUnlessOvertaken(parse, requests, w, steps, moment, id);
    }
  }
}
